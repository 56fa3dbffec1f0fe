/**
 * The event video recorder as a state machine on values: three flags
 * (start time, has-data, writing-finished), the rotation fixed at
 * construction, and the log of calls made to the underlying asset writer.
 * The writer itself is opaque; the verdict of each frame append is an input.
 */
module RecorderModel {
  import opened Types
  import Orientation

  /** A call made to the asset writer. `accepted` is what the writer answered to an append. */
  datatype WriterCall =
    | StartWriting
    | StartSession(at: int)
    | AppendFrame(at: int, accepted: bool)
    | FinishWriting

  /** The three callbacks a recorder sends its delegate. */
  datatype Notification = DidSaveVideo | NeedsLibraryPermission | FailedToSaveVideo

  /** What the photo library does with a finished file. */
  datatype LibraryOutcome = Authorized(error: bool) | NotAuthorized

  /** What a call to saveFile sets in motion. */
  datatype Scheduled =
    | NoDataFailure      // the failed callback, posted straight to the main queue
    | FinishAndArchive   // finishWriting, then authorization and the library save

  datatype Recorder = Recorder(
    startTime: Option<int>,
    hasData: bool,
    writingFinished: bool,
    rotation: int,
    writerCalls: seq<WriterCall>)

  datatype AppendResult = AppendResult(recorder: Recorder, ok: bool)
  datatype SaveResult = SaveResult(recorder: Recorder, scheduled: Scheduled)

  /**
   * The object invariant: the writer log is empty until the first frame;
   * after it the log is startWriting, startSession at the first frame's
   * time, that frame's append, further appends, and then only finishes;
   * writing is finished exactly when the last call was a finish, and the
   * start time is the session's start while writing is not finished.
   */
  predicate Valid(r: Recorder) {
    var log := r.writerCalls;
    (!r.hasData ==> log == [] && r.startTime == None && !r.writingFinished) &&
    (r.hasData ==>
      |log| >= 3 && log[0] == StartWriting && log[1].StartSession? &&
      log[2].AppendFrame? && log[2].at == log[1].at &&
      (forall i :: 2 <= i < |log| ==> log[i].AppendFrame? || log[i] == FinishWriting) &&
      (forall i, j :: 2 <= i < j < |log| && log[i] == FinishWriting ==> log[j] == FinishWriting) &&
      (r.writingFinished <==> log[|log| - 1] == FinishWriting) &&
      r.startTime == (if r.writingFinished then None else Some(log[1].at)))
  }

  /** A new recorder: no frame yet, nothing sent to the writer, rotation sampled from the orientation now. */
  function Create(orientation: Orientation.DeviceOrientation): (r: Recorder)
    ensures Valid(r) && !r.hasData && !r.writingFinished && r.writerCalls == []
    ensures r.rotation == Orientation.VideoRotationDegrees(orientation)
  {
    Recorder(None, false, false, Orientation.VideoRotationDegrees(orientation), [])
  }

  /**
   * appendSampleBuffer: rejected once writing is finished; the first frame
   * opens the writer and its session at that frame's time.
   */
  function Append(r: Recorder, at: int, writerAccepts: bool): (res: AppendResult)
    ensures res.recorder.rotation == r.rotation
    ensures r.writingFinished ==> res == AppendResult(r, false)
    ensures !r.writingFinished ==>
      res.ok == writerAccepts && !res.recorder.writingFinished &&
      (r.startTime.None? ==>
        res.recorder.startTime == Some(at) && res.recorder.hasData &&
        res.recorder.writerCalls == r.writerCalls + [StartWriting, StartSession(at), AppendFrame(at, writerAccepts)]) &&
      (r.startTime.Some? ==>
        res.recorder.startTime == r.startTime && res.recorder.hasData == r.hasData &&
        res.recorder.writerCalls == r.writerCalls + [AppendFrame(at, writerAccepts)])
    ensures Valid(r) ==> Valid(res.recorder)
  {
    if r.writingFinished then AppendResult(r, false)
    else
      var started :=
        if r.startTime.None? then
          r.(startTime := Some(at), hasData := true,
             writerCalls := r.writerCalls + [StartWriting, StartSession(at)])
        else r;
      AppendResult(started.(writerCalls := started.writerCalls + [AppendFrame(at, writerAccepts)]), writerAccepts)
  }

  /**
   * saveFile: without data, only the failed callback; with data, writing is
   * marked finished, the start time cleared and finishWriting called, every
   * time it is called (there is no guard against a second call).
   */
  function Save(r: Recorder): (res: SaveResult)
    ensures res.recorder.rotation == r.rotation && res.recorder.hasData == r.hasData
    ensures !r.hasData ==> res == SaveResult(r, NoDataFailure)
    ensures r.hasData ==>
      res.scheduled == FinishAndArchive && res.recorder.writingFinished &&
      res.recorder.startTime == None &&
      res.recorder.writerCalls == r.writerCalls + [FinishWriting]
    ensures Valid(r) ==> Valid(res.recorder)
  {
    if !r.hasData then SaveResult(r, NoDataFailure)
    else
      SaveResult(r.(startTime := None, writingFinished := true,
                    writerCalls := r.writerCalls + [FinishWriting]),
                 FinishAndArchive)
  }

  /** The callback that the end of the finish-and-archive chain posts for a library outcome. */
  function ArchiveNotification(outcome: LibraryOutcome): (n: Notification)
    ensures n == DidSaveVideo <==> outcome == Authorized(false)
    ensures n == FailedToSaveVideo <==> outcome == Authorized(true)
    ensures n == NeedsLibraryPermission <==> outcome.NotAuthorized?
  {
    match outcome
    case Authorized(error) => if error then FailedToSaveVideo else DidSaveVideo
    case NotAuthorized => NeedsLibraryPermission
  }

  /** One call on a recorder, as its owner makes them. */
  datatype RecorderOp = AppendOp(at: int, writerAccepts: bool) | SaveOp

  function Apply(r: Recorder, op: RecorderOp): Recorder {
    match op
    case AppendOp(at, accepts) => Append(r, at, accepts).recorder
    case SaveOp => Save(r).recorder
  }

  function Run(r: Recorder, ops: seq<RecorderOp>): Recorder
    decreases |ops|
  {
    if ops == [] then r else Run(Apply(r, ops[0]), ops[1..])
  }

  function SaveCount(ops: seq<RecorderOp>): nat {
    if ops == [] then 0 else (if ops[0].SaveOp? then 1 else 0) + SaveCount(ops[1..])
  }

  /** Every sequence of calls keeps the invariant and the rotation chosen at construction. */
  lemma {:induction false} RunPreservesValid(r: Recorder, ops: seq<RecorderOp>)
    requires Valid(r)
    ensures Valid(Run(r, ops)) && Run(r, ops).rotation == r.rotation
    decreases |ops|
  {
    if ops != [] {
      RunPreservesValid(Apply(r, ops[0]), ops[1..]);
    }
  }

  /**
   * Once writing is finished the recorder is closed for good: every later
   * append is refused without a writer call, and every later save calls
   * finishWriting once more and changes nothing else.
   */
  lemma {:induction false} FinishedRecorderOnlyFinishes(r: Recorder, ops: seq<RecorderOp>)
    requires Valid(r) && r.writingFinished
    ensures Run(r, ops) == r.(writerCalls := r.writerCalls + Repeat(FinishWriting, SaveCount(ops)))
    decreases |ops|
  {
    if ops != [] {
      var next := Apply(r, ops[0]);
      FinishedRecorderOnlyFinishes(next, ops[1..]);
      var n := SaveCount(ops[1..]);
      if ops[0].SaveOp? {
        assert [FinishWriting] + Repeat(FinishWriting, n) == Repeat(FinishWriting, n + 1);
      }
    }
  }

  function Occurrences(log: seq<WriterCall>, c: WriterCall): nat {
    if log == [] then 0 else (if log[0] == c then 1 else 0) + Occurrences(log[1..], c)
  }

  lemma {:induction false} NoOccurrences(log: seq<WriterCall>, c: WriterCall)
    requires forall i :: 0 <= i < |log| ==> log[i] != c
    ensures Occurrences(log, c) == 0
  {
    if log != [] {
      NoOccurrences(log[1..], c);
    }
  }

  /**
   * The writer is started, and its session opened, at most once in the
   * whole life of a recorder: exactly once if it ever received a frame,
   * never otherwise, and the session starts at the first frame's time.
   */
  lemma WriterStartedOnce(r: Recorder)
    requires Valid(r)
    ensures Occurrences(r.writerCalls, StartWriting) == (if r.hasData then 1 else 0)
    ensures r.hasData ==> Occurrences(r.writerCalls, StartSession(r.writerCalls[1].at)) == 1
    ensures r.hasData ==> r.writerCalls[2] == AppendFrame(r.writerCalls[1].at, r.writerCalls[2].accepted)
    ensures forall t ::
      Occurrences(r.writerCalls, StartSession(t)) == (if r.hasData && t == r.writerCalls[1].at then 1 else 0)
  {
    var log := r.writerCalls;
    if r.hasData {
      NoOccurrences(log[2..], StartWriting);
      assert log[1..][1..] == log[2..];
      forall t ensures Occurrences(log, StartSession(t)) == (if t == log[1].at then 1 else 0) {
        NoOccurrences(log[2..], StartSession(t));
      }
    }
  }
}
