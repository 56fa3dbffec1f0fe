/**
 * The view controller's recording logic as a state machine on values: the
 * face flag, the zero-or-one recorder slot (`videoWriter`), every recorder
 * created so far, the finish-and-archive chains still running, and the
 * callbacks waiting on the main queue. Each write of the face flag runs
 * checkToRecord, as its didSet does.
 */
module ControllerModel {
  import opened Types
  import Orientation
  import Detection
  import opened RecorderModel

  /** A delegate callback posted to the main queue by recorder number `recorder`. */
  datatype Callback = Callback(recorder: nat, note: Notification)

  datatype Controller = Controller(
    faceDetected: bool,
    slot: Option<nat>,          // the held recorder, by its number
    recorders: seq<Recorder>,   // recorder number i is recorders[i]
    archiving: seq<nat>,        // recorders whose finish-and-archive chain is running
    mainQueue: seq<Callback>)   // posted callbacks, oldest first

  /** What one captured frame brings: the pixel buffer (or none), the detection results
      (none when `perform` threw or the results were not face observations; an empty list
      when no face was found), and the environment's answers. */
  datatype CapturedFrame = CapturedFrame(
    hasPixelBuffer: bool,
    observations: Option<seq<real>>,
    at: int,
    orientation: Orientation.DeviceOrientation,
    writerAccepts: bool)

  /** The events that drive the controller, delivered one at a time. */
  datatype Event =
    | Capture(frame: CapturedFrame)
    | ArchiveDone(index: nat, outcome: LibraryOutcome)   // chain archiving[index] completes
    | MainQueueRuns                                      // the oldest posted callback is delivered

  const Initial := Controller(false, None, [], [], [])

  /** The held recorder is one that exists. */
  predicate SlotInRange(c: Controller) {
    c.slot.Some? ==> c.slot.value < |c.recorders|
  }

  /** Numbers refer to existing recorders, every recorder keeps its own invariant, and a
      recorder being archived has finished writing. */
  predicate WellFormed(c: Controller) {
    SlotInRange(c) &&
    (forall k :: 0 <= k < |c.archiving| ==>
       c.archiving[k] < |c.recorders| && c.recorders[c.archiving[k]].writingFinished) &&
    (forall k :: 0 <= k < |c.mainQueue| ==> c.mainQueue[k].recorder < |c.recorders|) &&
    (forall i :: 0 <= i < |c.recorders| ==> RecorderModel.Valid(c.recorders[i]))
  }

  /** Between events, a held recorder has always received a frame. */
  predicate Settled(c: Controller) {
    c.slot.Some? && c.slot.value < |c.recorders| ==> c.recorders[c.slot.value].hasData
  }

  predicate Valid(c: Controller) {
    WellFormed(c) && Settled(c)
  }

  /** Record what a saveFile of recorder `i` set in motion. */
  function Schedule(c: Controller, i: nat, s: Scheduled): (c': Controller)
    ensures c'.faceDetected == c.faceDetected && c'.slot == c.slot && c'.recorders == c.recorders
    ensures c.archiving <= c'.archiving && c.mainQueue <= c'.mainQueue
    ensures |c'.archiving| + |c'.mainQueue| == |c.archiving| + |c.mainQueue| + 1
    ensures s.NoDataFailure? <==> |c'.mainQueue| > |c.mainQueue|
    ensures s.NoDataFailure? ==> c'.mainQueue[|c'.mainQueue| - 1] == Callback(i, FailedToSaveVideo)
    ensures s.FinishAndArchive? ==> c'.archiving[|c'.archiving| - 1] == i
  {
    match s
    case NoDataFailure => c.(mainQueue := c.mainQueue + [Callback(i, FailedToSaveVideo)])
    case FinishAndArchive => c.(archiving := c.archiving + [i])
  }

  /**
   * checkToRecord: on a true flag, a new recorder when the slot is empty and
   * nothing otherwise; on a false flag, saveFile on the held recorder, or
   * nothing when the slot is empty.
   */
  function CheckToRecord(c: Controller, orientation: Orientation.DeviceOrientation): (c': Controller)
    requires SlotInRange(c)
    ensures SlotInRange(c') && (WellFormed(c) ==> WellFormed(c')) && c'.faceDetected == c.faceDetected
    ensures |c'.recorders| == |c.recorders| + (if c.faceDetected && c.slot.None? then 1 else 0)
    ensures c.slot.Some? ==> c'.slot == c.slot
    ensures c.faceDetected ==> c'.slot.Some?
    ensures c.faceDetected && c.slot.None? ==> c'.slot == Some(|c.recorders|)
    ensures forall i :: 0 <= i < |c.recorders| && c.slot != Some(i) ==> c'.recorders[i] == c.recorders[i]
    ensures c.faceDetected || c.slot.None? ==>
      c'.archiving == c.archiving && c'.mainQueue == c.mainQueue &&
      (c.slot.Some? ==> c' == c) && (c.slot.None? && !c.faceDetected ==> c' == c)
    ensures c.faceDetected && c.slot.None? ==> c'.recorders[|c.recorders|] == Create(orientation)
    ensures !c.faceDetected && c.slot.Some? ==>
      var i := c.slot.value;
      var saved := Save(c.recorders[i]);
      c'.recorders[i] == saved.recorder && c' == Schedule(c.(recorders := c'.recorders), i, saved.scheduled)
  {
    if c.faceDetected then
      if c.slot.None? then
        c.(slot := Some(|c.recorders|), recorders := c.recorders + [Create(orientation)])
      else c
    else
      match c.slot
      case None => c
      case Some(i) =>
        var saved := Save(c.recorders[i]);
        Schedule(c.(recorders := c.recorders[i := saved.recorder]), i, saved.scheduled)
  }

  /** A write of the face flag, which runs checkToRecord. */
  function SetFaceDetected(c: Controller, b: bool, orientation: Orientation.DeviceOrientation): (c': Controller)
    requires SlotInRange(c)
    ensures SlotInRange(c') && (WellFormed(c) ==> WellFormed(c')) && c'.faceDetected == b
  {
    CheckToRecord(c.(faceDetected := b), orientation)
  }

  /** The writes `writes`, in order. */
  function ApplyWrites(c: Controller, writes: seq<bool>, orientation: Orientation.DeviceOrientation): (c': Controller)
    requires SlotInRange(c)
    ensures SlotInRange(c') && (WellFormed(c) ==> WellFormed(c')) && |c'.recorders| >= |c.recorders|
    decreases |writes|
  {
    if writes == [] then c
    else ApplyWrites(SetFaceDetected(c, writes[0], orientation), writes[1..], orientation)
  }

  lemma ApplyWritesCons(c: Controller, b: bool, rest: seq<bool>, orientation: Orientation.DeviceOrientation)
    requires SlotInRange(c)
    ensures ApplyWrites(c, [b] + rest, orientation) == ApplyWrites(SetFaceDetected(c, b, orientation), rest, orientation)
  {
    assert ([b] + rest)[1..] == rest;
  }

  /** The face-detection callback for one list of observation confidences. */
  function DetectionCompleted(c: Controller, confidences: seq<real>, orientation: Orientation.DeviceOrientation): (c': Controller)
    requires SlotInRange(c)
    ensures SlotInRange(c') && (WellFormed(c) ==> WellFormed(c')) && |c'.recorders| >= |c.recorders|
  {
    ApplyWrites(c, Detection.FlagWrites(confidences), orientation)
  }

  /** The frame handed to the held recorder, if there is one; the append's answer is discarded. */
  function ForwardFrame(c: Controller, at: int, writerAccepts: bool): (c': Controller)
    requires SlotInRange(c)
    ensures SlotInRange(c') && |c'.recorders| == |c.recorders|
    ensures WellFormed(c) ==> WellFormed(c') && Settled(c')
    ensures c.slot.None? ==> c' == c
    ensures c.slot.Some? ==>
      c' == c.(recorders := c.recorders[c.slot.value := Append(c.recorders[c.slot.value], at, writerAccepts).recorder])
  {
    match c.slot
    case None => c
    case Some(i) => c.(recorders := c.recorders[i := Append(c.recorders[i], at, writerAccepts).recorder])
  }

  /** captureOutput: detection on the frame first, then the frame to the recorder held after it. */
  function CaptureOutput(c: Controller, f: CapturedFrame): (c': Controller)
    requires SlotInRange(c)
    ensures SlotInRange(c') && |c'.recorders| >= |c.recorders|
    ensures WellFormed(c) ==> WellFormed(c') && (Settled(c) ==> Settled(c'))
  {
    if !f.hasPixelBuffer then c
    else
      var detected := if f.observations.Some? then DetectionCompleted(c, f.observations.value, f.orientation) else c;
      ForwardFrame(detected, f.at, f.writerAccepts)
  }

  /** The delegate's reaction to one callback: saved and failed empty the slot, the permission
      request only shows an alert and keeps it. */
  function React(c: Controller, note: Notification): (c': Controller)
    ensures note == NeedsLibraryPermission ==> c' == c
    ensures note != NeedsLibraryPermission ==> c' == c.(slot := None)
  {
    match note
    case DidSaveVideo => c.(slot := None)
    case FailedToSaveVideo => c.(slot := None)
    case NeedsLibraryPermission => c
  }

  /** The end of chain archiving[k]: exactly one callback for that recorder, chosen by the library's outcome. */
  function ArchiveFinished(c: Controller, k: nat, outcome: LibraryOutcome): (c': Controller)
    requires k < |c.archiving|
    ensures WellFormed(c) ==> WellFormed(c')
    ensures |c'.archiving| + |c'.mainQueue| == |c.archiving| + |c.mainQueue|
    ensures c'.mainQueue == c.mainQueue + [Callback(c.archiving[k], ArchiveNotification(outcome))]
    ensures multiset(c'.archiving) + multiset{c.archiving[k]} == multiset(c.archiving)
    ensures c'.slot == c.slot && c'.recorders == c.recorders && c'.faceDetected == c.faceDetected
  {
    var rest := c.archiving[..k] + c.archiving[k + 1..];
    assert c.archiving == c.archiving[..k] + [c.archiving[k]] + c.archiving[k + 1..];
    assert forall j :: 0 <= j < |rest| ==> rest[j] in c.archiving;
    c.(archiving := rest, mainQueue := c.mainQueue + [Callback(c.archiving[k], ArchiveNotification(outcome))])
  }

  /** The main queue delivers its oldest callback to the delegate. */
  function RunMainQueue(c: Controller): (c': Controller)
    requires c.mainQueue != []
    ensures WellFormed(c) ==> WellFormed(c')
    ensures c'.mainQueue == c.mainQueue[1..] && c'.archiving == c.archiving
    ensures c'.recorders == c.recorders && c'.faceDetected == c.faceDetected
    ensures c'.slot == (if c.mainQueue[0].note == NeedsLibraryPermission then c.slot else None)
  {
    React(c.(mainQueue := c.mainQueue[1..]), c.mainQueue[0].note)
  }

  /** One event; an event that cannot happen in this state (no such chain, an empty queue) changes nothing. */
  function Step(c: Controller, e: Event): (c': Controller)
    requires WellFormed(c)
    ensures WellFormed(c') && |c'.recorders| >= |c.recorders|
  {
    match e
    case Capture(f) => CaptureOutput(c, f)
    case ArchiveDone(k, outcome) => if k < |c.archiving| then ArchiveFinished(c, k, outcome) else c
    case MainQueueRuns => if c.mainQueue != [] then RunMainQueue(c) else c
  }

  function Run(c: Controller, events: seq<Event>): (c': Controller)
    requires WellFormed(c)
    ensures WellFormed(c') && |c'.recorders| >= |c.recorders|
    decreases |events|
  {
    if events == [] then c else Run(Step(c, events[0]), events[1..])
  }
}
