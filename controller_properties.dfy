/**
 * What the controller's state machine guarantees over one detection
 * callback, one frame and whole runs of events.
 */
module ControllerProperties {
  import opened Types
  import Orientation
  import Detection
  import RecorderModel
  import opened ControllerModel

  /** A recorder after `n` calls of saveFile, for a recorder that has data. */
  function SavedTimes(r: RecorderModel.Recorder, n: nat): RecorderModel.Recorder {
    if n == 0 then r
    else r.(startTime := None, writingFinished := true,
            writerCalls := r.writerCalls + Repeat(RecorderModel.FinishWriting, n))
  }

  /** Writes split anywhere: the second part starts from the state the first left behind. */
  lemma {:induction false} ApplyWritesConcat(c: Controller, first: seq<bool>, second: seq<bool>, o: Orientation.DeviceOrientation)
    requires SlotInRange(c)
    ensures ApplyWrites(c, first + second, o) == ApplyWrites(ApplyWrites(c, first, o), second, o)
    decreases |first|
  {
    if first == [] {
      assert first + second == second;
    } else {
      assert (first + second)[0] == first[0];
      assert (first + second)[1..] == first[1..] + second;
      ApplyWritesConcat(SetFaceDetected(c, first[0], o), first[1..], second, o);
    }
  }

  /** One false write with a recorder with data held: one saveFile on it, one archive chain. */
  lemma FalseWriteWithHeldRecorder(c: Controller, o: Orientation.DeviceOrientation)
    requires WellFormed(c) && c.slot.Some? && c.recorders[c.slot.value].hasData
    ensures SetFaceDetected(c, false, o)
         == c.(faceDetected := false,
               recorders := c.recorders[c.slot.value := RecorderModel.Save(c.recorders[c.slot.value]).recorder],
               archiving := c.archiving + [c.slot.value])
  {
  }

  /** n saveFile calls are one call followed by n - 1 more. */
  lemma SavedTimesShift(r: RecorderModel.Recorder, n: nat)
    requires r.hasData && n > 0
    ensures SavedTimes(RecorderModel.Save(r).recorder, n - 1) == SavedTimes(r, n)
  {
    if n > 1 {
      assert r.writerCalls + [RecorderModel.FinishWriting] + Repeat(RecorderModel.FinishWriting, n - 1)
          == r.writerCalls + Repeat(RecorderModel.FinishWriting, n);
    }
  }

  /** The state after `n` false writes with a recorder with data held. */
  function AfterFalseWrites(c: Controller, n: nat): Controller
    requires c.slot.Some? && c.slot.value < |c.recorders|
  {
    c.(faceDetected := if n == 0 then c.faceDetected else false,
       recorders := c.recorders[c.slot.value := SavedTimes(c.recorders[c.slot.value], n)],
       archiving := c.archiving + Repeat(c.slot.value, n))
  }

  /** n false writes are the first one followed by n - 1 more. */
  lemma AfterFalseWritesShift(c: Controller, n: nat)
    requires c.slot.Some? && c.slot.value < |c.recorders| && c.recorders[c.slot.value].hasData && n > 0
    ensures AfterFalseWrites(AfterFalseWrites(c, 1), n - 1) == AfterFalseWrites(c, n)
  {
    var i := c.slot.value;
    var r := c.recorders[i];
    SavedTimesShift(r, n);
    assert SavedTimes(r, 1) == RecorderModel.Save(r).recorder;
    assert c.archiving + Repeat(i, 1) + Repeat(i, n - 1) == c.archiving + Repeat(i, n);
    assert c.recorders[i := SavedTimes(r, 1)][i := SavedTimes(SavedTimes(r, 1), n - 1)]
        == c.recorders[i := SavedTimes(r, n)];
  }

  /**
   * A false write while the held recorder has no data: saveFile posts
   * exactly one failed callback for it, starts no archive chain, changes no
   * recorder, and the slot keeps the recorder until that callback runs and
   * empties it.
   */
  lemma FalseWriteWithoutData(c: Controller, o: Orientation.DeviceOrientation)
    requires WellFormed(c) && c.slot.Some? && !c.recorders[c.slot.value].hasData
    ensures var c' := SetFaceDetected(c, false, o);
      c' == c.(faceDetected := false, mainQueue := c.mainQueue + [Callback(c.slot.value, RecorderModel.FailedToSaveVideo)]) &&
      (c.mainQueue == [] ==> RunMainQueue(c') == c'.(slot := None, mainQueue := []))
  {
    assert c.recorders[c.slot.value := c.recorders[c.slot.value]] == c.recorders;
  }

  /** Flag writes of false with a recorder held: saveFile on it once per write, and nothing else. */
  lemma {:induction false} FalseWritesWithHeldRecorder(c: Controller, n: nat, o: Orientation.DeviceOrientation)
    requires WellFormed(c) && c.slot.Some? && c.recorders[c.slot.value].hasData
    ensures ApplyWrites(c, Repeat(false, n), o) == AfterFalseWrites(c, n)
    decreases n
  {
    if n == 0 {
      assert c.recorders[c.slot.value := c.recorders[c.slot.value]] == c.recorders;
    } else {
      var first := SetFaceDetected(c, false, o);
      FalseWriteWithHeldRecorder(c, o);
      assert Repeat(c.slot.value, 1) == [c.slot.value];
      assert Repeat(RecorderModel.FinishWriting, 1) == [RecorderModel.FinishWriting];
      assert first == AfterFalseWrites(c, 1);
      assert Repeat(false, n)[1..] == Repeat(false, n - 1);
      FalseWritesWithHeldRecorder(first, n - 1, o);
      AfterFalseWritesShift(c, n);
    }
  }

  /** Flag writes of false with the slot empty change nothing but the flag. */
  lemma {:induction false} FalseWritesWithEmptySlot(c: Controller, n: nat, o: Orientation.DeviceOrientation)
    requires WellFormed(c) && c.slot.None?
    ensures ApplyWrites(c, Repeat(false, n), o) == c.(faceDetected := if n == 0 then c.faceDetected else false)
    decreases n
  {
    if n > 0 {
      assert Repeat(false, n)[1..] == Repeat(false, n - 1);
      FalseWritesWithEmptySlot(SetFaceDetected(c, false, o), n - 1, o);
    }
  }

  /**
   * One detection callback while a recorder with data is held: saveFile is
   * called on it once for every false write (so more than once when several
   * observations fall short of the threshold), each call finishing the
   * writer again and starting another archive chain; no recorder is created
   * and no callback is posted at once.
   */
  lemma DetectionWithHeldRecorder(c: Controller, confidences: seq<real>, o: Orientation.DeviceOrientation)
    requires WellFormed(c) && c.slot.Some? && c.recorders[c.slot.value].hasData
    ensures var n := Detection.FalseWriteCount(confidences);
      DetectionCompleted(c, confidences, o)
        == c.(faceDetected := Detection.AnyQualifies(confidences),
              recorders := c.recorders[c.slot.value := SavedTimes(c.recorders[c.slot.value], n)],
              archiving := c.archiving + Repeat(c.slot.value, n))
  {
    var n := Detection.FalseWriteCount(confidences);
    Detection.FlagWritesShape(confidences);
    FalseWritesWithHeldRecorder(c, n, o);
    if Detection.AnyQualifies(confidences) {
      ApplyWritesConcat(c, Repeat(false, n), [true], o);
    } else {
      assert n > 0;
      assert Repeat(false, n) + [] == Repeat(false, n);
    }
  }

  /**
   * One detection callback with the slot empty: a single new recorder,
   * created and held exactly when some observation qualifies; otherwise
   * nothing but the flag changes.
   */
  lemma DetectionWithEmptySlot(c: Controller, confidences: seq<real>, o: Orientation.DeviceOrientation)
    requires WellFormed(c) && c.slot.None?
    ensures var found := Detection.AnyQualifies(confidences);
      DetectionCompleted(c, confidences, o)
        == c.(faceDetected := found,
              slot := if found then Some(|c.recorders|) else None,
              recorders := c.recorders + (if found then [RecorderModel.Create(o)] else []))
  {
    var n := Detection.FalseWriteCount(confidences);
    Detection.FlagWritesShape(confidences);
    FalseWritesWithEmptySlot(c, n, o);
    if Detection.AnyQualifies(confidences) {
      ApplyWritesConcat(c, Repeat(false, n), [true], o);
    } else {
      assert n > 0;
      assert Repeat(false, n) + [] == Repeat(false, n);
      assert c.recorders + [] == c.recorders;
    }
  }

  /**
   * The no-data branch of saveFile is never taken by the running controller:
   * a recorder is appended the very frame that creates it, so every saveFile
   * finds data and no callback is posted during a frame.
   */
  lemma NoDataBranchNeverTaken(c: Controller, f: CapturedFrame)
    requires Valid(c)
    ensures CaptureOutput(c, f).mainQueue == c.mainQueue
    ensures Valid(CaptureOutput(c, f))
  {
    if f.hasPixelBuffer && f.observations.Some? {
      if c.slot.Some? {
        DetectionWithHeldRecorder(c, f.observations.value, f.orientation);
      } else {
        DetectionWithEmptySlot(c, f.observations.value, f.orientation);
      }
    }
  }

  /** Every event keeps the controller's invariant. */
  lemma StepPreservesValid(c: Controller, e: Event)
    requires Valid(c)
    ensures Valid(Step(c, e))
  {
    if e.Capture? {
      NoDataBranchNeverTaken(c, e.frame);
    }
  }

  lemma {:induction false} RunPreservesValid(c: Controller, events: seq<Event>)
    requires Valid(c)
    ensures Valid(Run(c, events))
    decreases |events|
  {
    if events != [] {
      StepPreservesValid(c, events[0]);
      RunPreservesValid(Step(c, events[0]), events[1..]);
    }
  }

  /**
   * A frame whose detection writes no false: no buffer, no detection results
   * (perform threw or the results were not face observations), or a
   * qualifying first observation. An empty result list writes false.
   */
  predicate WritesNoFalse(f: CapturedFrame) {
    !f.hasPixelBuffer || f.observations.None? ||
    (f.observations.value != [] && Detection.Qualifies(f.observations.value[0]))
  }

  /**
   * After a held recorder has finished writing (as after the library refused
   * permission, whose callback keeps the slot), frames whose detection writes
   * no false change nothing: every append is refused and no recorder is
   * created. A frame whose first observation does not qualify writes false
   * and saves the held recorder again (DetectionWithHeldRecorder).
   */
  lemma {:induction false} FinishedRecorderBlocksSlot(c: Controller, events: seq<Event>)
    requires WellFormed(c) && c.slot.Some? && c.recorders[c.slot.value].writingFinished
    requires forall k :: 0 <= k < |events| ==> events[k].Capture? && WritesNoFalse(events[k].frame)
    ensures var c' := Run(c, events);
      c'.slot == c.slot && c'.recorders == c.recorders &&
      c'.archiving == c.archiving && c'.mainQueue == c.mainQueue
    decreases |events|
  {
    if events != [] {
      var f := events[0].frame;
      var next := Step(c, events[0]);
      if f.hasPixelBuffer {
        var detected := if f.observations.Some? then DetectionCompleted(c, f.observations.value, f.orientation) else c;
        if f.observations.Some? {
          assert Detection.FlagWrites(f.observations.value) == [true] + [];
          ApplyWritesCons(c, true, [], f.orientation);
        }
        assert detected == c || detected == c.(faceDetected := true);
        assert next.recorders == c.recorders[c.slot.value := c.recorders[c.slot.value]];
        assert c.recorders[c.slot.value := c.recorders[c.slot.value]] == c.recorders;
      }
      assert next.slot == c.slot && next.recorders == c.recorders;
      FinishedRecorderBlocksSlot(next, events[1..]);
    }
  }

  /**
   * A frame on which no face is found (an empty result list) writes false
   * once, so a finished recorder left in the slot is saved again: one more
   * finishWriting and one more archive chain, while it stays held.
   */
  lemma NoFaceFrameSavesAgain(c: Controller, f: CapturedFrame)
    requires WellFormed(c) && c.slot.Some? && c.recorders[c.slot.value].writingFinished
    requires f.hasPixelBuffer && f.observations == Some([])
    ensures !WritesNoFalse(f)
    ensures var c' := Step(c, Capture(f));
      c'.slot == c.slot && c'.archiving == c.archiving + [c.slot.value] &&
      c'.recorders[c.slot.value].writerCalls == c.recorders[c.slot.value].writerCalls + [RecorderModel.FinishWriting]
  {
    var i := c.slot.value;
    assert c.recorders[i].hasData;
    DetectionWithHeldRecorder(c, [], f.orientation);
    assert Repeat(c.slot.value, 1) == [i];
  }

  /**
   * When an archive chain ends and its callback is delivered: saved and
   * failed empty the slot; a refused permission leaves the (finished)
   * recorder in it.
   */
  lemma ArchiveThenDeliver(c: Controller, k: nat, outcome: RecorderModel.LibraryOutcome)
    requires WellFormed(c) && k < |c.archiving| && c.mainQueue == []
    ensures var c' := RunMainQueue(ArchiveFinished(c, k, outcome));
      c'.slot == (if outcome.NotAuthorized? then c.slot else None) &&
      c'.recorders == c.recorders && c'.mainQueue == [] &&
      multiset(c'.archiving) + multiset{c.archiving[k]} == multiset(c.archiving)
  {
  }

  /** A step never changes a recorder that is not held, and never holds it again. */
  lemma {:induction false} ApplyWritesKeepsReleased(c: Controller, writes: seq<bool>, o: Orientation.DeviceOrientation, j: nat)
    requires WellFormed(c) && j < |c.recorders| && c.slot != Some(j)
    ensures var c' := ApplyWrites(c, writes, o); c'.recorders[j] == c.recorders[j] && c'.slot != Some(j)
    decreases |writes|
  {
    if writes != [] {
      ApplyWritesKeepsReleased(SetFaceDetected(c, writes[0], o), writes[1..], o, j);
    }
  }

  lemma StepKeepsReleased(c: Controller, e: Event, j: nat)
    requires WellFormed(c) && j < |c.recorders| && c.slot != Some(j)
    ensures Step(c, e).recorders[j] == c.recorders[j] && Step(c, e).slot != Some(j)
  {
    if e.Capture? && e.frame.hasPixelBuffer && e.frame.observations.Some? {
      ApplyWritesKeepsReleased(c, Detection.FlagWrites(e.frame.observations.value), e.frame.orientation, j);
    }
  }

  /** Once a recorder leaves the slot it is never touched again: no frame and no saveFile reach it. */
  lemma {:induction false} ReleasedRecorderFrozen(c: Controller, events: seq<Event>, j: nat)
    requires WellFormed(c) && j < |c.recorders| && c.slot != Some(j)
    ensures Run(c, events).recorders[j] == c.recorders[j] && Run(c, events).slot != Some(j)
    decreases |events|
  {
    if events != [] {
      StepKeepsReleased(c, events[0], j);
      ReleasedRecorderFrozen(Step(c, events[0]), events[1..], j);
    }
  }

  lemma {:induction false} RunConcat(c: Controller, first: seq<Event>, second: seq<Event>)
    requires WellFormed(c)
    ensures Run(c, first + second) == Run(Run(c, first), second)
    decreases |first|
  {
    if first == [] {
      assert first + second == second;
    } else {
      assert (first + second)[0] == first[0];
      assert (first + second)[1..] == first[1..] + second;
      RunConcat(Step(c, first[0]), first[1..], second);
    }
  }

  /** A frame with a pixel buffer and observations, taken in portrait, that the writer accepts. */
  function PortraitFrame(confidences: seq<real>, at: int): Event {
    Capture(CapturedFrame(true, Some(confidences), at, Orientation.Portrait, true))
  }

  /** A face shows while the slot is empty: a new recorder is created and takes the frame. */
  lemma FaceAppears(c: Controller, confidence: real, at: int)
    requires Valid(c) && c.slot.None? && Detection.Qualifies(confidence)
    ensures Step(c, PortraitFrame([confidence], at))
         == c.(faceDetected := true, slot := Some(|c.recorders|),
               recorders := c.recorders + [RecorderModel.Append(RecorderModel.Create(Orientation.Portrait), at, true).recorder])
  {
    assert Detection.Qualifies([confidence][0]);
    DetectionWithEmptySlot(c, [confidence], Orientation.Portrait);
  }

  /** Two observations below the threshold while a recorder is held: two saveFile calls on it. */
  lemma FaceLostTwice(c: Controller, low: real, lower: real, at: int)
    requires Valid(c) && c.slot.Some? && !Detection.Qualifies(low) && !Detection.Qualifies(lower)
    ensures var i := c.slot.value;
      Step(c, PortraitFrame([low, lower], at))
        == c.(faceDetected := false, recorders := c.recorders[i := SavedTimes(c.recorders[i], 2)],
              archiving := c.archiving + [i, i])
  {
    assert Detection.FalseWriteCount([low, lower]) == 2;
    assert !Detection.AnyQualifies([low, lower]);
    DetectionWithHeldRecorder(c, [low, lower], Orientation.Portrait);
    assert Repeat(c.slot.value, 2) == [c.slot.value, c.slot.value];
  }

  /** The archive chain archiving[0] ends with the video saved. */
  const SavedFirstChain := ArchiveDone(0, RecorderModel.Authorized(false))

  /** The confidences of a run in which a face shows, is lost over two observations, and shows again. */
  predicate StrandingConfidences(high: real, low: real, lower: real, again: real) {
    Detection.Qualifies(high) && !Detection.Qualifies(low) && !Detection.Qualifies(lower) && Detection.Qualifies(again)
  }

  /** A face shows (recorder 0 starts), then is lost over two observations: saveFile twice. */
  function StartThenSaveTwice(high: real, low: real, lower: real): seq<Event> {
    [PortraitFrame([high], 1), PortraitFrame([low, lower], 2)]
  }

  /** The first archive chain ends and its callback is delivered. */
  function FirstCallback(): seq<Event> {
    [SavedFirstChain, MainQueueRuns]
  }

  /** A face shows again (a new recorder starts), and the second chain's callback empties the slot. */
  function RestartThenStaleCallback(again: real): seq<Event> {
    [PortraitFrame([again], 3), SavedFirstChain, MainQueueRuns]
  }

  /** The run in which a stale callback strands a recorder. */
  function StrandingRun(high: real, low: real, lower: real, again: real): seq<Event> {
    StartThenSaveTwice(high, low, lower) + FirstCallback() + RestartThenStaleCallback(again)
  }

  lemma StartThenSaveTwiceLeaves(c: Controller, high: real, low: real, lower: real)
    requires Valid(c) && c.slot.None? && c.recorders == [] && c.archiving == [] && c.mainQueue == []
    requires Detection.Qualifies(high) && !Detection.Qualifies(low) && !Detection.Qualifies(lower)
    ensures var c' := Run(c, StartThenSaveTwice(high, low, lower));
      Valid(c') && c'.slot == Some(0) && |c'.recorders| == 1 && c'.archiving == [0, 0] && c'.mainQueue == []
  {
    var e := StartThenSaveTwice(high, low, lower);
    var c1 := Step(c, e[0]);
    FaceAppears(c, high, 1);
    StepPreservesValid(c, e[0]);
    var c2 := Step(c1, e[1]);
    FaceLostTwice(c1, low, lower, 2);
    StepPreservesValid(c1, e[1]);
    assert Run(c1, e[1..]) == c2;
  }

  lemma FirstCallbackLeaves(c: Controller)
    requires Valid(c) && c.slot == Some(0) && |c.recorders| == 1 && c.archiving == [0, 0] && c.mainQueue == []
    ensures var c' := Run(c, FirstCallback());
      Valid(c') && c'.slot.None? && |c'.recorders| == 1 && c'.archiving == [0] && c'.mainQueue == []
  {
    var e := FirstCallback();
    var c1 := Step(c, e[0]);
    StepPreservesValid(c, e[0]);
    var c2 := Step(c1, e[1]);
    StepPreservesValid(c1, e[1]);
    assert Run(c1, e[1..]) == c2;
  }

  lemma RestartThenStaleCallbackLeaves(c: Controller, again: real)
    requires Valid(c) && c.slot.None? && |c.recorders| == 1 && c.archiving == [0] && c.mainQueue == []
    requires Detection.Qualifies(again)
    ensures var c' := Run(c, RestartThenStaleCallback(again));
      c'.slot.None? && |c'.recorders| == 2 && c'.archiving == [] && c'.mainQueue == [] &&
      c'.recorders[1].hasData && !c'.recorders[1].writingFinished
  {
    var e := RestartThenStaleCallback(again);
    var c1 := Step(c, e[0]);
    FaceAppears(c, again, 3);
    var r1 := c1.recorders[1];
    assert r1.hasData && !r1.writingFinished;
    var c2 := Step(c1, e[1]);
    var c3 := Step(c2, e[2]);
    assert c3.slot.None? && c3.archiving == [] && c3.mainQueue == [] && c3.recorders == c1.recorders;
    assert Run(c2, e[2..]) == c3;
    assert Run(c1, e[1..]) == c3 by { assert e[1..][1..] == e[2..]; }
  }

  /**
   * saveFile has no guard and the delegate does not look at which recorder
   * called it, so the second callback of a recorder saved twice empties the
   * slot of the recorder created after it. That recorder has data and has
   * not finished writing, and nothing ever reaches it again: its video is
   * never finished or archived, whatever events follow (for instance with a
   * face at 0.9, lost at 0.1 and 0.2, and back at 0.95).
   */
  lemma StaleCallbackStrandsRecorder(high: real, low: real, lower: real, again: real, more: seq<Event>)
    requires StrandingConfidences(high, low, lower, again)
    ensures var c := Run(Initial, StrandingRun(high, low, lower, again));
      c.slot.None? && c.archiving == [] && c.mainQueue == [] && |c.recorders| == 2
    ensures var c := Run(Initial, StrandingRun(high, low, lower, again) + more);
      |c.recorders| >= 2 && c.recorders[1].hasData && !c.recorders[1].writingFinished
  {
    var first := StartThenSaveTwice(high, low, lower);
    var second := FirstCallback();
    var third := RestartThenStaleCallback(again);
    StartThenSaveTwiceLeaves(Initial, high, low, lower);
    FirstCallbackLeaves(Run(Initial, first));
    RunConcat(Initial, first, second);
    RestartThenStaleCallbackLeaves(Run(Initial, first + second), again);
    RunConcat(Initial, first + second, third);
    var c := Run(Initial, StrandingRun(high, low, lower, again));
    RunConcat(Initial, StrandingRun(high, low, lower, again), more);
    ReleasedRecorderFrozen(c, more, 1);
  }
}
