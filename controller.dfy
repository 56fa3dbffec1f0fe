/**
 * The view controller's recording logic as an object: the face flag whose
 * every write runs checkToRecord, the zero-or-one recorder slot, and the
 * asynchronous work in flight (archive chains and main-queue callbacks).
 * Every method is proved to do what the matching step of ControllerModel
 * does to the controller's state as a value.
 */
module Controller {
  import opened Types
  import Orientation
  import Detection
  import RecorderModel
  import ControllerModel
  import opened Recorder

  /** A delegate callback waiting on the main queue. */
  datatype PostedCallback = PostedCallback(from: EventVideoRecorder, note: RecorderModel.Notification)

  class ViewController {
    var isFaceDetected: bool
    var videoWriter: EventVideoRecorder?
    /** Recorders whose finishWriting, authorization and library save are still running. */
    var archiving: seq<EventVideoRecorder>
    /** Callbacks posted to the main queue, oldest first. */
    var mainQueue: seq<PostedCallback>
    /** Every recorder this controller created, in order. */
    ghost var recorders: seq<EventVideoRecorder>

    ghost function Repr(): set<EventVideoRecorder>
      reads this
    {
      set r | r in recorders
    }

    /** Every recorder the controller refers to is one it created, numbered in creation order. */
    ghost predicate Linked()
      reads this
    {
      (forall i :: 0 <= i < |recorders| ==> recorders[i].number == i) &&
      (videoWriter != null ==> videoWriter in recorders) &&
      (forall k :: 0 <= k < |archiving| ==> archiving[k] in recorders) &&
      (forall k :: 0 <= k < |mainQueue| ==> mainQueue[k].from in recorders)
    }

    ghost function Model(): (m: ControllerModel.Controller)
      reads this, Repr()
      requires Linked()
      ensures ControllerModel.SlotInRange(m) && |m.recorders| == |recorders|
    {
      var recs := recorders;
      var arch := archiving;
      var posted := mainQueue;
      ControllerModel.Controller(
        isFaceDetected,
        if videoWriter == null then None else Some(videoWriter.number),
        seq(|recs|, i requires 0 <= i < |recs| reads set r | r in recs => recs[i].Model()),
        seq(|arch|, k requires 0 <= k < |arch| => arch[k].number),
        seq(|posted|, k requires 0 <= k < |posted| => ControllerModel.Callback(posted[k].from.number, posted[k].note)))
    }

    /** Recorders are only ever added, and every one added was made by this call. */
    twostate predicate OnlyNewRecorders()
      reads this
    {
      old(recorders) <= recorders &&
      forall k :: |old(recorders)| <= k < |recorders| ==> fresh(recorders[k])
    }

    constructor ()
      ensures Linked() && Model() == ControllerModel.Initial && fresh(Repr())
    {
      isFaceDetected := false;
      videoWriter := null;
      archiving := [];
      mainQueue := [];
      recorders := [];
    }

    /** checkToRecord, run by every write of the face flag. */
    method CheckToRecord(orientation: Orientation.DeviceOrientation)
      requires Linked()
      modifies this, videoWriter
      ensures Linked() && OnlyNewRecorders()
      ensures videoWriter != old(videoWriter) ==> fresh(videoWriter)
      ensures Model() == ControllerModel.CheckToRecord(old(Model()), orientation)
      ensures old(videoWriter) != null ==> videoWriter == old(videoWriter)
      ensures !isFaceDetected ==> videoWriter == old(videoWriter) && recorders == old(recorders)
    {
      if isFaceDetected {
        if videoWriter == null {
          StartRecorder(orientation);
        }
      } else if videoWriter != null {
        SaveHeldRecorder();
      }
    }

    /** The recorder checkToRecord creates when a face shows and the slot is empty. */
    method StartRecorder(orientation: Orientation.DeviceOrientation)
      requires Linked() && videoWriter == null
      modifies this
      ensures Linked() && OnlyNewRecorders() && videoWriter != null && fresh(videoWriter)
      ensures isFaceDetected == old(isFaceDetected)
      ensures Model() == old(Model()).(slot := Some(|old(recorders)|),
                                       recorders := old(Model()).recorders + [RecorderModel.Create(orientation)])
    {
      ghost var before := Model();
      var r := new EventVideoRecorder(orientation, |recorders|);
      videoWriter := r;
      recorders := recorders + [r];
      assert Model().recorders == before.recorders + [RecorderModel.Create(orientation)];
    }

    /** The saveFile checkToRecord runs on the held recorder when the face is gone. */
    method SaveHeldRecorder()
      requires Linked() && videoWriter != null
      modifies this, videoWriter
      ensures Linked() && recorders == old(recorders) && videoWriter == old(videoWriter)
      ensures isFaceDetected == old(isFaceDetected)
      ensures var i := videoWriter.number;
              var saved := RecorderModel.Save(old(Model()).recorders[i]);
              Model() == ControllerModel.Schedule(old(Model()).(recorders := old(Model()).recorders[i := saved.recorder]),
                                                  i, saved.scheduled)
    {
      ghost var before := Model();
      var writer := videoWriter;
      ghost var i := writer.number;
      var scheduled := writer.SaveFile();
      if scheduled.NoDataFailure? {
        mainQueue := mainQueue + [PostedCallback(writer, RecorderModel.FailedToSaveVideo)];
      } else {
        archiving := archiving + [writer];
      }
      assert forall j :: 0 <= j < |recorders| && j != i ==> recorders[j] != writer;
      ghost var after := Model();
      assert after.recorders == before.recorders[i := writer.Model()];
      assert after == ControllerModel.Schedule(before.(recorders := after.recorders), i, scheduled);
    }

    /** A write of the face flag: its didSet runs checkToRecord. */
    method SetFaceDetected(b: bool, orientation: Orientation.DeviceOrientation)
      requires Linked()
      modifies this, videoWriter
      ensures Linked() && OnlyNewRecorders()
      ensures videoWriter != old(videoWriter) ==> fresh(videoWriter)
      ensures Model() == ControllerModel.SetFaceDetected(old(Model()), b, orientation)
      ensures old(videoWriter) != null ==> videoWriter == old(videoWriter)
      ensures !b ==> videoWriter == old(videoWriter) && recorders == old(recorders)
    {
      ghost var before := Model();
      isFaceDetected := b;
      assert Model() == before.(faceDetected := b);
      CheckToRecord(orientation);
    }

    /**
     * The face-detection callback: false for an empty list; otherwise
     * ScanObservations.
     */
    method DetectionCompleted(confidences: seq<real>, orientation: Orientation.DeviceOrientation)
      requires Linked()
      modifies this, videoWriter
      ensures Linked() && OnlyNewRecorders()
      ensures videoWriter != old(videoWriter) ==> fresh(videoWriter)
      ensures Model() == ControllerModel.DetectionCompleted(old(Model()), confidences, orientation)
    {
      if confidences == [] {
        ghost var start := Model();
        SetFaceDetected(false, orientation);
        ControllerModel.ApplyWritesCons(start, false, [], orientation);
        assert Detection.FlagWrites(confidences) == [false] + [];
      } else {
        ScanObservations(confidences, orientation);
      }
    }

    /**
     * The loop over a non-empty list of observations: a write of false per
     * observation until the first one above the threshold, for which it
     * writes true and stops.
     */
    method ScanObservations(confidences: seq<real>, orientation: Orientation.DeviceOrientation)
      requires Linked() && confidences != []
      modifies this, videoWriter
      ensures Linked() && OnlyNewRecorders()
      ensures videoWriter != old(videoWriter) ==> fresh(videoWriter)
      ensures Model() == ControllerModel.ApplyWrites(old(Model()), Detection.ScanWrites(confidences), orientation)
    {
      ghost var start := Model();
      var i := 0;
      while i < |confidences|
        invariant 0 <= i <= |confidences|
        invariant Linked() && recorders == old(recorders) && videoWriter == old(videoWriter)
        invariant ControllerModel.ApplyWrites(Model(), Detection.ScanWrites(confidences[i..]), orientation)
               == ControllerModel.ApplyWrites(start, Detection.ScanWrites(confidences), orientation)
      {
        Detection.ScanWritesFrom(confidences, i);
        if confidences[i] > Detection.FaceConfidenceThreshold {
          FaceFound(orientation);
          return;
        }
        ghost var before := Model();
        SetFaceDetected(false, orientation);
        ControllerModel.ApplyWritesCons(before, false, Detection.ScanWrites(confidences[i + 1..]), orientation);
        i := i + 1;
      }
    }

    /** The write of true for an observation above the threshold, which ends the scan. */
    method FaceFound(orientation: Orientation.DeviceOrientation)
      requires Linked()
      modifies this, videoWriter
      ensures Linked() && OnlyNewRecorders()
      ensures videoWriter != old(videoWriter) ==> fresh(videoWriter)
      ensures Model() == ControllerModel.ApplyWrites(old(Model()), [true], orientation)
    {
      ghost var before := Model();
      SetFaceDetected(true, orientation);
      ControllerModel.ApplyWritesCons(before, true, [], orientation);
    }

    /**
     * captureOutput for one frame: run detection on it, then hand the frame
     * to the recorder held after detection, if any. A frame without a pixel
     * buffer is dropped before either.
     */
    method CaptureOutput(hasPixelBuffer: bool, observations: Option<seq<real>>, at: int,
                         orientation: Orientation.DeviceOrientation, writerAccepts: bool)
      requires Linked()
      modifies this, videoWriter
      ensures Linked() && OnlyNewRecorders()
      ensures Model() == ControllerModel.CaptureOutput(old(Model()),
        ControllerModel.CapturedFrame(hasPixelBuffer, observations, at, orientation, writerAccepts))
    {
      if !hasPixelBuffer {
        return;
      }
      if observations.Some? {
        DetectionCompleted(observations.value, orientation);
      }
      ghost var detected := Model();
      if videoWriter != null {
        var writer := videoWriter;
        ghost var i := writer.number;
        var _ := writer.AppendSampleBuffer(at, writerAccepts);
        assert forall j :: 0 <= j < |recorders| && j != i ==> recorders[j] != writer;
        assert Model().recorders == detected.recorders[i := writer.Model()];
      }
    }

    /** eventVideoRecorderDidSavedVideo: the slot is emptied, whichever recorder sent it. */
    method RecorderDidSaveVideo(recorder: EventVideoRecorder)
      requires Linked()
      modifies this`videoWriter
      ensures videoWriter == null
      ensures Linked() && Model() == ControllerModel.React(old(Model()), RecorderModel.DidSaveVideo)
    {
      videoWriter := null;
    }

    /** eventVideoRecorderNeedsLibraryPermission: an alert is shown; the slot keeps its recorder. */
    method RecorderNeedsLibraryPermission(recorder: EventVideoRecorder)
      requires Linked()
      ensures videoWriter == old(videoWriter)
      ensures Linked() && Model() == ControllerModel.React(old(Model()), RecorderModel.NeedsLibraryPermission)
    {
    }

    /** eventVideoRecorderFailedToSavedVideo: the slot is emptied, whichever recorder sent it. */
    method RecorderFailedToSaveVideo(recorder: EventVideoRecorder)
      requires Linked()
      modifies this`videoWriter
      ensures videoWriter == null
      ensures Linked() && Model() == ControllerModel.React(old(Model()), RecorderModel.FailedToSaveVideo)
    {
      videoWriter := null;
    }

    /** The finish-and-archive chain archiving[k] ends and posts its one callback to the main queue. */
    method ArchiveFinished(k: nat, outcome: RecorderModel.LibraryOutcome)
      requires Linked() && k < |archiving|
      modifies this
      ensures Linked() && recorders == old(recorders)
      ensures Model() == ControllerModel.ArchiveFinished(old(Model()), k, outcome)
    {
      ghost var before := Model();
      var recorder := archiving[k];
      archiving := archiving[..k] + archiving[k + 1..];
      mainQueue := mainQueue + [PostedCallback(recorder, RecorderModel.ArchiveNotification(outcome))];
      ghost var after := Model();
      assert after.recorders == before.recorders;
      assert after.archiving == before.archiving[..k] + before.archiving[k + 1..];
      assert after.mainQueue == before.mainQueue + [ControllerModel.Callback(recorder.number, RecorderModel.ArchiveNotification(outcome))];
    }

    /** The main queue runs its oldest callback on the delegate. */
    method RunMainQueue()
      requires Linked() && mainQueue != []
      modifies this
      ensures Linked() && recorders == old(recorders)
      ensures Model() == ControllerModel.RunMainQueue(old(Model()))
    {
      var callback := mainQueue[0];
      mainQueue := mainQueue[1..];
      match callback.note
      case DidSaveVideo => RecorderDidSaveVideo(callback.from);
      case NeedsLibraryPermission => RecorderNeedsLibraryPermission(callback.from);
      case FailedToSaveVideo => RecorderFailedToSaveVideo(callback.from);
    }
  }
}
