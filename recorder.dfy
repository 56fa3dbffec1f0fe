/**
 * The event video recorder as an object: three flags that its methods
 * update in place, the rotation chosen when it is made, and the calls it
 * has made on its (opaque) asset writer.
 */
module Recorder {
  import opened Types
  import Orientation
  import RecorderModel

  class EventVideoRecorder {
    var startTime: Option<int>
    var hasData: bool
    var writingFinished: bool
    /** The rotation of the video track, sampled once from the device orientation at construction. */
    const rotation: int
    /** The calls made so far on the asset writer. */
    ghost var writerCalls: seq<RecorderModel.WriterCall>
    /** The creation index of this recorder; fixed at construction, it names the recorder in the controller's model. */
    ghost const number: nat

    /** The recorder's state as a value. */
    ghost function Model(): RecorderModel.Recorder
      reads this
    {
      RecorderModel.Recorder(startTime, hasData, writingFinished, rotation, writerCalls)
    }

    constructor (orientation: Orientation.DeviceOrientation, ghost number: nat)
      ensures Model() == RecorderModel.Create(orientation) && this.number == number
    {
      startTime := None;
      hasData := false;
      writingFinished := false;
      rotation := Orientation.VideoRotationDegrees(orientation);
      writerCalls := [];
      this.number := number;
    }

    /**
     * appendSampleBuffer. `writerAccepts` is what the pixel-buffer adaptor
     * answers to this append; the method returns it, or false once writing
     * is finished.
     */
    method AppendSampleBuffer(at: int, writerAccepts: bool) returns (ok: bool)
      modifies this
      ensures RecorderModel.AppendResult(Model(), ok) == RecorderModel.Append(old(Model()), at, writerAccepts)
    {
      if writingFinished {
        return false;
      }
      if startTime.None? {
        startTime := Some(at);
        hasData := true;
        writerCalls := writerCalls + [RecorderModel.StartWriting];
        writerCalls := writerCalls + [RecorderModel.StartSession(at)];
      }
      writerCalls := writerCalls + [RecorderModel.AppendFrame(at, writerAccepts)];
      ok := writerAccepts;
    }

    /**
     * saveFile. Returns what it set in motion: the failed callback when no
     * frame ever arrived, otherwise finishWriting followed by the photo
     * library's authorization and save.
     */
    method SaveFile() returns (scheduled: RecorderModel.Scheduled)
      modifies this
      ensures RecorderModel.SaveResult(Model(), scheduled) == RecorderModel.Save(old(Model()))
    {
      if !hasData {
        return RecorderModel.NoDataFailure;
      }
      startTime := None;
      writingFinished := true;
      writerCalls := writerCalls + [RecorderModel.FinishWriting];
      scheduled := RecorderModel.FinishAndArchive;
    }
  }
}
