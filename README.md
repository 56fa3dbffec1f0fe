# AlfredQuiz face-triggered recorder, modelled in Dafny

AlfredQuiz's view controller watches the front camera and records while a
face is in view. Every frame goes to a face-detection request. The
request's callback reduces the face observations to one flag,
`isFaceDetected`, writing it once per observation up to the first one
above 0.7 (once for an empty list), and every write runs
`checkToRecord` through the flag's `didSet`:

- a true write with an empty `videoWriter` slot creates an
  `EventVideoRecorder`;
- a false write calls `saveFile` on the held recorder.

Frames are then forwarded to the held recorder. The recorder opens its
asset writer lazily on the first frame and refuses frames once writing has
finished. On `saveFile` it either posts the failed callback to the main queue (no
data) or
finishes the file and hands it to the photo library. The library's outcome
comes back as one of three delegate callbacks: saved, failed, or
needs-permission. The saved and failed callbacks empty the slot; the
permission callback only shows an alert. Two lookup tables map the device
orientation to the EXIF orientation of a frame and to the rotation of a
new recording's video track.

The project has two layers.

- Values (`Orientation`, `Detection`, `RecorderModel`, `ControllerModel`).
  Every operation is a function on datatypes. The controller is a state
  machine over: the face flag, the slot (a recorder number or none), every
  recorder created so far, the finish-and-archive chains still running
  (`archiving`), and the callbacks waiting on the main queue (`mainQueue`).
  An event is a captured frame, the end of one archive chain (with the
  library's outcome), or the main queue delivering its oldest callback.
  `ControllerProperties` proves what whole runs of events do.
- Objects (`Recorder.EventVideoRecorder`, `Controller.ViewController`).
  Classes with the source's fields, updated in place. Every method is
  proved to change the object's `Model()` exactly as the matching function
  of the value layer does; the three delegate methods as
  `ControllerModel.React` does for their callback.

Abstractions:

- The asset writer is a ghost log of the calls made on it: start writing,
  start session, append, finish.
- What the writer answers to an append, the device orientation, and the
  photo library's outcome are parameters.
- A confidence is a `real`, compared with 0.7.
- A rotation is an integer number of degrees.
- The finish, authorization and library-save chain started by a `saveFile`
  is an entry of `archiving`. Chains end in any order. Callbacks then run
  from the main queue one at a time, oldest first.

The model follows the code as written. In particular:

- `saveFile` has no `writingFinished` guard, so every false write with a
  recorder held calls `finishWriting` again and starts one more archive
  chain (`ControllerProperties.DetectionWithHeldRecorder`). One recording
  can therefore produce several callbacks. This assumes that a second
  `finishWriting` runs its completion handler again; see the line on the
  writer's reaction to a second `finishWriting` under "Left out".
- `checkToRecord` runs on every write of the flag, so a recorder is
  created on every true write that finds the slot empty, whatever the
  flag was before.
- The slot is emptied only when the saved or failed callback runs. The
  permission callback leaves the finished recorder in the slot. From then
  on, frames whose detection writes no false (no pixel buffer, no
  detection results because `perform` threw or the results had the wrong
  type, or a first observation above 0.7) are refused and create no
  recorder (`ControllerProperties.FinishedRecorderBlocksSlot`). Every other
  frame calls `saveFile` again. That includes a frame with an empty result
  list, the usual frame once the face is gone
  (`ControllerProperties.NoFaceFrameSavesAgain`), and a frame whose first
  observation is not above 0.7, even if a later one qualifies
  (`ControllerProperties.DetectionWithHeldRecorder`). The saved or failed
  callback of that new chain empties the slot.
- The delegate does not check which recorder sent a callback. A stale
  callback from a recorder saved twice can empty the slot of the next
  recorder. That recorder then stays half-written forever
  (`ControllerProperties.StaleCallbackStrandsRecorder`). This too rests on
  the second `finishWriting` running its completion handler (see "Left
  out").
- The no-data path of `saveFile` posts the *failed* callback. The running
  controller never takes that path, because a new recorder gets the frame
  that created it (`ControllerProperties.NoDataBranchNeverTaken`).

## Model

| member | source | states |
|---|---|---|
| Orientation.ExifOrientationFor | AlfredQuiz/ViewController.swift:108-123 | every device orientation maps to a mirrored EXIF orientation (front camera) |
| Orientation.UprightForExif | AlfredQuiz/ViewController.swift:108-123 | the inverse table: defined exactly on the mirrored orientations, always giving an upright device orientation |
| Orientation.ExifRoundTrip | AlfredQuiz/ViewController.swift:110-122 | the four upright orientations map to four distinct EXIF orientations; every other one (unknown, face up/down) maps as portrait |
| Orientation.ExifRoundTripBack | AlfredQuiz/ViewController.swift:110-122 | every mirrored EXIF orientation is the answer for exactly one upright orientation |
| Orientation.VideoRotationDegrees | AlfredQuiz/ViewController.swift:293-306 | the rotation is a multiple of 90 degrees between -180 and 90 |
| Orientation.NonUprightReadAsPortrait | AlfredQuiz/ViewController.swift:303-305 | both tables treat every non-upright orientation as portrait (leftMirrored, +90 degrees) |
| Orientation.NextQuarterTurn | AlfredQuiz/ViewController.swift:294-305 | the cycle of upright orientations moves to a different upright orientation |
| Orientation.Normalize | AlfredQuiz/ViewController.swift:293-306 | an angle normalised into [0, 360), congruent to the input modulo 360 |
| Orientation.RotationFollowsQuarterTurns | AlfredQuiz/ViewController.swift:294-305 | one quarter turn along portrait, landscape left, upside down, landscape right adds 90 degrees to the video rotation, modulo 360 |
| Orientation.RotationsDistinct | AlfredQuiz/ViewController.swift:294-305 | different upright orientations get different rotations as angles |
| Detection.FirstQualifying | AlfredQuiz/ViewController.swift:93-100 | index of the first observation with confidence above 0.7, all earlier ones below; it is in range exactly when some observation qualifies |
| Detection.ScanWritesShape | AlfredQuiz/ViewController.swift:93-100 | the loop writes false for each observation before the first qualifying one, then true once and stops; with none qualifying, false for every observation |
| Detection.FlagWritesShape | AlfredQuiz/ViewController.swift:89-100 | a callback writes FalseWriteCount falses (one for an empty list), then one true exactly when some observation qualifies |
| Detection.FinalFlag | AlfredQuiz/ViewController.swift:89-100 | the flag left behind is false for an empty list and otherwise true exactly when some confidence is above 0.7; the scan stops at the first one |
| Detection.ScanWrites | AlfredQuiz/ViewController.swift:93-100 | the k-th write of the loop says whether observation k qualifies; only the last write can be true, and the loop stops before the end of the list only on a true |
| Detection.FlagWrites | AlfredQuiz/ViewController.swift:89-100 | a callback writes at least once; every write but the last is false, and a true last write names a qualifying observation |
| Detection.ScanWritesFrom | AlfredQuiz/ViewController.swift:93-99 | one iteration of the loop from position i |
| RecorderModel.Create | AlfredQuiz/ViewController.swift:220-239 | a new recorder has no data, is not finished, has made no writer call, and its rotation is the table's value for the orientation at construction |
| RecorderModel.Append | AlfredQuiz/ViewController.swift:242-253 | after finishing: false, no change, no writer call; first frame: start time and hasData set, startWriting and startSession at its time, then the append; later frames: only the append; the writer's answer is returned; the invariant is kept |
| RecorderModel.Save | AlfredQuiz/ViewController.swift:255-266 | without data: nothing changes and the failed callback is scheduled; with data: finished, start time cleared, one more finishWriting and an archive chain, on every call |
| RecorderModel.ArchiveNotification | AlfredQuiz/ViewController.swift:266-290 | authorized without error gives saved, authorized with an error gives failed, not authorized gives needs-permission, each in both directions |
| RecorderModel.RunPreservesValid | AlfredQuiz/ViewController.swift:241-291 | any sequence of appends and saves keeps the writer-log invariant and the rotation fixed at construction |
| RecorderModel.FinishedRecorderOnlyFinishes | AlfredQuiz/ViewController.swift:243-266 | once finished, appends change nothing and each save only adds another finishWriting |
| RecorderModel.WriterStartedOnce | AlfredQuiz/ViewController.swift:245-250 | the writer is started exactly once if a frame ever arrived and never otherwise; a session is opened once at the first frame's time and at no other time, and never without a frame |
| Recorder.EventVideoRecorder.constructor | AlfredQuiz/ViewController.swift:220-239 | the new object's state is RecorderModel.Create of the orientation at construction |
| Recorder.EventVideoRecorder.AppendSampleBuffer | AlfredQuiz/ViewController.swift:242-253 | the fields and the answer are what RecorderModel.Append gives for the old state |
| Recorder.EventVideoRecorder.SaveFile | AlfredQuiz/ViewController.swift:255-291 | the fields and what is scheduled are what RecorderModel.Save gives for the old state |
| ControllerModel.Schedule | AlfredQuiz/ViewController.swift:256-266 | what a saveFile sets in motion adds exactly one entry and changes nothing else: without data, a failed callback for that recorder posted to the main queue (257-259); with data, an archive chain for that recorder (266) |
| ControllerModel.CheckToRecord | AlfredQuiz/ViewController.swift:125-138 | a recorder is created only on a true flag with the slot empty, and that new recorder is the one held; a held recorder stays held; a false flag saves the held recorder and schedules what the save set in motion; no other recorder changes; the invariant is kept |
| ControllerModel.SetFaceDetected | AlfredQuiz/ViewController.swift:32-36 | a write sets the flag and runs checkToRecord, keeping the invariant |
| ControllerModel.ApplyWrites | AlfredQuiz/ViewController.swift:89-100 | a sequence of flag writes keeps the invariant and never removes a recorder |
| ControllerModel.ApplyWritesCons | AlfredQuiz/ViewController.swift:32-36 | the first write of a sequence runs its didSet before the rest |
| ControllerModel.DetectionCompleted | AlfredQuiz/ViewController.swift:80-101 | one detection callback keeps the invariant and never removes a recorder |
| ControllerModel.ForwardFrame | AlfredQuiz/ViewController.swift:177-179 | with the slot empty nothing changes; otherwise only the held recorder takes the frame, and afterwards it has data |
| ControllerModel.CaptureOutput | AlfredQuiz/ViewController.swift:149-181 | a frame keeps the invariant and the settled property (a held recorder has received a frame) |
| ControllerModel.React | AlfredQuiz/ViewController.swift:185-198 | saved and failed empty the slot; needs-permission changes nothing |
| ControllerModel.ArchiveFinished | AlfredQuiz/ViewController.swift:266-290 | the end of one archive chain removes it and posts exactly one callback, for that recorder, chosen by the outcome |
| ControllerModel.RunMainQueue | AlfredQuiz/ViewController.swift:184-198 | the oldest callback is delivered: the slot is emptied unless it asks for permission; nothing else but the queue changes |
| ControllerModel.Step | AlfredQuiz/ViewController.swift:142-198 | every event keeps the invariant and never removes a recorder |
| ControllerModel.Run | AlfredQuiz/ViewController.swift:142-198 | every run of events keeps the invariant and never removes a recorder |
| ControllerProperties.ApplyWritesConcat | AlfredQuiz/ViewController.swift:32-36 | writes split anywhere: the second part starts where the first ended |
| ControllerProperties.FalseWriteWithHeldRecorder | AlfredQuiz/ViewController.swift:132-136 | a false write with a recorder with data held saves it and starts one archive chain, nothing else |
| ControllerProperties.FalseWriteWithoutData | AlfredQuiz/ViewController.swift:256-261 | a false write with a held recorder without data posts exactly one failed callback, starts no chain, leaves the recorder as it is; delivered, it empties the slot |
| ControllerProperties.SavedTimesShift | AlfredQuiz/ViewController.swift:255-266 | n saves are one save followed by n - 1 more |
| ControllerProperties.AfterFalseWritesShift | AlfredQuiz/ViewController.swift:132-136 | n false writes are one false write followed by n - 1 more |
| ControllerProperties.FalseWritesWithHeldRecorder | AlfredQuiz/ViewController.swift:132-136 | n false writes with a recorder held call saveFile n times on it: n finishWriting calls and n archive chains |
| ControllerProperties.FalseWritesWithEmptySlot | AlfredQuiz/ViewController.swift:133-135 | false writes with the slot empty change only the flag |
| ControllerProperties.DetectionWithHeldRecorder | AlfredQuiz/ViewController.swift:89-100 | one callback with a recorder held: the flag becomes "some observation qualifies", the recorder is saved once per false write, with one archive chain each; no recorder is created and nothing is posted |
| ControllerProperties.DetectionWithEmptySlot | AlfredQuiz/ViewController.swift:89-100 | one callback with the slot empty creates and holds exactly one recorder exactly when some observation qualifies; otherwise only the flag changes |
| ControllerProperties.NoDataBranchNeverTaken | AlfredQuiz/ViewController.swift:149-181 | in a settled controller a frame posts no callback (saveFile always finds data) and the controller stays settled |
| ControllerProperties.StepPreservesValid | AlfredQuiz/ViewController.swift:142-198 | every event keeps the invariant and the settled property |
| ControllerProperties.RunPreservesValid | AlfredQuiz/ViewController.swift:142-198 | every run of events keeps them |
| ControllerProperties.FinishedRecorderBlocksSlot | AlfredQuiz/ViewController.swift:189-194 | with a finished recorder left in the slot, frames whose detection writes no false (no buffer, no detection results because `perform` threw or the results had the wrong type, or a first observation above 0.7) change no recorder, create none, start no chain and post nothing |
| ControllerProperties.NoFaceFrameSavesAgain | AlfredQuiz/ViewController.swift:89-91 | with a finished recorder left in the slot, a frame with an empty result list writes false, so the recorder stays held, gets one more finishWriting and starts one more archive chain |
| ControllerProperties.ArchiveThenDeliver | AlfredQuiz/ViewController.swift:185-198 | an archive chain ending and its callback being delivered empties the slot unless the library refused permission |
| ControllerProperties.ApplyWritesKeepsReleased | AlfredQuiz/ViewController.swift:125-138 | flag writes never change a recorder outside the slot and never put it back |
| ControllerProperties.StepKeepsReleased | AlfredQuiz/ViewController.swift:142-198 | no event changes a recorder outside the slot or puts it back |
| ControllerProperties.ReleasedRecorderFrozen | AlfredQuiz/ViewController.swift:142-198 | once a recorder leaves the slot, no run of events ever changes it again |
| ControllerProperties.RunConcat | AlfredQuiz/ViewController.swift:142-198 | runs split anywhere: the second part starts where the first ended |
| ControllerProperties.FaceAppears | AlfredQuiz/ViewController.swift:126-131 | a qualifying observation with the slot empty creates a recorder, which takes the frame |
| ControllerProperties.FaceLostTwice | AlfredQuiz/ViewController.swift:93-100 | two observations below the threshold with a recorder held save it twice, with two archive chains |
| ControllerProperties.StartThenSaveTwiceLeaves | AlfredQuiz/ViewController.swift:89-136 | a face appearing and then being lost over two observations leaves recorder 0 held with two chains running |
| ControllerProperties.FirstCallbackLeaves | AlfredQuiz/ViewController.swift:185-187 | the first chain's saved callback empties the slot while the second chain still runs |
| ControllerProperties.RestartThenStaleCallbackLeaves | AlfredQuiz/ViewController.swift:185-187 | a new recorder started after that is released by the old recorder's second callback, with data and unfinished |
| ControllerProperties.StaleCallbackStrandsRecorder | AlfredQuiz/ViewController.swift:185-198 | a reachable run ends with the slot empty, nothing in flight, and recorder 1 holding data it never finishes, whatever events follow |
| Controller.ViewController.constructor | AlfredQuiz/ViewController.swift:26-36 | the new controller is ControllerModel.Initial: no face, empty slot, nothing in flight |
| Controller.ViewController.CheckToRecord | AlfredQuiz/ViewController.swift:125-138 | the object's new state is ControllerModel.CheckToRecord of the old one; a recorder it adds is a fresh object |
| Controller.ViewController.StartRecorder | AlfredQuiz/ViewController.swift:127-131 | a fresh recorder goes into the empty slot and is added as the next recorder |
| Controller.ViewController.SaveHeldRecorder | AlfredQuiz/ViewController.swift:133-136 | the held recorder is saved, and what the save set in motion is queued, as in the value model |
| Controller.ViewController.SetFaceDetected | AlfredQuiz/ViewController.swift:32-36 | the new state is ControllerModel.SetFaceDetected of the old one; a false write neither adds a recorder nor changes the slot |
| Controller.ViewController.DetectionCompleted | AlfredQuiz/ViewController.swift:80-101 | the new state is ControllerModel.DetectionCompleted of the old one |
| Controller.ViewController.ScanObservations | AlfredQuiz/ViewController.swift:93-100 | the loop with its early return does the writes Detection.ScanWrites lists, in order |
| Controller.ViewController.FaceFound | AlfredQuiz/ViewController.swift:94-96 | the write of true that ends the loop |
| Controller.ViewController.CaptureOutput | AlfredQuiz/ViewController.swift:149-181 | the new state is ControllerModel.CaptureOutput of the old one for the frame |
| Controller.ViewController.RecorderDidSaveVideo | AlfredQuiz/ViewController.swift:185-187 | the slot is emptied; the new state is ControllerModel.React of the old one for the saved callback |
| Controller.ViewController.RecorderNeedsLibraryPermission | AlfredQuiz/ViewController.swift:189-194 | the slot keeps its recorder; the state is ControllerModel.React of the old one for the permission callback, so nothing changes |
| Controller.ViewController.RecorderFailedToSaveVideo | AlfredQuiz/ViewController.swift:196-198 | the slot is emptied; the new state is ControllerModel.React of the old one for the failed callback |
| Controller.ViewController.ArchiveFinished | AlfredQuiz/ViewController.swift:266-290 | the new state is ControllerModel.ArchiveFinished of the old one |
| Controller.ViewController.RunMainQueue | AlfredQuiz/ViewController.swift:184-198 | the new state is ControllerModel.RunMainQueue of the old one |

## Left out

- Capture session, camera discovery, preview wiring and the running of the Vision request (AlfredQuiz/ViewController.swift:15-76, 150-175). These are AVFoundation and Vision I/O. A frame comes to the model as "pixel buffer or none" plus the list of observation confidences.
- The detection callback's `error` parameter is ignored by the source. When `perform` throws or the results have the wrong type, the callback makes no write, but the frame is still forwarded; the model gives both as `observations == None`.
- A missing `detectionRequest` (AlfredQuiz/ViewController.swift:169-171) returns from `captureOutput` before the frame is forwarded, so nothing happens. The model gives this frame as `hasPixelBuffer == false`, the event that changes nothing.
- The asset writer, the pixel-buffer adaptor and the encoder settings are foreign calls. The writer is a log of calls, and the adaptor's append answer is an input.
- The writer's reaction to a second `finishWriting` on a writer that has already completed is not modelled. The model logs the call and assumes that its completion handler runs again and starts another archive chain.
- Logging (`print` at AlfredQuiz/ViewController.swift:160, 273 and 278; `NSLog` at 174) is output only and changes no state.
- `PHPhotoLibrary` authorization and `performChanges` are an external service. Their outcome is a three-way choice made when a chain ends.
- Threads and `DispatchQueue` hops. The model delivers frames, chain ends and main-queue callbacks one at a time and in any interleaving. It does not model the data race between main-queue callbacks and the capture queue in the source.
- Confidence: the source compares a 32-bit float with 0.7. The model compares a real, so rounding at the threshold is not captured.
- `CMTime` is modelled as an integer. Timestamps are only compared for equality; their timescale and validity flags are not modelled.
- The `CGAffineTransform` is given as an angle in whole degrees, not as a matrix.
- The temporary file path and its removal (AlfredQuiz/ViewController.swift:229-232) are filesystem I/O.
- The unused `eventVideoTimeLimit` and the commented-out front-camera alternatives (AlfredQuiz/ViewController.swift:299, 302).
- The alert shown on the permission callback is UI. Only the fact that the slot is kept is modelled.
- The delegate is a weak reference set at creation. The model assumes the controller is alive and always receives the callbacks.
- `exifOrientationForCurrentDeviceOrientation` and the read of `UIDevice.current.orientation` in `getVideoTransform` are modelled as the orientation passed in as a parameter.
- AlfredQuiz/PreviewView.swift is not part of this model: it is a UIKit layer override with no logic.
