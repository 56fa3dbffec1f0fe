/**
 * The two device-orientation lookups of the view controller: the EXIF
 * orientation handed to face detection with every frame, and the rotation
 * (in whole degrees) that a new recording bakes into its video track.
 */
module Orientation {
  import opened Types

  /** The device orientations the system reports. */
  datatype DeviceOrientation =
    | Unknown
    | Portrait
    | PortraitUpsideDown
    | LandscapeLeft
    | LandscapeRight
    | FaceUp
    | FaceDown

  /** The eight EXIF image orientations. */
  datatype ExifOrientation =
    | Up | UpMirrored | Down | DownMirrored | LeftMirrored | Right | RightMirrored | Left
  {
    /** The mirrored orientations: what a front-camera frame needs. */
    predicate IsMirrored() {
      UpMirrored? || DownMirrored? || LeftMirrored? || RightMirrored?
    }
  }

  /** The four orientations in which the device is held upright; the tables treat every other one as portrait. */
  predicate IsUpright(d: DeviceOrientation) {
    d.Portrait? || d.PortraitUpsideDown? || d.LandscapeLeft? || d.LandscapeRight?
  }

  /** EXIF orientation of a front-camera frame taken with the device held in orientation `d`. */
  function ExifOrientationFor(d: DeviceOrientation): (e: ExifOrientation)
    ensures e.IsMirrored()
  {
    match d
    case PortraitUpsideDown => RightMirrored
    case LandscapeLeft => DownMirrored
    case LandscapeRight => UpMirrored
    case _ => LeftMirrored
  }

  /** Inverse of the EXIF table on the upright orientations. */
  function UprightForExif(e: ExifOrientation): (d: Option<DeviceOrientation>)
    ensures d.Some? ==> IsUpright(d.value)
    ensures d.Some? <==> e.IsMirrored()
  {
    match e
    case RightMirrored => Some(PortraitUpsideDown)
    case DownMirrored => Some(LandscapeLeft)
    case UpMirrored => Some(LandscapeRight)
    case LeftMirrored => Some(Portrait)
    case _ => None
  }

  /** The EXIF table is one-to-one on the upright orientations and maps every other one as portrait. */
  lemma ExifRoundTrip(d: DeviceOrientation)
    ensures UprightForExif(ExifOrientationFor(d)) == Some(if IsUpright(d) then d else Portrait)
  {
  }

  /** Every mirrored orientation is the table's answer for exactly one upright orientation. */
  lemma ExifRoundTripBack(e: ExifOrientation)
    requires e.IsMirrored()
    ensures ExifOrientationFor(UprightForExif(e).value) == e
  {
  }

  /**
   * Rotation, in degrees, given to the video track of a recording started
   * while the device is in orientation `d`.
   */
  function VideoRotationDegrees(d: DeviceOrientation): (deg: int)
    ensures deg % 90 == 0 && -180 <= deg <= 90
  {
    match d
    case PortraitUpsideDown => -90
    case LandscapeLeft => -180
    case LandscapeRight => 0
    case _ => 90
  }

  /** Both tables read every orientation other than the four upright ones as portrait. */
  lemma NonUprightReadAsPortrait(d: DeviceOrientation)
    requires !IsUpright(d)
    ensures ExifOrientationFor(d) == ExifOrientationFor(Portrait)
    ensures VideoRotationDegrees(d) == VideoRotationDegrees(Portrait)
  {
  }

  /** The upright orientations in cyclic order: each is a quarter turn of the device from the one before. */
  function NextQuarterTurn(d: DeviceOrientation): (n: DeviceOrientation)
    requires IsUpright(d)
    ensures IsUpright(n) && n != d
  {
    match d
    case Portrait => LandscapeLeft
    case LandscapeLeft => PortraitUpsideDown
    case PortraitUpsideDown => LandscapeRight
    case LandscapeRight => Portrait
  }

  /** Normalised angle in [0, 360). */
  function Normalize(deg: int): (n: int)
    ensures 0 <= n < 360 && (n - deg) % 360 == 0
  {
    deg % 360
  }

  /**
   * Turning the device one step along the cycle portrait, landscape left,
   * upside down, landscape right advances the rotation by 90 degrees,
   * modulo a full turn.
   */
  lemma RotationFollowsQuarterTurns(d: DeviceOrientation)
    requires IsUpright(d)
    ensures Normalize(VideoRotationDegrees(NextQuarterTurn(d))) == Normalize(VideoRotationDegrees(d) + 90)
  {
  }

  /** Different upright orientations get rotations that differ as angles, not only as numbers. */
  lemma RotationsDistinct(d1: DeviceOrientation, d2: DeviceOrientation)
    requires IsUpright(d1) && IsUpright(d2) && d1 != d2
    ensures Normalize(VideoRotationDegrees(d1)) != Normalize(VideoRotationDegrees(d2))
  {
  }
}
