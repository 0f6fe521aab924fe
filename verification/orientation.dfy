/** The orientation drop-down and the display rotation.

    Exif 2.3 (CIPA DC-008), section 4.6.4 A, defines the Orientation tag:
    1 is upright, 3 is turned half way, 6 needs a quarter turn clockwise to
    be viewed upright and 8 a quarter turn counter-clockwise. The drop-down
    offers these four as "no rotation", "rotate left", "rotate right" and
    "invert", in that order. */
module Orientation {

  /** The codes written for entries 0..3 of the drop-down (orientation_map). */
  const OrientationMap: seq<int> := [1, 8, 6, 3]

  /** The four codes the drop-down can show. */
  predicate IsRecognised(code: int) {
    code == 1 || code == 8 || code == 6 || code == 3
  }

  /** exifToIndex: the drop-down entry shown for an orientation code; a code
      the drop-down does not offer shows entry 0, "no rotation". */
  function ExifToIndex(code: int): (i: nat)
    ensures i < |OrientationMap|
    ensures IsRecognised(code) ==> OrientationMap[i] == code
    ensures !IsRecognised(code) ==> i == 0
  {
    match code
    case 1 => 0
    case 8 => 1
    case 3 => 3
    case 6 => 2
    case _ => 0
  }

  /** The clockwise angle displayImage turns the picture by. */
  function DisplayAngle(code: int): (angle: int)
    ensures angle == 0 || angle == 90 || angle == 180 || angle == 270
    ensures angle != 0 <==> IsRecognised(code) && code != 1
  {
    match code
    case 8 => 270
    case 3 => 180
    case 6 => 90
    case _ => 0
  }

  /** The table lists four distinct codes, all of them recognised. */
  lemma OrientationMapCodes()
    ensures forall i :: 0 <= i < |OrientationMap| ==> IsRecognised(OrientationMap[i])
    ensures forall i, j :: 0 <= i < j < |OrientationMap| ==> OrientationMap[i] != OrientationMap[j]
  {
  }

  /** exifToIndex is a left inverse of the table: choosing entry i and
      showing the code it writes selects entry i again. */
  lemma ExifToIndexLeftInverse(i: nat)
    requires i < |OrientationMap|
    ensures ExifToIndex(OrientationMap[i]) == i
  {
  }

  /** Going from a code to its entry and back gives the code exactly when
      the code is one of the four; every other code comes back as 1. */
  lemma IndexRoundTrip(code: int)
    ensures OrientationMap[ExifToIndex(code)] == code <==> IsRecognised(code)
    ensures !IsRecognised(code) ==> OrientationMap[ExifToIndex(code)] == 1
  {
  }

  /** The entries rotate as their labels say: "no rotation" by 0 degrees,
      "rotate left" by 270 clockwise, "rotate right" by 90, "invert" by 180. */
  lemma AngleMatchesLabel()
    ensures DisplayAngle(OrientationMap[0]) == 0
    ensures DisplayAngle(OrientationMap[1]) == 270
    ensures DisplayAngle(OrientationMap[2]) == 90
    ensures DisplayAngle(OrientationMap[3]) == 180
  {
  }

  /** The picture is turned as the drop-down entry shown for its code says,
      for every code, recognised or not. */
  lemma AngleAgreesWithShownEntry(code: int)
    ensures DisplayAngle(code) == DisplayAngle(OrientationMap[ExifToIndex(code)])
  {
  }
}
