/**
 * The face-detection callback's reduction of a list of face observations to
 * the values it writes, one after another, into the face flag.
 * A confidence is a real number; the source compares a 32-bit float.
 */
module Detection {
  import opened Types

  /** An observation counts as a face when its confidence is above this. */
  const FaceConfidenceThreshold: real := 0.7

  predicate Qualifies(confidence: real) {
    confidence > FaceConfidenceThreshold
  }

  predicate AnyQualifies(confidences: seq<real>) {
    exists i :: 0 <= i < |confidences| && Qualifies(confidences[i])
  }

  /** Index of the first qualifying observation, or the length when there is none. */
  function FirstQualifying(confidences: seq<real>): (k: nat)
    ensures k <= |confidences|
    ensures forall j :: 0 <= j < k ==> !Qualifies(confidences[j])
    ensures k < |confidences| ==> Qualifies(confidences[k])
    ensures k < |confidences| <==> AnyQualifies(confidences)
  {
    if confidences == [] then 0
    else if Qualifies(confidences[0]) then 0
    else 1 + FirstQualifying(confidences[1..])
  }

  /**
   * The writes of the loop over a non-empty list: false for each observation
   * that does not qualify, then true for the first one that does, and no
   * further writes after it.
   */
  function ScanWrites(confidences: seq<real>): (w: seq<bool>)
    ensures |w| <= |confidences|
    ensures forall k :: 0 <= k < |w| ==> (w[k] <==> Qualifies(confidences[k]))
    ensures forall k :: 0 <= k < |w| - 1 ==> !w[k]
    ensures |w| < |confidences| ==> w != [] && w[|w| - 1]
  {
    if confidences == [] then []
    else if Qualifies(confidences[0]) then [true]
    else [false] + ScanWrites(confidences[1..])
  }

  /** All writes of one detection callback; an empty list writes false once. */
  function FlagWrites(confidences: seq<real>): (w: seq<bool>)
    ensures w != []
    ensures forall k :: 0 <= k < |w| - 1 ==> !w[k]
    ensures w[|w| - 1] ==> |w| <= |confidences| && Qualifies(confidences[|w| - 1])
  {
    if confidences == [] then [false] else ScanWrites(confidences)
  }

  /** How many times one callback writes false. */
  function FalseWriteCount(confidences: seq<real>): (n: nat)
  {
    if confidences == [] then 1 else FirstQualifying(confidences)
  }

  /** The scan writes false up to the first qualifying observation, then true, and stops. */
  lemma {:induction false} ScanWritesShape(confidences: seq<real>)
    ensures ScanWrites(confidences)
         == Repeat(false, FirstQualifying(confidences))
          + (if AnyQualifies(confidences) then [true] else [])
  {
    if confidences != [] && !Qualifies(confidences[0]) {
      var rest := confidences[1..];
      ScanWritesShape(rest);
      assert AnyQualifies(rest) <==> AnyQualifies(confidences) by {
        if AnyQualifies(confidences) {
          var i :| 0 <= i < |confidences| && Qualifies(confidences[i]);
          assert rest[i - 1] == confidences[i];
        }
        if AnyQualifies(rest) {
          var i :| 0 <= i < |rest| && Qualifies(rest[i]);
          assert confidences[i + 1] == rest[i];
        }
      }
    }
  }

  /**
   * The writes of one callback: exactly FalseWriteCount(..) falses, followed
   * by one true exactly when some observation qualifies.
   */
  lemma FlagWritesShape(confidences: seq<real>)
    ensures FlagWrites(confidences)
         == Repeat(false, FalseWriteCount(confidences))
          + (if AnyQualifies(confidences) then [true] else [])
  {
    if confidences != [] {
      ScanWritesShape(confidences);
    }
  }

  /**
   * The flag the callback leaves behind: false for an empty list, otherwise
   * true exactly when some observation has confidence above the threshold;
   * and the scan stops at the first such observation.
   */
  lemma FinalFlag(confidences: seq<real>)
    ensures |FlagWrites(confidences)| >= 1
    ensures FlagWrites(confidences)[|FlagWrites(confidences)| - 1] == AnyQualifies(confidences)
    ensures confidences == [] ==> FlagWrites(confidences) == [false]
    ensures AnyQualifies(confidences) ==> |FlagWrites(confidences)| == FirstQualifying(confidences) + 1
    ensures confidences != [] && !AnyQualifies(confidences) ==> |FlagWrites(confidences)| == |confidences|
  {
    FlagWritesShape(confidences);
    if confidences != [] && !AnyQualifies(confidences) {
      assert FalseWriteCount(confidences) > 0;
    }
  }

  /** One step of the scan from position `i`. */
  lemma ScanWritesFrom(confidences: seq<real>, i: nat)
    requires i < |confidences|
    ensures ScanWrites(confidences[i..])
         == if Qualifies(confidences[i]) then [true] else [false] + ScanWrites(confidences[i + 1..])
  {
    assert confidences[i..][1..] == confidences[i + 1..];
  }
}
