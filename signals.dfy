/**
 * The per-sample classifiers the monitor consults: the head-pose gaze check on face-mesh
 * landmarks, the drowsiness and background-voice thresholds, and the mapping from the
 * object detector's classes to event labels.
 */
module Signals {

  /** The labels the monitor flags. */
  const NO_FACE_LABEL: string := "NO_FACE_DETECTED (10s)"
  const MULTIPLE_FACES_LABEL: string := "MULTIPLE_FACES_DETECTED"
  const LOOKING_AWAY_LABEL: string := "LOOKING_AWAY (5s)"
  const DROWSINESS_LABEL: string := "DROWSINESS_DETECTED (3s)"
  const BACKGROUND_VOICE_LABEL: string := "BACKGROUND_VOICE (3s)"
  const PHONE_LABEL: string := "PHONE_DETECTED"
  const BOOK_LABEL: string := "BOOK_DETECTED"
  const EXTRA_DEVICE_LABEL: string := "EXTRA_DEVICE_DETECTED"

  /** A face-mesh landmark; only the horizontal coordinate matters to the gaze check. */
  datatype Point = Point(x: real, y: real, z: real)

  /** One face's landmarks by index; a missing key is a missing (undefined or null) landmark. */
  type Landmarks = map<nat, Point>

  const LEFT_EAR: nat := 234
  const RIGHT_EAR: nat := 454
  const NOSE: nat := 1

  /** `n` lies between 30% and 70% of `span` (for either sign of `span`). */
  ghost predicate InMiddleBand(n: real, span: real)
  {
    (3.0 * span <= 10.0 * n <= 7.0 * span) || (7.0 * span <= 10.0 * n <= 3.0 * span)
  }

  /** Comparing the ratio `n / span` with 0.3 and 0.7 is comparing `n` with the band. */
  lemma RatioOutsideBand(n: real, span: real)
    requires span != 0.0
    ensures (n / span < 0.3 || n / span > 0.7) <==> !InMiddleBand(n, span)
  {
  }

  /**
   * `checkGaze`: the pose ratio is the nose's offset from the left ear over the ear-to-ear
   * span, and the candidate is looking away when it is below 0.3 or above 0.7. A missing
   * landmark means "not away". With a zero span the division gives an infinity (away) or,
   * for a zero offset, NaN (no comparison holds: not away).
   */
  function CheckGaze(lm: Landmarks): (away: bool)
    ensures away ==> LEFT_EAR in lm && RIGHT_EAR in lm && NOSE in lm
  {
    if LEFT_EAR !in lm || RIGHT_EAR !in lm || NOSE !in lm then false
    else
      var faceSpan := lm[RIGHT_EAR].x - lm[LEFT_EAR].x;
      var noseToLeft := lm[NOSE].x - lm[LEFT_EAR].x;
      if faceSpan == 0.0 then noseToLeft != 0.0
      else
        var poseRatio := noseToLeft / faceSpan;
        poseRatio < 0.3 || poseRatio > 0.7
  }

  /**
   * The gaze check never reports "away" without all three landmarks, and with them reports
   * it exactly when the nose lies outside the middle 30%–70% band of the ear-to-ear span.
   */
  lemma GazeAwayOutsideBand(lm: Landmarks)
    ensures LEFT_EAR !in lm || RIGHT_EAR !in lm || NOSE !in lm ==> !CheckGaze(lm)
    ensures LEFT_EAR in lm && RIGHT_EAR in lm && NOSE in lm ==>
      (CheckGaze(lm) <==> !InMiddleBand(lm[NOSE].x - lm[LEFT_EAR].x, lm[RIGHT_EAR].x - lm[LEFT_EAR].x))
  {
    if LEFT_EAR in lm && RIGHT_EAR in lm && NOSE in lm {
      var faceSpan := lm[RIGHT_EAR].x - lm[LEFT_EAR].x;
      if faceSpan != 0.0 {
        RatioOutsideBand(lm[NOSE].x - lm[LEFT_EAR].x, faceSpan);
      }
    }
  }

  /** The eye-aspect ratio below which a sample counts as drowsy. */
  const EAR_THRESHOLD: real := 0.2

  predicate Drowsy(ear: real): (drowsy: bool)
    ensures ear <= 0.0 ==> drowsy
    ensures drowsy ==> ear < EAR_THRESHOLD
  {
    ear < EAR_THRESHOLD
  }

  /** One frequency bin of the audio analyser (a `Uint8Array` entry). */
  type Byte = x: int | 0 <= x < 256

  function Sum(bins: seq<Byte>): nat
  {
    if |bins| == 0 then 0 else Sum(bins[..|bins| - 1]) + bins[|bins| - 1]
  }

  /**
   * Background voice: the average bin level is above 30. An empty array averages to NaN,
   * which is above nothing.
   */
  predicate Loud(bins: seq<Byte>): (loud: bool)
    ensures loud ==> |bins| > 0
  {
    |bins| > 0 && (Sum(bins) as real) / (|bins| as real) > 30.0
  }

  /** Over a positive count, an average above 30 is a total above 30 per item. */
  lemma AverageAbove(s: real, n: real)
    requires n > 0.0
    ensures s / n > 30.0 <==> s > 30.0 * n
  {
  }

  /** Loudness without division: the bins add up to more than 30 per bin. */
  lemma LoudIff(bins: seq<Byte>)
    ensures Loud(bins) <==> |bins| > 0 && Sum(bins) > 30 * |bins|
  {
    if |bins| > 0 {
      AverageAbove(Sum(bins) as real, |bins| as real);
      assert (30 * |bins|) as real == 30.0 * (|bins| as real);
    }
  }

  /** Bins that are all at most 30 add up to at most 30 per bin. */
  lemma {:induction false} QuietBinsBound(bins: seq<Byte>)
    requires forall k :: 0 <= k < |bins| ==> bins[k] <= 30
    ensures Sum(bins) <= 30 * |bins|
  {
    if |bins| > 0 {
      QuietBinsBound(bins[..|bins| - 1]);
    }
  }

  /** A loud sample has at least one bin above the threshold. */
  lemma LoudNeedsALoudBin(bins: seq<Byte>)
    requires Loud(bins)
    ensures exists k :: 0 <= k < |bins| && bins[k] > 30
  {
    LoudIff(bins);
    if forall k :: 0 <= k < |bins| ==> bins[k] <= 30 {
      QuietBinsBound(bins);
    }
  }

  /**
   * `handleObjectDetections`: one label per watched category present among the detected
   * classes, in the order phone, book, extra device; laptop and tv share one label.
   */
  function DetectionEvents(classes: seq<string>): (labels: seq<string>)
    ensures PHONE_LABEL in labels <==> "cell phone" in classes
    ensures BOOK_LABEL in labels <==> "book" in classes
    ensures EXTRA_DEVICE_LABEL in labels <==> "laptop" in classes || "tv" in classes
    ensures forall k :: 0 <= k < |labels| ==> labels[k] in {PHONE_LABEL, BOOK_LABEL, EXTRA_DEVICE_LABEL}
    ensures forall i, j :: 0 <= i < j < |labels| ==> labels[i] != labels[j]
  {
    (if "cell phone" in classes then [PHONE_LABEL] else []) +
    (if "book" in classes then [BOOK_LABEL] else []) +
    (if "laptop" in classes || "tv" in classes then [EXTRA_DEVICE_LABEL] else [])
  }
}
