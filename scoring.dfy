/**
 * The integrity report of the interview detail route: the penalty table, the fold of the
 * ordered log list into a score and a deduction list, the focus-lost count and the duration.
 */
module Scoring {
  import opened Common
  import opened Text
  import opened Signals

  /** The markers the detail route searches event types for. */
  const PHONE: string := "PHONE_DETECTED"
  const BOOK: string := "BOOK_DETECTED"
  const LOOKING_AWAY: string := "LOOKING_AWAY"
  const NO_FACE_DETECTED: string := NO_FACE + "_DETECTED"
  const MULTIPLE_FACES: string := "MULTIPLE_FACES_DETECTED"
  const DROWSINESS: string := "DROWSINESS_DETECTED"
  const BACKGROUND_VOICE: string := "BACKGROUND_VOICE"
  const EXTRA_DEVICE: string := "EXTRA_DEVICE_DETECTED"
  /** The shorter marker the focus-lost filter looks for. */
  const NO_FACE: string := "NO_FACE"

  /** The score every interview starts from. */
  const FullScore: int := 100

  /** One line of the breakdown: the log's event type and its (negative) point value. */
  datatype Deduction = Deduction(event: string, points: int)

  /**
   * The points one log costs: the first marker of the chain that the event type contains
   * decides, so a label is charged once even if it holds several markers.
   */
  function Penalty(eventType: string): (points: nat)
    ensures points in {0, 2, 3, 5, 7, 8, 10}
    ensures Contains(eventType, PHONE) ==> points == 7
    ensures points == 0 <==>
      !Contains(eventType, PHONE) && !Contains(eventType, BOOK) &&
      !Contains(eventType, LOOKING_AWAY) && !Contains(eventType, NO_FACE_DETECTED) &&
      !Contains(eventType, MULTIPLE_FACES) && !Contains(eventType, DROWSINESS) &&
      !Contains(eventType, BACKGROUND_VOICE) && !Contains(eventType, EXTRA_DEVICE)
  {
    if Contains(eventType, PHONE) then 7
    else if Contains(eventType, BOOK) then 5
    else if Contains(eventType, LOOKING_AWAY) then 2
    else if Contains(eventType, NO_FACE_DETECTED) then 5
    else if Contains(eventType, MULTIPLE_FACES) then 10
    else if Contains(eventType, DROWSINESS) then 5
    else if Contains(eventType, BACKGROUND_VOICE) then 3
    else if Contains(eventType, EXTRA_DEVICE) then 8
    else 0
  }

  /** A log that costs points, and so gets a line in the breakdown. */
  predicate Penalised(eventType: string)
  {
    Penalty(eventType) > 0
  }

  /** The sum of the penalties of the log list, accumulated in log order. */
  function TotalPenalty(types: seq<string>): (total: nat)
    ensures 2 * PenalisedCount(types) <= total <= 10 * PenalisedCount(types)
  {
    if |types| == 0 then 0
    else
      var init, last := types[..|types| - 1], types[|types| - 1];
      PenalisedOneMore(init, last);
      assert init + [last] == types;
      TotalPenalty(init) + Penalty(last)
  }

  /** The breakdown line of one log: none when it costs nothing. */
  function Line(eventType: string): seq<Deduction>
  {
    if Penalised(eventType) then [Deduction(eventType, -(Penalty(eventType) as int))] else []
  }

  /** The breakdown: one line per penalised log, appended in log order. */
  function Deductions(types: seq<string>): (ds: seq<Deduction>)
    ensures |ds| == PenalisedCount(types)
  {
    if |types| == 0 then []
    else
      var init, last := types[..|types| - 1], types[|types| - 1];
      PenalisedOneMore(init, last);
      assert init + [last] == types;
      Deductions(init) + Line(last)
  }

  /** The reported score: the full score less every penalty, clamped at zero. */
  function IntegrityScore(types: seq<string>): (score: int)
    ensures 0 <= score <= FullScore
    ensures score == 0 <==> TotalPenalty(types) >= FullScore
    ensures score > 0 ==> score == FullScore - TotalPenalty(types)
  {
    var s := FullScore - TotalPenalty(types);
    if s < 0 then 0 else s
  }

  /**
   * The detail route's `forEach`: a running score decremented per penalised log and a
   * deduction list pushed in order, then the clamp at zero.
   */
  method ComputeScore(types: seq<string>) returns (score: int, deductions: seq<Deduction>)
    ensures score == IntegrityScore(types)
    ensures deductions == Deductions(types)
  {
    score := FullScore;
    deductions := [];
    var i := 0;
    while i < |types|
      invariant 0 <= i <= |types|
      invariant score == FullScore - TotalPenalty(types[..i])
      invariant deductions == Deductions(types[..i])
    {
      var points := Penalty(types[i]);
      assert types[..i + 1][..i] == types[..i];
      if points > 0 {
        score := score - points;
        deductions := deductions + [Deduction(types[i], -(points as int))];
      }
      i := i + 1;
    }
    assert types[..i] == types;
    if score < 0 {
      score := 0;
    }
  }

  /** Reference definition of the breakdown's subjects: the penalised logs, front to back. */
  function PenalisedLogs(types: seq<string>): seq<string>
  {
    if |types| == 0 then []
    else (if Penalised(types[0]) then [types[0]] else []) + PenalisedLogs(types[1..])
  }

  /** The number of penalised logs. */
  function PenalisedCount(types: seq<string>): nat
  {
    if |types| == 0 then 0
    else (if Penalised(types[0]) then 1 else 0) + PenalisedCount(types[1..])
  }

  /** One more log adds one to the penalised count exactly when it is penalised. */
  lemma PenalisedOneMore(types: seq<string>, t: string)
    ensures PenalisedCount(types + [t]) == PenalisedCount(types) + (if Penalised(t) then 1 else 0)
  {
    PenalisedLogsAppend(types, [t]);
    assert [t][1..] == [];
  }

  lemma {:induction false} PenalisedLogsAppend(a: seq<string>, b: seq<string>)
    ensures PenalisedLogs(a + b) == PenalisedLogs(a) + PenalisedLogs(b)
    ensures PenalisedCount(a + b) == PenalisedCount(a) + PenalisedCount(b)
  {
    if |a| == 0 {
      assert a + b == b;
    } else {
      assert (a + b)[1..] == a[1..] + b;
      PenalisedLogsAppend(a[1..], b);
    }
  }

  /**
   * The breakdown lists exactly the penalised logs, in log order, each with its own
   * negated penalty; logs that cost nothing are left out.
   */
  lemma {:induction false} DeductionsArePenalisedLogs(types: seq<string>)
    ensures |Deductions(types)| == |PenalisedLogs(types)| == PenalisedCount(types)
    ensures forall k :: 0 <= k < |Deductions(types)| ==>
      Deductions(types)[k] == Deduction(PenalisedLogs(types)[k], -(Penalty(PenalisedLogs(types)[k]) as int))
  {
    if |types| > 0 {
      var init, last := types[..|types| - 1], types[|types| - 1];
      assert types == init + [last];
      DeductionsArePenalisedLogs(init);
      PenalisedLogsAppend(init, [last]);
      assert [last][1..] == [];
    }
  }

  /** The deductions' points add up to the whole drop from the full score. */
  function PointsSum(ds: seq<Deduction>): int
  {
    if |ds| == 0 then 0 else PointsSum(ds[..|ds| - 1]) + ds[|ds| - 1].points
  }

  lemma {:induction false} DeductionsSumToPenalty(types: seq<string>)
    ensures PointsSum(Deductions(types)) == -(TotalPenalty(types) as int)
  {
    if |types| > 0 {
      var init := types[..|types| - 1];
      DeductionsSumToPenalty(init);
      var ds := Deductions(types);
      if Penalised(types[|types| - 1]) {
        assert ds[..|ds| - 1] == Deductions(init);
      } else {
        assert ds == Deductions(init);
      }
    }
  }

  /** Appending a log to the list extends the breakdown and never raises the score. */
  lemma {:induction false} AppendOnlyLowersScore(types: seq<string>, more: seq<string>)
    ensures TotalPenalty(types + more) == TotalPenalty(types) + TotalPenalty(more)
    ensures IntegrityScore(types + more) <= IntegrityScore(types)
    ensures Deductions(types + more) == Deductions(types) + Deductions(more)
    decreases |more|
  {
    if |more| == 0 {
      assert types + more == types;
    } else {
      var init := more[..|more| - 1];
      assert (types + more)[..|types + more| - 1] == types + init;
      assert (types + more)[|types + more| - 1] == more[|more| - 1];
      AppendOnlyLowersScore(types, init);
    }
  }

  /** `focusLostCount`: logs whose type mentions looking away or a missing face. */
  predicate FocusLost(eventType: string): (lost: bool)
    ensures Contains(eventType, LOOKING_AWAY) ==> lost && Penalised(eventType)
    ensures Contains(eventType, NO_FACE_DETECTED) ==> lost && Penalised(eventType)
  {
    PrefixContained(eventType, NO_FACE, "_DETECTED");
    Contains(eventType, LOOKING_AWAY) || Contains(eventType, NO_FACE)
  }

  function FocusLostCount(types: seq<string>): (n: nat)
    ensures n <= |types|
    ensures n == 0 <==> forall k :: 0 <= k < |types| ==> !FocusLost(types[k])
  {
    if |types| == 0 then 0
    else (if FocusLost(types[0]) then 1 else 0) + FocusLostCount(types[1..])
  }

  /** The duration line: in progress while no end time is set, else whole elapsed minutes. */
  datatype Duration = InProgress | Elapsed(minutes: int)

  function SessionDuration(startTime: int, endTime: Option<int>): (d: Duration)
    ensures endTime.None? <==> d.InProgress?
    ensures endTime.Some? ==>
      d.minutes * 60000 <= endTime.value - startTime < (d.minutes + 1) * 60000
  {
    match endTime
    case None => InProgress
    case Some(e) => Elapsed((e - startTime) / 60000)
  }

  /** An empty log list scores the full 100, with no deductions and no focus lost. */
  lemma EmptyLogReport()
    ensures IntegrityScore([]) == 100 && Deductions([]) == [] && FocusLostCount([]) == 0
  {
  }

  // Which markers each label the monitor emits holds. A marker is absent from a label when it
  // has a character outside the label's spelling; a marker is present when it starts the label.
  // Each label gets its own small lemmas, which keeps every proof about literals small.

  lemma PhoneMarkersAbsent()
    ensures !Contains(PHONE_LABEL, LOOKING_AWAY) && !Contains(PHONE_LABEL, NO_FACE)
  {
    var letters := {'P', 'H', 'O', 'N', 'E', '_', 'D', 'T', 'C'};
    assert SpelledWith(PHONE_LABEL, letters);
    AbsentCharExcludes(PHONE_LABEL, letters, LOOKING_AWAY, 0);
    AbsentCharExcludes(PHONE_LABEL, letters, NO_FACE, 3);
  }

  lemma PhoneMarkersPresent()
    ensures Contains(PHONE_LABEL, PHONE)
  {
    PrefixIsContained(PHONE, "");
    assert PHONE + "" == PHONE_LABEL;
  }

  lemma BookMarkersAbsent()
    ensures !Contains(BOOK_LABEL, PHONE) && !Contains(BOOK_LABEL, LOOKING_AWAY)
    ensures !Contains(BOOK_LABEL, NO_FACE)
  {
    var letters := {'B', 'O', 'K', '_', 'D', 'E', 'T', 'C'};
    assert SpelledWith(BOOK_LABEL, letters);
    AbsentCharExcludes(BOOK_LABEL, letters, PHONE, 0);
    AbsentCharExcludes(BOOK_LABEL, letters, LOOKING_AWAY, 0);
    AbsentCharExcludes(BOOK_LABEL, letters, NO_FACE, 0);
  }

  lemma BookMarkersPresent()
    ensures Contains(BOOK_LABEL, BOOK)
  {
    PrefixIsContained(BOOK, "");
    assert BOOK + "" == BOOK_LABEL;
  }

  lemma LookingAwayMarkersAbsent()
    ensures !Contains(LOOKING_AWAY_LABEL, PHONE) && !Contains(LOOKING_AWAY_LABEL, BOOK)
    ensures !Contains(LOOKING_AWAY_LABEL, NO_FACE)
  {
    var letters := {'L', 'O', 'K', 'I', 'N', 'G', '_', 'A', 'W', 'Y', ' ', '(', '5', 's', ')'};
    assert SpelledWith(LOOKING_AWAY_LABEL, letters);
    AbsentCharExcludes(LOOKING_AWAY_LABEL, letters, PHONE, 0);
    AbsentCharExcludes(LOOKING_AWAY_LABEL, letters, BOOK, 0);
    AbsentCharExcludes(LOOKING_AWAY_LABEL, letters, NO_FACE, 3);
  }

  lemma LookingAwayMarkersPresent()
    ensures Contains(LOOKING_AWAY_LABEL, LOOKING_AWAY)
  {
    PrefixIsContained(LOOKING_AWAY, " (5s)");
    assert LOOKING_AWAY + " (5s)" == LOOKING_AWAY_LABEL;
  }

  lemma NoFaceMarkersAbsent()
    ensures !Contains(NO_FACE_LABEL, PHONE) && !Contains(NO_FACE_LABEL, BOOK)
    ensures !Contains(NO_FACE_LABEL, LOOKING_AWAY)
  {
    var letters := {'N', 'O', '_', 'F', 'A', 'C', 'E', 'D', 'T', ' ', '(', '1', '0', 's', ')'};
    assert SpelledWith(NO_FACE_LABEL, letters);
    AbsentCharExcludes(NO_FACE_LABEL, letters, PHONE, 0);
    AbsentCharExcludes(NO_FACE_LABEL, letters, BOOK, 0);
    AbsentCharExcludes(NO_FACE_LABEL, letters, LOOKING_AWAY, 0);
  }

  lemma NoFaceMarkersPresent()
    ensures Contains(NO_FACE_LABEL, NO_FACE_DETECTED) && Contains(NO_FACE_LABEL, NO_FACE)
  {
    PrefixIsContained(NO_FACE_DETECTED, " (10s)");
    assert NO_FACE_DETECTED + " (10s)" == NO_FACE_LABEL;
    PrefixContained(NO_FACE_LABEL, NO_FACE, "_DETECTED");
  }

  lemma MultipleFacesMarkersAbsent()
    ensures !Contains(MULTIPLE_FACES_LABEL, PHONE) && !Contains(MULTIPLE_FACES_LABEL, BOOK)
    ensures !Contains(MULTIPLE_FACES_LABEL, LOOKING_AWAY) && !Contains(MULTIPLE_FACES_LABEL, NO_FACE_DETECTED)
    ensures !Contains(MULTIPLE_FACES_LABEL, NO_FACE)
  {
    var letters := {'M', 'U', 'L', 'T', 'I', 'P', 'E', '_', 'F', 'A', 'C', 'S', 'D'};
    assert SpelledWith(MULTIPLE_FACES_LABEL, letters);
    AbsentCharExcludes(MULTIPLE_FACES_LABEL, letters, PHONE, 1);
    AbsentCharExcludes(MULTIPLE_FACES_LABEL, letters, BOOK, 0);
    AbsentCharExcludes(MULTIPLE_FACES_LABEL, letters, LOOKING_AWAY, 1);
    AbsentCharExcludes(MULTIPLE_FACES_LABEL, letters, NO_FACE_DETECTED, 0);
    AbsentCharExcludes(MULTIPLE_FACES_LABEL, letters, NO_FACE, 0);
  }

  lemma MultipleFacesMarkersPresent()
    ensures Contains(MULTIPLE_FACES_LABEL, MULTIPLE_FACES)
  {
    PrefixIsContained(MULTIPLE_FACES, "");
    assert MULTIPLE_FACES + "" == MULTIPLE_FACES_LABEL;
  }

  lemma DrowsinessMarkersAbsent()
    ensures !Contains(DROWSINESS_LABEL, PHONE) && !Contains(DROWSINESS_LABEL, BOOK)
    ensures !Contains(DROWSINESS_LABEL, LOOKING_AWAY) && !Contains(DROWSINESS_LABEL, NO_FACE_DETECTED)
    ensures !Contains(DROWSINESS_LABEL, MULTIPLE_FACES) && !Contains(DROWSINESS_LABEL, NO_FACE)
  {
    var letters := {'D', 'R', 'O', 'W', 'S', 'I', 'N', 'E', '_', 'T', 'C', ' ', '(', '3', 's', ')'};
    assert SpelledWith(DROWSINESS_LABEL, letters);
    AbsentCharExcludes(DROWSINESS_LABEL, letters, PHONE, 0);
    AbsentCharExcludes(DROWSINESS_LABEL, letters, BOOK, 0);
    AbsentCharExcludes(DROWSINESS_LABEL, letters, LOOKING_AWAY, 0);
    AbsentCharExcludes(DROWSINESS_LABEL, letters, NO_FACE_DETECTED, 3);
    AbsentCharExcludes(DROWSINESS_LABEL, letters, MULTIPLE_FACES, 0);
    AbsentCharExcludes(DROWSINESS_LABEL, letters, NO_FACE, 3);
  }

  lemma DrowsinessMarkersPresent()
    ensures Contains(DROWSINESS_LABEL, DROWSINESS)
  {
    PrefixIsContained(DROWSINESS, " (3s)");
    assert DROWSINESS + " (3s)" == DROWSINESS_LABEL;
  }

  lemma BackgroundVoiceMarkersAbsent()
    ensures !Contains(BACKGROUND_VOICE_LABEL, PHONE) && !Contains(BACKGROUND_VOICE_LABEL, BOOK)
    ensures !Contains(BACKGROUND_VOICE_LABEL, LOOKING_AWAY) && !Contains(BACKGROUND_VOICE_LABEL, NO_FACE_DETECTED)
    ensures !Contains(BACKGROUND_VOICE_LABEL, MULTIPLE_FACES) && !Contains(BACKGROUND_VOICE_LABEL, DROWSINESS)
    ensures !Contains(BACKGROUND_VOICE_LABEL, NO_FACE)
  {
    var letters := {'B', 'A', 'C', 'K', 'G', 'R', 'O', 'U', 'N', 'D', '_', 'V', 'I', 'E', ' ', '(', '3', 's', ')'};
    assert SpelledWith(BACKGROUND_VOICE_LABEL, letters);
    AbsentCharExcludes(BACKGROUND_VOICE_LABEL, letters, PHONE, 0);
    AbsentCharExcludes(BACKGROUND_VOICE_LABEL, letters, BOOK, 7);
    AbsentCharExcludes(BACKGROUND_VOICE_LABEL, letters, LOOKING_AWAY, 0);
    AbsentCharExcludes(BACKGROUND_VOICE_LABEL, letters, NO_FACE_DETECTED, 3);
    AbsentCharExcludes(BACKGROUND_VOICE_LABEL, letters, MULTIPLE_FACES, 0);
    AbsentCharExcludes(BACKGROUND_VOICE_LABEL, letters, DROWSINESS, 3);
    AbsentCharExcludes(BACKGROUND_VOICE_LABEL, letters, NO_FACE, 3);
  }

  lemma BackgroundVoiceMarkersPresent()
    ensures Contains(BACKGROUND_VOICE_LABEL, BACKGROUND_VOICE)
  {
    PrefixIsContained(BACKGROUND_VOICE, " (3s)");
    assert BACKGROUND_VOICE + " (3s)" == BACKGROUND_VOICE_LABEL;
  }

  lemma ExtraDeviceMarkersAbsent()
    ensures !Contains(EXTRA_DEVICE_LABEL, PHONE) && !Contains(EXTRA_DEVICE_LABEL, BOOK)
    ensures !Contains(EXTRA_DEVICE_LABEL, LOOKING_AWAY) && !Contains(EXTRA_DEVICE_LABEL, NO_FACE_DETECTED)
    ensures !Contains(EXTRA_DEVICE_LABEL, MULTIPLE_FACES) && !Contains(EXTRA_DEVICE_LABEL, DROWSINESS)
    ensures !Contains(EXTRA_DEVICE_LABEL, BACKGROUND_VOICE) && !Contains(EXTRA_DEVICE_LABEL, NO_FACE)
  {
    var letters := {'E', 'X', 'T', 'R', 'A', '_', 'D', 'V', 'I', 'C'};
    assert SpelledWith(EXTRA_DEVICE_LABEL, letters);
    AbsentCharExcludes(EXTRA_DEVICE_LABEL, letters, PHONE, 0);
    AbsentCharExcludes(EXTRA_DEVICE_LABEL, letters, BOOK, 0);
    AbsentCharExcludes(EXTRA_DEVICE_LABEL, letters, LOOKING_AWAY, 0);
    AbsentCharExcludes(EXTRA_DEVICE_LABEL, letters, NO_FACE_DETECTED, 0);
    AbsentCharExcludes(EXTRA_DEVICE_LABEL, letters, MULTIPLE_FACES, 0);
    AbsentCharExcludes(EXTRA_DEVICE_LABEL, letters, DROWSINESS, 2);
    AbsentCharExcludes(EXTRA_DEVICE_LABEL, letters, BACKGROUND_VOICE, 0);
    AbsentCharExcludes(EXTRA_DEVICE_LABEL, letters, NO_FACE, 0);
  }

  lemma ExtraDeviceMarkersPresent()
    ensures Contains(EXTRA_DEVICE_LABEL, EXTRA_DEVICE)
  {
    PrefixIsContained(EXTRA_DEVICE, "");
    assert EXTRA_DEVICE + "" == EXTRA_DEVICE_LABEL;
  }

  /** The penalty and focus classification of the labels the face and object monitors emit. */
  lemma FaceAndObjectLabelPenalties()
    ensures Penalty(PHONE_LABEL) == 7 && !FocusLost(PHONE_LABEL)
    ensures Penalty(BOOK_LABEL) == 5 && !FocusLost(BOOK_LABEL)
    ensures Penalty(LOOKING_AWAY_LABEL) == 2 && FocusLost(LOOKING_AWAY_LABEL)
    ensures Penalty(NO_FACE_LABEL) == 5 && FocusLost(NO_FACE_LABEL)
    ensures Penalty(MULTIPLE_FACES_LABEL) == 10 && !FocusLost(MULTIPLE_FACES_LABEL)
  {
    PhoneMarkersAbsent();
    PhoneMarkersPresent();
    BookMarkersAbsent();
    BookMarkersPresent();
    LookingAwayMarkersAbsent();
    LookingAwayMarkersPresent();
    NoFaceMarkersAbsent();
    NoFaceMarkersPresent();
    MultipleFacesMarkersAbsent();
    MultipleFacesMarkersPresent();
  }

  /** The penalty and focus classification of the remaining labels: drowsiness, voice, extra device. */
  lemma OtherLabelPenalties()
    ensures Penalty(DROWSINESS_LABEL) == 5 && !FocusLost(DROWSINESS_LABEL)
    ensures Penalty(BACKGROUND_VOICE_LABEL) == 3 && !FocusLost(BACKGROUND_VOICE_LABEL)
    ensures Penalty(EXTRA_DEVICE_LABEL) == 8 && !FocusLost(EXTRA_DEVICE_LABEL)
  {
    DrowsinessMarkersAbsent();
    DrowsinessMarkersPresent();
    BackgroundVoiceMarkersAbsent();
    BackgroundVoiceMarkersPresent();
    ExtraDeviceMarkersAbsent();
    ExtraDeviceMarkersPresent();
  }

  /** A log list of three entries, unfolded. */
  lemma ThreeLogs(a: string, b: string, c: string)
    ensures TotalPenalty([a, b, c]) == Penalty(a) + Penalty(b) + Penalty(c)
    ensures Deductions([a, b, c]) == Line(a) + Line(b) + Line(c)
    ensures FocusLostCount([a, b, c]) ==
      (if FocusLost(a) then 1 else 0) + (if FocusLost(b) then 1 else 0) + (if FocusLost(c) then 1 else 0)
  {
    assert [a, b, c][..2] == [a, b];
    assert [a, b][..1] == [a];
    assert [a][..0] == [];
    assert TotalPenalty([a]) == Penalty(a) && Deductions([a]) == Line(a);
    assert TotalPenalty([a, b]) == Penalty(a) + Penalty(b) && Deductions([a, b]) == Line(a) + Line(b);
    assert [a, b, c][1..] == [b, c];
    assert [b, c][1..] == [c];
    assert [c][1..] == [];
  }

  /** `n` copies of one log cost `n` times its penalty and give `n` identical lines. */
  lemma {:induction false} RepeatedLog(t: string, n: nat)
    ensures TotalPenalty(seq(n, _ => t)) == n * Penalty(t)
    ensures |Deductions(seq(n, _ => t))| == n * |Line(t)|
  {
    if n > 0 {
      var logs, shorter := seq(n, _ => t), seq(n - 1, _ => t);
      RepeatedLog(t, n - 1);
      assert logs[..n - 1] == shorter && logs[n - 1] == t;
      var points, lines := Penalty(t), |Line(t)|;
      assert TotalPenalty(logs) == (n - 1) * points + points == n * points;
      assert |Deductions(logs)| == (n - 1) * lines + lines == n * lines;
    }
  }

  /** A phone, a five-second look away and a ten-second absence: 100 - 7 - 2 - 5. */
  lemma ThreeEventReport()
    ensures var log := ["PHONE_DETECTED", "LOOKING_AWAY (5s)", "NO_FACE_DETECTED (10s)"];
      && IntegrityScore(log) == 86
      && Deductions(log) == [Deduction("PHONE_DETECTED", -7), Deduction("LOOKING_AWAY (5s)", -2),
                             Deduction("NO_FACE_DETECTED (10s)", -5)]
      && FocusLostCount(log) == 2
  {
    FaceAndObjectLabelPenalties();
    ThreeLogs("PHONE_DETECTED", "LOOKING_AWAY (5s)", "NO_FACE_DETECTED (10s)");
  }

  /** Five multiple-face events cost ten points each. */
  lemma FiveMultipleFacesReport()
    ensures var log := seq(5, _ => "MULTIPLE_FACES_DETECTED");
      IntegrityScore(log) == 50 && |Deductions(log)| == 5
  {
    FaceAndObjectLabelPenalties();
    RepeatedLog("MULTIPLE_FACES_DETECTED", 5);
  }
}
