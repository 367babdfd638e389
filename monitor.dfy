/**
 * The interview page's monitoring state: the session ref, the on-screen event list, the four
 * timer refs, the multi-face flag and the object-detection busy flag, updated step by step by
 * the face-mesh callback, the timer callbacks, the object-detection interval and the audio
 * interval. Time is a logical clock passed to each step.
 */
module Monitor {
  import opened Common
  import opened Debounce
  import opened Signals
  import Scoring

  /** One row of the on-screen list: when it was flagged and what. */
  datatype LocalEvent = LocalEvent(time: int, event: string)

  /** The four sustained-duration timers. */
  datatype Timer = NoFaceTimer | LookingAwayTimer | DrowsinessTimer | AudioTimer

  /** Timer durations, in milliseconds. */
  const NO_FACE_DELAY: nat := 10000
  const LOOKING_AWAY_DELAY: nat := 5000
  const DROWSINESS_DELAY: nat := 3000
  const AUDIO_DELAY: nat := 3000

  /** The label a timer flags when it fires. */
  function TimerLabel(t: Timer): (name: string)
    ensures Scoring.Penalty(name) ==
      match t
      case NoFaceTimer => 5
      case LookingAwayTimer => 2
      case DrowsinessTimer => 5
      case AudioTimer => 3
    ensures Scoring.FocusLost(name) <==> t == NoFaceTimer || t == LookingAwayTimer
  {
    Scoring.FaceAndObjectLabelPenalties();
    Scoring.OtherLabelPenalties();
    match t
    case NoFaceTimer => NO_FACE_LABEL
    case LookingAwayTimer => LOOKING_AWAY_LABEL
    case DrowsinessTimer => DROWSINESS_LABEL
    case AudioTimer => BACKGROUND_VOICE_LABEL
  }

  /** The on-screen rows for labels flagged together at `now`, newest first. */
  function NewestFirst(labels: seq<string>, now: int): (rows: seq<LocalEvent>)
    ensures |rows| == |labels|
    ensures forall i :: 0 <= i < |rows| ==> rows[i] == LocalEvent(now, labels[|labels| - 1 - i])
  {
    if |labels| == 0 then [] else NewestFirst(labels[1..], now) + [LocalEvent(now, labels[0])]
  }

  class Proctor {
    /** `interviewIdRef`: the session the events are logged against, once started. */
    var interviewId: Option<Id>
    /** The on-screen event list, newest first. */
    var events: seq<LocalEvent>
    /** The event types sent to the log endpoint, in the order sent. */
    var posted: seq<string>
    var noFaceTimer: Handle
    var lookingAwayTimer: Handle
    var drowsinessTimer: Handle
    var audioTimer: Handle
    var multiFaceFlagged: bool
    /** `isDetectingObjects`: an object detection is in flight. */
    var isDetectingObjects: bool

    /**
     * The on-screen list is the sent log in reverse, and nothing is flagged before a
     * session id is known.
     */
    ghost predicate Valid()
      reads this`events, this`posted, this`interviewId
    {
      && |events| == |posted|
      && (forall i :: 0 <= i < |events| ==> events[i].event == posted[|posted| - 1 - i])
      && (interviewId.None? ==> posted == [])
    }

    function Ref(t: Timer): Handle
      reads this
    {
      match t
      case NoFaceTimer => noFaceTimer
      case LookingAwayTimer => lookingAwayTimer
      case DrowsinessTimer => drowsinessTimer
      case AudioTimer => audioTimer
    }

    constructor ()
      ensures Valid()
      ensures interviewId.None? && events == [] && posted == []
      ensures noFaceTimer.Idle? && lookingAwayTimer.Idle? && drowsinessTimer.Idle? && audioTimer.Idle?
      ensures !multiFaceFlagged && !isDetectingObjects
    {
      interviewId := None;
      events, posted := [], [];
      noFaceTimer, lookingAwayTimer, drowsinessTimer, audioTimer := Idle, Idle, Idle, Idle;
      multiFaceFlagged, isDetectingObjects := false, false;
    }

    /** The start route answered with the new session's id. */
    method Begin(id: Id)
      requires Valid()
      modifies this`interviewId
      ensures Valid() && interviewId == Some(id)
    {
      interviewId := Some(id);
    }

    /**
     * `flagEvent`: without a session id nothing happens; otherwise the event is shown at the
     * top of the list and sent to the log endpoint (a failed send is only logged).
     */
    method FlagEvent(eventType: string, now: int)
      requires Valid()
      modifies this`events, this`posted
      ensures Valid()
      ensures interviewId.None? ==> events == old(events) && posted == old(posted)
      ensures interviewId.Some? ==>
        events == [LocalEvent(now, eventType)] + old(events) && posted == old(posted) + [eventType]
    {
      if interviewId.None? {
        return;
      }
      events := [LocalEvent(now, eventType)] + events;
      posted := posted + [eventType];
    }

    /** Several labels flagged one after the other at the same instant. */
    method FlagAll(labels: seq<string>, now: int)
      requires Valid()
      modifies this`events, this`posted
      ensures Valid()
      ensures interviewId.None? ==> events == old(events) && posted == old(posted)
      ensures interviewId.Some? ==>
        events == NewestFirst(labels, now) + old(events) && posted == old(posted) + labels
    {
      var i := 0;
      while i < |labels|
        invariant 0 <= i <= |labels|
        invariant Valid()
        invariant interviewId.None? ==> events == old(events) && posted == old(posted)
        invariant interviewId.Some? ==>
          events == NewestFirst(labels[..i], now) + old(events) && posted == old(posted) + labels[..i]
      {
        FlagEvent(labels[i], now);
        if interviewId.Some? {
          assert labels[..i + 1] == labels[..i] + [labels[i]];
          NewestFirstAppend(labels[..i], labels[i], now);
        }
        i := i + 1;
      }
      assert labels[..i] == labels;
    }

    /**
     * `onFaceMeshResults`: the no-face timer follows "no face in view"; the multi-face
     * trigger flags on an edge; with exactly one face the gaze and drowsiness timers follow
     * their conditions, and with any other count they are cleared but their refs are kept.
     */
    method OnFaceMeshResults(faces: seq<Landmarks>, ear: real, now: int)
      requires Valid()
      modifies this
      ensures Valid()
      ensures interviewId == old(interviewId)
      ensures noFaceTimer == Sample(old(noFaceTimer), |faces| == 0, now, NO_FACE_DELAY)
      ensures multiFaceFlagged == EdgeStep(old(multiFaceFlagged), |faces|).0
      ensures posted == old(posted) +
        (if EdgeStep(old(multiFaceFlagged), |faces|).1 && interviewId.Some? then [MULTIPLE_FACES_LABEL] else [])
      ensures |old(posted)| <= |posted| && events == NewestFirst(posted[|old(posted)|..], now) + old(events)
      ensures |faces| == 1 ==>
        && lookingAwayTimer == Sample(old(lookingAwayTimer), CheckGaze(faces[0]), now, LOOKING_AWAY_DELAY)
        && drowsinessTimer == Sample(old(drowsinessTimer), Drowsy(ear), now, DROWSINESS_DELAY)
      ensures |faces| != 1 ==>
        lookingAwayTimer == Suspend(old(lookingAwayTimer)) && drowsinessTimer == Suspend(old(drowsinessTimer))
      ensures audioTimer == old(audioTimer) && isDetectingObjects == old(isDetectingObjects)
    {
      TrackFaceAbsence(|faces| == 0, now);
      TrackMultipleFaces(|faces|, now);
      if |faces| == 1 {
        TrackGazeAndDrowsiness(CheckGaze(faces[0]), Drowsy(ear), now);
      } else {
        SuspendGazeAndDrowsiness();
      }
    }

    /** The no-face timer: started on an empty sample when its ref is null, else cleared and nulled. */
    method TrackFaceAbsence(noFace: bool, now: int)
      modifies this`noFaceTimer
      ensures noFaceTimer == Sample(old(noFaceTimer), noFace, now, NO_FACE_DELAY)
    {
      if noFace {
        if noFaceTimer.Idle? {
          noFaceTimer := Pending(now + NO_FACE_DELAY);
        }
      } else {
        noFaceTimer := Idle;
      }
    }

    /** The multi-face trigger: flag once when several faces appear, re-arm when they are gone. */
    method TrackMultipleFaces(faceCount: nat, now: int)
      requires Valid()
      modifies this`events, this`posted, this`multiFaceFlagged
      ensures Valid()
      ensures multiFaceFlagged == EdgeStep(old(multiFaceFlagged), faceCount).0
      ensures posted == old(posted) +
        (if EdgeStep(old(multiFaceFlagged), faceCount).1 && interviewId.Some? then [MULTIPLE_FACES_LABEL] else [])
      ensures |old(posted)| <= |posted| && events == NewestFirst(posted[|old(posted)|..], now) + old(events)
    {
      if faceCount > 1 {
        if !multiFaceFlagged {
          FlagEvent(MULTIPLE_FACES_LABEL, now);
          multiFaceFlagged := true;
          assert posted[|old(posted)|..] == if interviewId.Some? then [MULTIPLE_FACES_LABEL] else [];
        }
      } else {
        if multiFaceFlagged {
          multiFaceFlagged := false;
        }
      }
    }

    /** With exactly one face, the gaze and drowsiness timers follow their conditions. */
    method TrackGazeAndDrowsiness(isLookingAway: bool, drowsy: bool, now: int)
      modifies this`lookingAwayTimer, this`drowsinessTimer
      ensures lookingAwayTimer == Sample(old(lookingAwayTimer), isLookingAway, now, LOOKING_AWAY_DELAY)
      ensures drowsinessTimer == Sample(old(drowsinessTimer), drowsy, now, DROWSINESS_DELAY)
    {
      if isLookingAway {
        if lookingAwayTimer.Idle? {
          lookingAwayTimer := Pending(now + LOOKING_AWAY_DELAY);
        }
      } else {
        lookingAwayTimer := Idle;
      }
      if drowsy {
        if drowsinessTimer.Idle? {
          drowsinessTimer := Pending(now + DROWSINESS_DELAY);
        }
      } else {
        drowsinessTimer := Idle;
      }
    }

    /** With any other face count both timers are cleared, but their refs are left as they are. */
    method SuspendGazeAndDrowsiness()
      modifies this`lookingAwayTimer, this`drowsinessTimer
      ensures lookingAwayTimer == Suspend(old(lookingAwayTimer))
      ensures drowsinessTimer == Suspend(old(drowsinessTimer))
    {
      if lookingAwayTimer.Pending? {
        lookingAwayTimer := Stale;
      }
      if drowsinessTimer.Pending? {
        drowsinessTimer := Stale;
      }
    }

    /**
     * A timer callback: a live timer whose deadline has come flags its label once and nulls
     * its ref; a cleared timer never runs.
     */
    method OnTimer(t: Timer, now: int)
      requires Valid()
      modifies this
      ensures Valid()
      ensures interviewId == old(interviewId)
      ensures Ref(t) == Expire(old(Ref(t)), now)
      ensures forall u :: u != t ==> Ref(u) == old(Ref(u))
      ensures posted == old(posted) +
        (if Due(old(Ref(t)), now) && interviewId.Some? then [TimerLabel(t)] else [])
      ensures |old(posted)| <= |posted| && events == NewestFirst(posted[|old(posted)|..], now) + old(events)
      ensures multiFaceFlagged == old(multiFaceFlagged) && isDetectingObjects == old(isDetectingObjects)
    {
      if !Due(Ref(t), now) {
        return;
      }
      FlagEvent(TimerLabel(t), now);
      Clear(t);
    }

    /** A timer that has fired nulls its ref. */
    method Clear(t: Timer)
      modifies this`noFaceTimer, this`lookingAwayTimer, this`drowsinessTimer, this`audioTimer
      ensures Ref(t) == Idle
      ensures forall u :: u != t ==> Ref(u) == old(Ref(u))
    {
      match t
      case NoFaceTimer => noFaceTimer := Idle;
      case LookingAwayTimer => lookingAwayTimer := Idle;
      case DrowsinessTimer => drowsinessTimer := Idle;
      case AudioTimer => audioTimer := Idle;
    }

    /**
     * The object-detection interval: a detection starts only when the model and video are
     * ready and none is in flight; a busy tick is skipped, not queued.
     */
    method ObjectTickStart(ready: bool) returns (started: bool)
      requires Valid()
      modifies this`isDetectingObjects
      ensures Valid()
      ensures started <==> ready && !old(isDetectingObjects)
      ensures isDetectingObjects == (old(isDetectingObjects) || started)
    {
      started := ready && !isDetectingObjects;
      if started {
        isDetectingObjects := true;
      }
    }

    /**
     * The in-flight detection completes: on success its classes are mapped to labels and
     * flagged in order; on error nothing is flagged. Either way the busy flag is cleared.
     */
    method ObjectTickFinish(classes: Option<seq<string>>, now: int)
      requires Valid()
      requires isDetectingObjects
      modifies this`events, this`posted, this`isDetectingObjects
      ensures Valid()
      ensures !isDetectingObjects
      ensures posted == old(posted) +
        (if classes.Some? && interviewId.Some? then DetectionEvents(classes.value) else [])
      ensures |old(posted)| <= |posted| && events == NewestFirst(posted[|old(posted)|..], now) + old(events)
    {
      if classes.Some? {
        FlagAll(DetectionEvents(classes.value), now);
      }
      isDetectingObjects := false;
    }

    /**
     * The audio interval: with an analyser, a loud sample starts the background-voice timer
     * if its ref is null and a quiet one cancels and nulls it; without one nothing happens.
     */
    method AudioTick(bins: Option<seq<Byte>>, now: int)
      requires Valid()
      modifies this`audioTimer
      ensures Valid()
      ensures audioTimer ==
        if bins.Some? then Sample(old(audioTimer), Loud(bins.value), now, AUDIO_DELAY) else old(audioTimer)
    {
      if bins.None? {
        return;
      }
      if Loud(bins.value) {
        if audioTimer.Idle? {
          audioTimer := Pending(now + AUDIO_DELAY);
        }
      } else {
        if !audioTimer.Idle? {
          audioTimer := Idle;
        }
      }
    }
  }

  /** Flagging one more label puts its row on top. */
  lemma NewestFirstAppend(labels: seq<string>, last: string, now: int)
    ensures NewestFirst(labels + [last], now) == [LocalEvent(now, last)] + NewestFirst(labels, now)
  {
  }

  /**
   * Every label the monitor flags is charged by the integrity report: each timer's label
   * with its own points, the multi-face label with 10 and every object label with some. Of
   * the timer labels, exactly the no-face and looking-away ones count as focus lost.
   */
  lemma FlaggedLabelsArePenalised(t: Timer, classes: seq<string>)
    ensures Scoring.Penalty(TimerLabel(t)) ==
      match t
      case NoFaceTimer => 5
      case LookingAwayTimer => 2
      case DrowsinessTimer => 5
      case AudioTimer => 3
    ensures Scoring.FocusLost(TimerLabel(t)) <==> t == NoFaceTimer || t == LookingAwayTimer
    ensures Scoring.Penalty(MULTIPLE_FACES_LABEL) == 10
    ensures forall k :: 0 <= k < |DetectionEvents(classes)| ==> Scoring.Penalised(DetectionEvents(classes)[k])
  {
    Scoring.FaceAndObjectLabelPenalties();
    Scoring.OtherLabelPenalties();
  }
}
