/**
 * The interview routes as operations on an in-memory store: interviews and logs keyed by id,
 * with start, log, upload-video (finalisation only), list, detail and delete. Time is passed
 * in; ids are handed out fresh from a counter.
 */
module Store {
  import opened Common
  import opened Scoring

  /** An interview record, with the defaults of its schema. */
  datatype Interview = Interview(
    candidateName: string,
    startTime: int,
    endTime: Option<int>,
    integrityScore: int,
    recordingUrl: string,
    logs: seq<Id>)

  /** A log record: one flagged event of one interview. */
  datatype Log = Log(candidateName: string, eventType: string, timestamp: int, interview: Id)

  /** The stored score before any detail is computed. */
  const DEFAULT_SCORE: int := 100
  /** The candidate name every log gets: the log route never passes one. */
  const DEFAULT_LOG_NAME: string := "TestUser"

  /** The detail response: the interview, its resolved logs and the computed report. */
  datatype Detail = Detail(
    interview: Interview,
    logs: seq<Log>,
    duration: Duration,
    focusLostCount: nat,
    integrityScore: int,
    deductions: seq<Deduction>)

  /** The event types of a list of logs, in order. */
  function EventTypes(ls: seq<Log>): (types: seq<string>)
    ensures |types| == |ls| && forall k :: 0 <= k < |ls| ==> types[k] == ls[k].eventType
  {
    if |ls| == 0 then [] else [ls[0].eventType] + EventTypes(ls[1..])
  }

  /** One row of the admin list. */
  type Row = (Id, Interview)

  /** Rows ordered by start time, latest first. */
  predicate StartDescending(rows: seq<Row>)
  {
    forall i, j :: 0 <= i < j < |rows| ==> rows[i].1.startTime >= rows[j].1.startTime
  }

  /** Insert a row before the first row that started no later than it. */
  function InsertByStart(row: Row, rows: seq<Row>): seq<Row>
  {
    if |rows| == 0 then [row]
    else if row.1.startTime >= rows[0].1.startTime then [row] + rows
    else [rows[0]] + InsertByStart(row, rows[1..])
  }

  /** Inserting keeps the order and adds exactly the new row. */
  lemma {:induction false} InsertByStartKeepsOrder(row: Row, rows: seq<Row>)
    requires StartDescending(rows)
    ensures var r := InsertByStart(row, rows);
      && |r| == |rows| + 1
      && (forall x :: x in r <==> x == row || x in rows)
      && StartDescending(r)
  {
    if |rows| > 0 && row.1.startTime < rows[0].1.startTime {
      var tail := rows[1..];
      assert StartDescending(tail) by {
        forall i, j | 0 <= i < j < |tail| ensures tail[i].1.startTime >= tail[j].1.startTime {
          assert tail[i] == rows[i + 1] && tail[j] == rows[j + 1];
        }
      }
      InsertByStartKeepsOrder(row, tail);
      var r := InsertByStart(row, rows);
      assert r == [rows[0]] + InsertByStart(row, tail);
      forall x | x in rows ensures x in r {
        if x != rows[0] {
          var k :| 0 <= k < |rows| && rows[k] == x;
          assert tail[k - 1] == x;
        }
      }
      forall j | 1 <= j < |r| ensures rows[0].1.startTime >= r[j].1.startTime {
        var y := r[j];
        assert y in InsertByStart(row, tail);
        if y != row {
          var k :| 0 <= k < |tail| && tail[k] == y;
          assert rows[k + 1] == y;
        }
      }
    }
  }

  /** `rows` holds exactly the interviews of `m` whose ids are in `done`, once each. */
  ghost predicate Lists(rows: seq<Row>, m: map<Id, Interview>, done: set<Id>)
  {
    && done <= m.Keys
    && |rows| == |done|
    && (forall k :: 0 <= k < |rows| ==> rows[k].0 in done && m[rows[k].0] == rows[k].1)
    && (forall id :: id in done ==> (id, m[id]) in rows)
  }

  /** Inserting the row of one more id keeps `Lists`, with that id added. */
  lemma ListsInsert(rows: seq<Row>, m: map<Id, Interview>, done: set<Id>, id: Id)
    requires StartDescending(rows) && Lists(rows, m, done) && id in m && id !in done
    ensures StartDescending(InsertByStart((id, m[id]), rows))
    ensures Lists(InsertByStart((id, m[id]), rows), m, done + {id})
  {
    var row := (id, m[id]);
    InsertByStartKeepsOrder(row, rows);
    var r := InsertByStart(row, rows);
    forall k | 0 <= k < |r| ensures r[k].0 in done + {id} && m[r[k].0] == r[k].1 {
      assert r[k] in r;
      if r[k] != row {
        var j :| 0 <= j < |rows| && rows[j] == r[k];
      }
    }
    forall x | x in done + {id} ensures (x, m[x]) in r {
      if x != id {
        assert (x, m[x]) in rows;
      }
    }
  }

  class SessionStore {
    var interviews: map<Id, Interview>
    var logs: map<Id, Log>
    /** The next fresh id; every stored id is below it. */
    var nextId: Id

    /** Ids are below the counter, and every log an interview lists exists and belongs to it. */
    ghost predicate Valid()
      reads this
    {
      && (forall id :: id in interviews ==> id < nextId)
      && (forall id :: id in logs ==> id < nextId)
      && (forall id, k :: id in interviews && 0 <= k < |interviews[id].logs| ==>
            interviews[id].logs[k] in logs && logs[interviews[id].logs[k]].interview == id)
    }

    constructor ()
      ensures Valid() && interviews == map[] && logs == map[]
    {
      interviews, logs, nextId := map[], map[], 0;
    }

    /**
     * Start an interview: a new record with the start time, no end time, the default score,
     * no recording and no logs. A missing (empty) candidate name fails the schema's
     * validation, which the route reports as a server error.
     */
    method Start(candidateName: string, now: int) returns (r: Result<Id>)
      requires Valid()
      modifies this
      ensures Valid()
      ensures candidateName == "" ==>
        r == Err(ServerError) && interviews == old(interviews) && logs == old(logs)
      ensures candidateName != "" ==>
        && r.Ok? && r.value !in old(interviews) && r.value !in old(logs)
        && interviews == old(interviews)[r.value := Interview(candidateName, now, None, DEFAULT_SCORE, "", [])]
        && logs == old(logs)
    {
      if candidateName == "" {
        return Err(ServerError);
      }
      var id := nextId;
      interviews := interviews[id := Interview(candidateName, now, None, DEFAULT_SCORE, "", [])];
      nextId := nextId + 1;
      r := Ok(id);
    }

    /**
     * Log an event: a missing event type or interview id is a bad request and writes
     * nothing. Otherwise a new log is saved and its id pushed at the end of the interview's
     * list; if no interview has that id the push changes nothing, but the log is saved.
     */
    method AppendLog(eventType: string, interviewId: Option<Id>, now: int) returns (r: Result<Id>)
      requires Valid()
      modifies this
      ensures Valid()
      ensures eventType == "" || interviewId.None? ==>
        r == Err(BadRequest) && interviews == old(interviews) && logs == old(logs)
      ensures eventType != "" && interviewId.Some? ==>
        var iid := interviewId.value;
        && r.Ok? && r.value !in old(logs)
        && logs == old(logs)[r.value := Log(DEFAULT_LOG_NAME, eventType, now, iid)]
        && interviews == (if iid in old(interviews)
                          then old(interviews)[iid := old(interviews)[iid].(logs := old(interviews)[iid].logs + [r.value])]
                          else old(interviews))
    {
      if eventType == "" || interviewId.None? {
        return Err(BadRequest);
      }
      var iid := interviewId.value;
      var lid := nextId;
      logs := logs[lid := Log(DEFAULT_LOG_NAME, eventType, now, iid)];
      nextId := nextId + 1;
      if iid in interviews {
        var rec := interviews[iid];
        interviews := interviews[iid := rec.(logs := rec.logs + [lid])];
      }
      r := Ok(lid);
    }

    /**
     * Finalise after the recording upload: without a file or an interview id it is a bad
     * request; a failed upload is a server error; otherwise the recording URL and the end
     * time are set (overwriting earlier ones) if the interview exists, and nothing changes if
     * it does not.
     */
    method Finalize(interviewId: Option<Id>, hasFile: bool, uploaded: Option<string>, now: int)
      returns (r: Result<string>)
      requires Valid()
      modifies this
      ensures Valid()
      ensures logs == old(logs)
      ensures !hasFile || interviewId.None? ==> r == Err(BadRequest) && interviews == old(interviews)
      ensures hasFile && interviewId.Some? && uploaded.None? ==>
        r == Err(ServerError) && interviews == old(interviews)
      ensures hasFile && interviewId.Some? && uploaded.Some? ==>
        var iid := interviewId.value;
        && r == Ok(uploaded.value)
        && interviews == (if iid in old(interviews)
                          then old(interviews)[iid := old(interviews)[iid].(recordingUrl := uploaded.value, endTime := Some(now))]
                          else old(interviews))
    {
      if !hasFile || interviewId.None? {
        return Err(BadRequest);
      }
      if uploaded.None? {
        return Err(ServerError);
      }
      var iid := interviewId.value;
      if iid in interviews {
        var rec := interviews[iid];
        interviews := interviews[iid := rec.(recordingUrl := uploaded.value, endTime := Some(now))];
      }
      r := Ok(uploaded.value);
    }

    /** Every interview, latest start first. */
    method ListInterviews() returns (rows: seq<Row>)
      ensures StartDescending(rows)
      ensures |rows| == |interviews|
      ensures forall k :: 0 <= k < |rows| ==> rows[k].0 in interviews && interviews[rows[k].0] == rows[k].1
      ensures forall id :: id in interviews ==> (id, interviews[id]) in rows
    {
      rows := [];
      var remaining := interviews.Keys;
      ghost var done: set<Id> := {};
      while remaining != {}
        invariant remaining + done == interviews.Keys && remaining !! done
        invariant StartDescending(rows)
        invariant Lists(rows, interviews, done)
        decreases |remaining|
      {
        var id :| id in remaining;
        ListsInsert(rows, interviews, done, id);
        rows := InsertByStart((id, interviews[id]), rows);
        remaining := remaining - {id};
        done := done + {id};
      }
    }

    /** `populate`: the stored logs behind a list of ids, in list order; missing ones are dropped. */
    function Resolve(ids: seq<Id>): (ls: seq<Log>)
      reads this
      ensures |ls| <= |ids|
      ensures (forall k :: 0 <= k < |ids| ==> ids[k] in logs) ==>
        |ls| == |ids| && forall k :: 0 <= k < |ids| ==> ls[k] == logs[ids[k]]
    {
      if |ids| == 0 then []
      else (if ids[0] in logs then [logs[ids[0]]] else []) + Resolve(ids[1..])
    }

    /**
     * The detail route: not found for an unknown id; otherwise the interview with its logs
     * resolved in order, the duration, the focus-lost count, and the score and breakdown
     * folded from the logs' event types.
     */
    method GetDetail(id: Id) returns (r: Result<Detail>)
      requires Valid()
      ensures id !in interviews <==> r == Err(NotFound)
      ensures id in interviews <==> r.Ok?
      ensures r.Ok? ==>
        var rec := interviews[id];
        var types := EventTypes(r.value.logs);
        && r.value.interview == rec
        && |r.value.logs| == |rec.logs|
        && (forall k :: 0 <= k < |rec.logs| ==> r.value.logs[k] == logs[rec.logs[k]])
        && r.value.duration == SessionDuration(rec.startTime, rec.endTime)
        && r.value.focusLostCount == FocusLostCount(types)
        && r.value.integrityScore == IntegrityScore(types)
        && r.value.deductions == Deductions(types)
    {
      if id !in interviews {
        return Err(NotFound);
      }
      var rec := interviews[id];
      var resolved := Resolve(rec.logs);
      var types := EventTypes(resolved);
      var duration := SessionDuration(rec.startTime, rec.endTime);
      var focusLost := FocusLostCount(types);
      var score, deductions := ComputeScore(types);
      r := Ok(Detail(rec, resolved, duration, focusLost, score, deductions));
    }

    /**
     * Delete an interview: not found for an unknown id, changing nothing; otherwise every
     * log that belongs to it is removed, then the interview itself.
     */
    method Delete(id: Id) returns (r: Result<()>)
      requires Valid()
      modifies this
      ensures Valid()
      ensures id !in old(interviews) ==>
        r == Err(NotFound) && interviews == old(interviews) && logs == old(logs)
      ensures id in old(interviews) ==>
        && r == Ok(())
        && interviews == old(interviews) - {id}
        && logs == map l | l in old(logs) && old(logs)[l].interview != id :: old(logs)[l]
    {
      if id !in interviews {
        return Err(NotFound);
      }
      logs := map l | l in logs && logs[l].interview != id :: logs[l];
      interviews := interviews - {id};
      r := Ok(());
    }
  }
}
