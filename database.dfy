/**
  The session store itself (database.py, `SimpleDatabase`): the in-memory map
  of active sessions and the statistics document, updated in place. The clock
  is a parameter: `now` is a reading in whole seconds, `today` the day key.
 */
module Database {
  import opened Wrappers
  import opened OrderedMaps
  import opened UserKeys
  import opened Aggregates
  import opened Leaderboards

  /** The session id `"{user_id}_{timestamp}"`, kept as its two parts. */
  datatype SessionId = SessionId(userId: int, startedAt: int)

  /** An active session record; `pausedAt` is absent until the session is paused. */
  datatype Session = Session(
    id: SessionId,
    task: string,
    duration: int,
    startTime: int,
    paused: bool,
    pausedAt: Option<int>,
    pausedTime: int)

  /** What the pause button reports (handlers.py). */
  datatype PauseResult = NoSession | AlreadyPaused | Paused

  const SecondsPerDay: int := 86400

  /**
    `(now - start).seconds - paused_time`. `timedelta.seconds` is only the
    seconds-within-a-day part of the difference (floor division by days, so
    it lies in 0..86399 even when `now` is earlier than `start`).
   */
  function ElapsedSeconds(startTime: int, now: int, pausedTime: int): (r: int)
    ensures 0 <= r + pausedTime < SecondsPerDay
    ensures 0 <= now - startTime < SecondsPerDay ==> r == now - startTime - pausedTime
  {
    (now - startTime) % SecondsPerDay - pausedTime
  }

  /** Whole days between start and end are lost: a session is measured modulo one day. */
  lemma {:induction false} ElapsedDropsWholeDays(startTime: int, now: int, pausedTime: int, days: nat)
    ensures ElapsedSeconds(startTime, now + days * SecondsPerDay, pausedTime) == ElapsedSeconds(startTime, now, pausedTime)
  {
    if days > 0 {
      ElapsedDropsWholeDays(startTime, now, pausedTime, days - 1);
      var n := now + (days - 1) * SecondsPerDay;
      assert now + days * SecondsPerDay == n + SecondsPerDay;
      assert (n + SecondsPerDay - startTime) % SecondsPerDay == (n - startTime) % SecondsPerDay;
    }
  }

  /**
    Folding in a session of user `a` leaves the record of every other user `b`
    as it was: their keys differ, so only `a`'s record is rewritten.
   */
  lemma CompletionLeavesOtherUserIds(doc: Document, a: int, b: int, task: string, actual: int, now: int, today: string)
    requires WellFormed(doc)
    requires a != b
    ensures Get(RecordCompletion(doc, UserKey(a), task, actual, now, today).users, UserKey(b)) == Get(doc.users, UserKey(b))
  {
    if UserKey(a) == UserKey(b) {
      UserKeyInjective(a, b);
      assert false;
    }
    CompletionLeavesOtherUsers(doc, UserKey(a), task, actual, now, today);
  }

  /**
    One user's record in `_save_session_stats`: add one session and `actual`
    seconds, stamp the time, create the task's counters as {0, 0} when
    missing, then add one session and `actual` seconds to them.
   */
  method CreditRecord(rec: UserRecord, task: string, actual: int, now: int) returns (r: UserRecord)
    requires OrderedMaps.Valid(rec.tasks)
    ensures r == CreditUser(rec, task, actual, now)
  {
    r := rec.(totalSessions := rec.totalSessions + 1, totalTime := rec.totalTime + actual, lastActive := Some(now));
    var tasks := r.tasks;
    ghost var t0 := TaskOf(rec, task);
    if task !in tasks.entries {
      tasks := Put(tasks, task, TaskStats(0, 0));
    } else {
      PutSame(tasks, task);
    }
    assert tasks == Put(rec.tasks, task, t0);
    var ts := tasks.entries[task];
    tasks := Put(tasks, task, TaskStats(ts.sessions + 1, ts.time + actual));
    PutTwice(rec.tasks, task, t0, TaskStats(t0.sessions + 1, t0.time + actual));
    r := r.(tasks := tasks);
  }

  /**
    The per-user part of `_save_session_stats` on the document: create a
    zeroed record on first use, then credit it.
   */
  method CreditUserRecord(doc: Document, key: string, task: string, actual: int, now: int) returns (doc': Document)
    requires WellFormed(doc)
    ensures WellFormed(doc')
    ensures doc' == doc.(users := Put(doc.users, key, CreditUser(UserOf(doc, key), task, actual, now)))
  {
    ghost var before := UserOf(doc, key);
    var users := doc.users;
    if key !in users.entries {
      users := Put(users, key, ZeroUser());
    } else {
      PutSame(users, key);
    }
    assert users == Put(doc.users, key, before);
    var rec := CreditRecord(users.entries[key], task, actual, now);
    users := Put(users, key, rec);
    PutTwice(doc.users, key, before, rec);
    PutUserKeepsWellFormed(doc, key, rec);
    doc' := doc.(users := users);
  }

  /**
    The per-day part of `_save_session_stats` on the document: create today's
    counters when missing, add one session and `actual` seconds, and add the
    user to the day's set.
   */
  method CreditDayRecord(doc: Document, key: string, actual: int, today: string) returns (doc': Document)
    requires WellFormed(doc)
    ensures WellFormed(doc')
    ensures doc' == doc.(dailyStats := doc.dailyStats[today := CreditDay(DayOf(doc, today), key, actual)])
  {
    var daily := doc.dailyStats;
    if today !in daily {
      daily := daily[today := DayStats(0, 0, {})];
    }
    var day := daily[today];
    assert day == DayOf(doc, today);
    daily := daily[today := DayStats(day.sessions + 1, day.time + actual, day.users + {key})];
    doc' := doc.(dailyStats := daily);
  }

  class SimpleDatabase {
    var data: Document
    var activeSessions: map<int, Session>

    /**
      The document is well formed; every active session is filed under its own
      user and has no paused time (nothing ever adds to `paused_time`).
     */
    ghost predicate Valid()
      reads this
    {
      && WellFormed(data)
      && forall u :: u in activeSessions ==> activeSessions[u].id.userId == u && activeSessions[u].pausedTime == 0
    }

    /** `__init__` with the document `_load_data` returned; the session map starts empty. */
    constructor (loaded: Document)
      requires WellFormed(loaded)
      ensures Valid()
      ensures data == loaded && activeSessions == map[]
    {
      data := loaded;
      activeSessions := map[];
    }

    /** `get_session(user_id)`. */
    function GetSession(userId: int): (r: Option<Session>)
      reads this
      ensures r.Some? <==> userId in activeSessions
      ensures r.Some? ==> r.value == activeSessions[userId]
    {
      if userId in activeSessions then Some(activeSessions[userId]) else None
    }

    /**
      `start_session(user_id, task_name, duration)`: files a fresh, unpaused
      session, replacing any earlier one of the same user.
     */
    method StartSession(userId: int, task: string, duration: int, now: int) returns (id: SessionId)
      requires Valid()
      modifies this
      ensures Valid()
      ensures id == SessionId(userId, now)
      ensures GetSession(userId) == Some(Session(id, task, duration, now, false, None, 0))
      ensures activeSessions.Keys == old(activeSessions.Keys) + {userId}
      ensures forall v :: v != userId ==> GetSession(v) == old(GetSession(v))
      ensures data == old(data)
    {
      id := SessionId(userId, now);
      activeSessions := activeSessions[userId := Session(id, task, duration, now, false, None, 0)];
    }

    /**
      The pause button (handlers.py): marks the session paused and records when,
      unless it is already paused. The paused time is never updated.
     */
    method Pause(userId: int, now: int) returns (result: PauseResult)
      requires Valid()
      modifies this
      ensures Valid()
      ensures userId !in old(activeSessions) ==> result == NoSession && activeSessions == old(activeSessions)
      ensures userId in old(activeSessions) && old(activeSessions)[userId].paused ==>
        result == AlreadyPaused && activeSessions == old(activeSessions)
      ensures userId in old(activeSessions) && !old(activeSessions)[userId].paused ==>
        && result == Paused
        && activeSessions == old(activeSessions)[userId := old(activeSessions)[userId].(paused := true, pausedAt := Some(now))]
      ensures data == old(data)
    {
      if userId !in activeSessions {
        result := NoSession;
      } else if activeSessions[userId].paused {
        result := AlreadyPaused;
      } else {
        var s := activeSessions[userId];
        activeSessions := activeSessions[userId := s.(paused := true, pausedAt := Some(now))];
        result := Paused;
      }
    }

    /**
      `end_session(user_id)`: with no active session, nothing happens and the
      result is absent; otherwise the session is removed, its measured duration
      is folded into the statistics and returned.
     */
    method EndSession(userId: int, now: int, today: string) returns (actual: Option<int>)
      requires Valid()
      modifies this
      ensures Valid()
      ensures GetSession(userId) == None
      ensures userId !in old(activeSessions) ==>
        actual == None && activeSessions == old(activeSessions) && data == old(data)
      ensures userId in old(activeSessions) ==>
        var s := old(activeSessions)[userId];
        && actual == Some(ElapsedSeconds(s.startTime, now, s.pausedTime))
        && actual.value == (now - s.startTime) % SecondsPerDay
        && 0 <= actual.value < SecondsPerDay
        && activeSessions == old(activeSessions) - {userId}
        && data == RecordCompletion(old(data), UserKey(userId), s.task, actual.value, now, today)
    {
      if userId !in activeSessions {
        return None;
      }
      var session := activeSessions[userId];
      activeSessions := activeSessions - {userId};
      var a := ElapsedSeconds(session.startTime, now, session.pausedTime);
      SaveSessionStats(userId, session, a, now, today);
      actual := Some(a);
    }

    /**
      `_save_session_stats`: fold one finished session of `actual` seconds into
      the user's record and into today's totals.
     */
    method SaveSessionStats(userId: int, session: Session, actual: int, now: int, today: string)
      requires Valid()
      modifies this`data
      ensures Valid()
      ensures data == RecordCompletion(old(data), UserKey(userId), session.task, actual, now, today)
    {
      var key := UserKey(userId);
      ghost var doc := data;
      data := CreditUserRecord(data, key, session.task, actual, now);
      data := CreditDayRecord(data, key, actual, today);
      RecordCompletionParts(doc, key, session.task, actual, now, today);
    }

    /**
      `get_leaderboard(limit)`: one entry per user in dictionary order, then
      sorted by total time (largest first, stably) and cut to `limit`.
     */
    method GetLeaderboard(limit: int) returns (board: seq<Entry>)
      requires Valid()
      ensures board == Leaderboard(data, limit)
    {
      var users: seq<Entry> := [];
      var us := data.users;
      ghost var es := Entries(us);
      var ks := us.keys;
      for i := 0 to |ks|
        invariant |users| == i
        invariant forall j :: 0 <= j < i ==> users[j] == es[j]
      {
        var rec := us.entries[ks[i]];
        users := users + [Entry(ks[i], rec.totalTime, rec.totalSessions)];
      }
      assert users == es;
      users := SortByTime(users);
      board := Prefix(users, limit);
    }
  }
}
