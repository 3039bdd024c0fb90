/**
  The persisted statistics document of the session store: per-user totals with
  a per-task breakdown, and per-day totals with the set of users active that
  day. `RecordCompletion` is what folding one finished session into the
  document does (database.py, `_save_session_stats`).
 */
module Aggregates {
  import opened Wrappers
  import opened OrderedMaps

  /** `{"sessions": …, "time": …}` for one task of one user. */
  datatype TaskStats = TaskStats(sessions: int, time: int)

  /** One entry of `data["users"]`; `lastActive` is a clock reading in seconds. */
  datatype UserRecord = UserRecord(
    totalSessions: int,
    totalTime: int,
    lastActive: Option<int>,
    tasks: OrderedMap<string, TaskStats>)

  /** One entry of `data["daily_stats"]`, keyed by the day. */
  datatype DayStats = DayStats(sessions: int, time: int, users: set<string>)

  /** The whole document: `data["users"]` keyed by user key, `data["daily_stats"]` keyed by day. */
  datatype Document = Document(
    users: OrderedMap<string, UserRecord>,
    dailyStats: map<string, DayStats>)

  ghost predicate WellFormed(doc: Document) {
    && Valid(doc.users)
    && forall k :: k in doc.users.entries ==> Valid(doc.users.entries[k].tasks)
  }

  /** `{"users": {}, "daily_stats": {}}`, the document of a store with no file. */
  function EmptyDocument(): (doc: Document)
    ensures WellFormed(doc)
    ensures |doc.users.entries| == 0 && |doc.dailyStats| == 0
  {
    Document(Empty(), map[])
  }

  /** The record a user gets on a first completed session, before it is credited. */
  function ZeroUser(): (r: UserRecord)
    ensures Valid(r.tasks)
  {
    UserRecord(0, 0, None, Empty())
  }

  function UserOf(doc: Document, key: string): UserRecord {
    if key in doc.users.entries then doc.users.entries[key] else ZeroUser()
  }

  function TaskOf(rec: UserRecord, task: string): TaskStats {
    if task in rec.tasks.entries then rec.tasks.entries[task] else TaskStats(0, 0)
  }

  function DayOf(doc: Document, day: string): DayStats {
    if day in doc.dailyStats then doc.dailyStats[day] else DayStats(0, 0, {})
  }

  /** One more session of `a` seconds on `task`, finished at `now`, in a user's record. */
  function CreditUser(rec: UserRecord, task: string, a: int, now: int): UserRecord
    requires Valid(rec.tasks)
  {
    var t := TaskOf(rec, task);
    UserRecord(
      rec.totalSessions + 1,
      rec.totalTime + a,
      Some(now),
      Put(rec.tasks, task, TaskStats(t.sessions + 1, t.time + a)))
  }

  /** One more session of `a` seconds by the user `key` on a day. */
  function CreditDay(d: DayStats, key: string, a: int): DayStats {
    DayStats(d.sessions + 1, d.time + a, d.users + {key})
  }

  /** Storing a record with a well-formed task breakdown keeps the document well formed. */
  lemma PutUserKeepsWellFormed(doc: Document, key: string, rec: UserRecord)
    requires WellFormed(doc) && Valid(rec.tasks)
    ensures WellFormed(doc.(users := Put(doc.users, key, rec)))
  {
  }

  /**
    The document after a session on `task` that lasted `a` seconds is folded in
    for the user `key`, at clock reading `now` on day `today`.
   */
  function RecordCompletion(doc: Document, key: string, task: string, a: int, now: int, today: string): (r: Document)
    requires WellFormed(doc)
    ensures WellFormed(r)
    ensures key in r.users.entries && today in r.dailyStats
  {
    var users := Put(doc.users, key, CreditUser(UserOf(doc, key), task, a, now));
    PutUserKeepsWellFormed(doc, key, CreditUser(UserOf(doc, key), task, a, now));
    Document(users, doc.dailyStats[today := CreditDay(DayOf(doc, today), key, a)])
  }

  /**
    The user's totals: a zeroed record on first use, then one more session,
    `a` more seconds and `last_active` set to `now`; the task's counters,
    starting from {0, 0}, gain one session and `a` seconds.
   */
  lemma CompletionCreditsUser(doc: Document, key: string, task: string, a: int, now: int, today: string)
    requires WellFormed(doc)
    ensures var u, u' := UserOf(doc, key), UserOf(RecordCompletion(doc, key, task, a, now, today), key);
      && u'.totalSessions == u.totalSessions + 1
      && u'.totalTime == u.totalTime + a
      && u'.lastActive == Some(now)
      && TaskOf(u', task) == TaskStats(TaskOf(u, task).sessions + 1, TaskOf(u, task).time + a)
  {
    var r := RecordCompletion(doc, key, task, a, now, today);
    assert Get(r.users, key) == Some(CreditUser(UserOf(doc, key), task, a, now));
  }

  /** In the user's task breakdown only `task` changes, and a new task goes last in the order. */
  lemma CompletionLeavesOtherTasks(doc: Document, key: string, task: string, a: int, now: int, today: string)
    requires WellFormed(doc)
    ensures var u, u' := UserOf(doc, key), UserOf(RecordCompletion(doc, key, task, a, now, today), key);
      && (forall t :: t != task ==> Get(u'.tasks, t) == Get(u.tasks, t))
      && u'.tasks.keys == if task in u.tasks.entries then u.tasks.keys else u.tasks.keys + [task]
  {
    var r := RecordCompletion(doc, key, task, a, now, today);
    assert Get(r.users, key) == Some(CreditUser(UserOf(doc, key), task, a, now));
  }

  /** Every other user's record is untouched, and a new user goes last in the order. */
  lemma CompletionLeavesOtherUsers(doc: Document, key: string, task: string, a: int, now: int, today: string)
    requires WellFormed(doc)
    ensures var r := RecordCompletion(doc, key, task, a, now, today);
      && (forall k :: k != key ==> Get(r.users, k) == Get(doc.users, k))
      && r.users.keys == if key in doc.users.entries then doc.users.keys else doc.users.keys + [key]
  {
  }

  /** Today's totals gain one session, `a` seconds and the user; every other day is untouched. */
  lemma CompletionCreditsDay(doc: Document, key: string, task: string, a: int, now: int, today: string)
    requires WellFormed(doc)
    ensures var r := RecordCompletion(doc, key, task, a, now, today);
      && (var d, d' := DayOf(doc, today), DayOf(r, today);
          d'.sessions == d.sessions + 1 && d'.time == d.time + a && d'.users == d.users + {key})
      && (forall day :: day != today ==> (day in r.dailyStats <==> day in doc.dailyStats))
      && (forall day :: day != today && day in doc.dailyStats ==> r.dailyStats[day] == doc.dailyStats[day])
  {
  }

  /** Unfolds the definition of `RecordCompletion`, as a rewriting step for its callers. */
  lemma RecordCompletionParts(doc: Document, key: string, task: string, a: int, now: int, today: string)
    requires WellFormed(doc)
    ensures RecordCompletion(doc, key, task, a, now, today) ==
      Document(Put(doc.users, key, CreditUser(UserOf(doc, key), task, a, now)),
               doc.dailyStats[today := CreditDay(DayOf(doc, today), key, a)])
  {
  }

  /** Two completions by one user on one day add the user to the day's set, and to the user order, once. */
  lemma SameDayTwice(doc: Document, key: string, t1: string, a1: int, n1: int, t2: string, a2: int, n2: int, today: string)
    requires WellFormed(doc)
    ensures var r := RecordCompletion(RecordCompletion(doc, key, t1, a1, n1, today), key, t2, a2, n2, today);
      && r.dailyStats[today].users == DayOf(doc, today).users + {key}
      && r.dailyStats[today].sessions == DayOf(doc, today).sessions + 2
      && r.users.keys == if key in doc.users.entries then doc.users.keys else doc.users.keys + [key]
  {
    var r1 := RecordCompletion(doc, key, t1, a1, n1, today);
    CompletionCreditsDay(doc, key, t1, a1, n1, today);
    CompletionLeavesOtherUsers(doc, key, t1, a1, n1, today);
    CompletionCreditsDay(r1, key, t2, a2, n2, today);
    CompletionLeavesOtherUsers(r1, key, t2, a2, n2, today);
  }

  /** With a non-negative duration no user's totals and no day's counters or user set go down. */
  lemma CompletionIsMonotone(doc: Document, key: string, task: string, a: int, now: int, today: string)
    requires WellFormed(doc)
    requires a >= 0
    ensures var r := RecordCompletion(doc, key, task, a, now, today);
      && (forall k :: k in doc.users.entries ==>
            k in r.users.entries
            && r.users.entries[k].totalSessions >= doc.users.entries[k].totalSessions
            && r.users.entries[k].totalTime >= doc.users.entries[k].totalTime)
      && (forall d :: d in doc.dailyStats ==>
            d in r.dailyStats
            && r.dailyStats[d].sessions >= doc.dailyStats[d].sessions
            && r.dailyStats[d].time >= doc.dailyStats[d].time
            && r.dailyStats[d].users >= doc.dailyStats[d].users)
  {
    var r := RecordCompletion(doc, key, task, a, now, today);
    CompletionCreditsUser(doc, key, task, a, now, today);
    CompletionLeavesOtherUsers(doc, key, task, a, now, today);
    CompletionCreditsDay(doc, key, task, a, now, today);
    forall k | k in doc.users.entries
      ensures k in r.users.entries
      ensures r.users.entries[k].totalSessions >= doc.users.entries[k].totalSessions
      ensures r.users.entries[k].totalTime >= doc.users.entries[k].totalTime
    {
      if k != key { assert Get(r.users, k) == Get(doc.users, k); }
      else { assert UserOf(r, k) == r.users.entries[k]; }
    }
    forall d | d in doc.dailyStats
      ensures d in r.dailyStats
      ensures r.dailyStats[d].sessions >= doc.dailyStats[d].sessions
      ensures r.dailyStats[d].time >= doc.dailyStats[d].time
      ensures r.dailyStats[d].users >= doc.dailyStats[d].users
    {
      if d == today { assert DayOf(r, d) == r.dailyStats[d]; }
    }
  }

  /** One finished session as `_save_session_stats` receives it: who, on what, how long, when. */
  datatype Completion = Completion(key: string, task: string, a: int, now: int, today: string)

  /** The sum of the durations of a list of completions. */
  function Total(cs: seq<Completion>): int {
    if cs == [] then 0 else cs[0].a + Total(cs[1..])
  }

  /** The completions of user `key`, in order. */
  function OfUser(cs: seq<Completion>, key: string): seq<Completion> {
    if cs == [] then [] else (if cs[0].key == key then [cs[0]] else []) + OfUser(cs[1..], key)
  }

  /** The completions of user `key` on `task`, in order. */
  function OfTask(cs: seq<Completion>, key: string, task: string): seq<Completion> {
    if cs == [] then []
    else (if cs[0].key == key && cs[0].task == task then [cs[0]] else []) + OfTask(cs[1..], key, task)
  }

  /** The completions on day `today`, in order. */
  function OnDay(cs: seq<Completion>, today: string): seq<Completion> {
    if cs == [] then [] else (if cs[0].today == today then [cs[0]] else []) + OnDay(cs[1..], today)
  }

  /** Putting one completion in front of a list adds its duration to the total. */
  lemma TotalCons(c: Completion, cs: seq<Completion>)
    ensures Total([c] + cs) == c.a + Total(cs)
  {
    assert ([c] + cs)[1..] == cs;
  }

  /** The document after the completions `cs` are folded in, in order. */
  function CompleteAll(doc: Document, cs: seq<Completion>): (r: Document)
    requires WellFormed(doc)
    ensures WellFormed(r)
    decreases |cs|
  {
    if cs == [] then doc
    else CompleteAll(RecordCompletion(doc, cs[0].key, cs[0].task, cs[0].a, cs[0].now, cs[0].today), cs[1..])
  }

  /**
    After any sequence of completions, by any users on any tasks and days, a
    user's totals have grown by the number of that user's completions and by
    the sum of their durations.
   */
  lemma {:induction false} RepeatedCompletions(doc: Document, cs: seq<Completion>, key: string)
    requires WellFormed(doc)
    ensures var u, u', mine := UserOf(doc, key), UserOf(CompleteAll(doc, cs), key), OfUser(cs, key);
      u'.totalSessions == u.totalSessions + |mine| && u'.totalTime == u.totalTime + Total(mine)
    decreases |cs|
  {
    if cs != [] {
      var c := cs[0];
      var r := RecordCompletion(doc, c.key, c.task, c.a, c.now, c.today);
      assert CompleteAll(doc, cs) == CompleteAll(r, cs[1..]);
      RepeatedCompletions(r, cs[1..], key);
      if c.key == key {
        CompletionCreditsUser(doc, c.key, c.task, c.a, c.now, c.today);
        TotalCons(c, OfUser(cs[1..], key));
      } else {
        CompletionOfOtherUser(doc, c, key);
        assert OfUser(cs, key) == OfUser(cs[1..], key);
      }
    }
  }

  /** A completion by another user leaves `key`'s record as it was. */
  lemma CompletionOfOtherUser(doc: Document, c: Completion, key: string)
    requires WellFormed(doc) && c.key != key
    ensures UserOf(RecordCompletion(doc, c.key, c.task, c.a, c.now, c.today), key) == UserOf(doc, key)
  {
    CompletionLeavesOtherUsers(doc, c.key, c.task, c.a, c.now, c.today);
    assert Get(RecordCompletion(doc, c.key, c.task, c.a, c.now, c.today).users, key) == Get(doc.users, key);
  }

  /** A completion by the same user on another task leaves the task's counters as they were. */
  lemma CompletionOnOtherTask(doc: Document, c: Completion, task: string)
    requires WellFormed(doc) && c.task != task
    ensures TaskOf(UserOf(RecordCompletion(doc, c.key, c.task, c.a, c.now, c.today), c.key), task) == TaskOf(UserOf(doc, c.key), task)
  {
    CompletionLeavesOtherTasks(doc, c.key, c.task, c.a, c.now, c.today);
    var u, u' := UserOf(doc, c.key), UserOf(RecordCompletion(doc, c.key, c.task, c.a, c.now, c.today), c.key);
    assert Get(u'.tasks, task) == Get(u.tasks, task);
  }

  /** One completion credits the counters of `key`'s `task` if it is theirs, and leaves them alone otherwise. */
  lemma CompletionOnTask(doc: Document, c: Completion, key: string, task: string)
    requires WellFormed(doc)
    ensures var t, t' := TaskOf(UserOf(doc, key), task),
                         TaskOf(UserOf(RecordCompletion(doc, c.key, c.task, c.a, c.now, c.today), key), task);
      if c.key == key && c.task == task then t' == TaskStats(t.sessions + 1, t.time + c.a) else t' == t
  {
    if c.key == key && c.task == task {
      CompletionCreditsUser(doc, c.key, c.task, c.a, c.now, c.today);
    } else if c.key == key {
      CompletionOnOtherTask(doc, c, task);
    } else {
      CompletionOfOtherUser(doc, c, key);
    }
  }

  /**
    After any sequence of completions, the counters of one user's task have
    grown by the number of that user's completions on that task and by the sum
    of their durations.
   */
  lemma {:induction false} RepeatedCompletionsOnTask(doc: Document, cs: seq<Completion>, key: string, task: string)
    requires WellFormed(doc)
    ensures var t, t', mine := TaskOf(UserOf(doc, key), task), TaskOf(UserOf(CompleteAll(doc, cs), key), task), OfTask(cs, key, task);
      t'.sessions == t.sessions + |mine| && t'.time == t.time + Total(mine)
    decreases |cs|
  {
    if cs != [] {
      var c := cs[0];
      var r := RecordCompletion(doc, c.key, c.task, c.a, c.now, c.today);
      assert CompleteAll(doc, cs) == CompleteAll(r, cs[1..]);
      RepeatedCompletionsOnTask(r, cs[1..], key, task);
      CompletionOnTask(doc, c, key, task);
      if c.key == key && c.task == task {
        TotalCons(c, OfTask(cs[1..], key, task));
      } else {
        assert OfTask(cs, key, task) == OfTask(cs[1..], key, task);
      }
    }
  }

  /**
    After any sequence of completions, a day's counters have grown by the
    number of completions on that day, whoever made them on whatever task, and
    by the sum of their durations.
   */
  lemma {:induction false} RepeatedCompletionsToday(doc: Document, cs: seq<Completion>, today: string)
    requires WellFormed(doc)
    ensures var d, d', mine := DayOf(doc, today), DayOf(CompleteAll(doc, cs), today), OnDay(cs, today);
      d'.sessions == d.sessions + |mine| && d'.time == d.time + Total(mine)
    decreases |cs|
  {
    if cs != [] {
      var c := cs[0];
      var r := RecordCompletion(doc, c.key, c.task, c.a, c.now, c.today);
      assert CompleteAll(doc, cs) == CompleteAll(r, cs[1..]);
      RepeatedCompletionsToday(r, cs[1..], today);
      CompletionCreditsDay(doc, c.key, c.task, c.a, c.now, c.today);
      if c.today == today {
        TotalCons(c, OnDay(cs[1..], today));
      } else {
        assert DayOf(r, today) == DayOf(doc, today);
        assert OnDay(cs, today) == OnDay(cs[1..], today);
      }
    }
  }
}
