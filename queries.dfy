/**
  The read-only statistics queries of the session store (database.py,
  `get_user_stats` and `get_global_stats`), as functions of the document.
 */
module Queries {
  import opened Wrappers
  import opened OrderedMaps
  import opened UserKeys
  import opened Aggregates

  // ----- get_user_stats -----

  /** `last_active` of a report: the placeholder "Никогда" for an unknown user, else the stored value. */
  datatype LastActive = Never | Recorded(at: Option<int>)

  datatype UserReport = UserReport(
    totalSessions: int,
    totalTime: int,
    todaySessions: int,
    favoriteTask: Option<string>,
    lastActive: LastActive)

  /**
    Python's `max(tasks.items(), key=time)`: walk the tasks in order and keep
    the first one seen whose time is largest so far (a later task replaces it
    only when its time is strictly greater).
   */
  function MaxByTime(e: map<string, TaskStats>, rest: seq<string>, best: string): string
    requires best in e
    requires forall k :: k in rest ==> k in e
    decreases |rest|
  {
    if rest == [] then best
    else MaxByTime(e, rest[1..], if e[rest[0]].time > e[best].time then rest[0] else best)
  }

  /** `ks[j]` has the largest time among `ks`, and every task before it has a strictly smaller one. */
  ghost predicate FirstMaximalAt(e: map<string, TaskStats>, ks: seq<string>, j: int) {
    && 0 <= j < |ks|
    && (forall i :: 0 <= i < |ks| ==> ks[i] in e)
    && (forall i :: 0 <= i < |ks| ==> e[ks[i]].time <= e[ks[j]].time)
    && (forall i :: 0 <= i < j ==> e[ks[i]].time < e[ks[j]].time)
  }

  lemma {:induction false} MaxByTimeFirst(e: map<string, TaskStats>, pre: seq<string>, rest: seq<string>, j: int)
    returns (j': int)
    requires FirstMaximalAt(e, pre, j)
    requires forall k :: k in rest ==> k in e
    ensures FirstMaximalAt(e, pre + rest, j') && (pre + rest)[j'] == MaxByTime(e, rest, pre[j])
    decreases |rest|
  {
    if rest == [] {
      assert pre + rest == pre;
      j' := j;
    } else {
      var best, x := pre[j], rest[0];
      var pre' := pre + [x];
      var jj := if e[x].time > e[best].time then |pre| else j;
      assert pre'[jj] == (if e[x].time > e[best].time then x else best);
      assert FirstMaximalAt(e, pre', jj);
      assert pre' + rest[1..] == pre + rest;
      j' := MaxByTimeFirst(e, pre', rest[1..], jj);
    }
  }

  lemma MaxByTimeIsFirstMaximal(e: map<string, TaskStats>, ks: seq<string>)
    requires ks != [] && forall k :: k in ks ==> k in e
    ensures exists j :: FirstMaximalAt(e, ks, j) && ks[j] == MaxByTime(e, ks[1..], ks[0])
  {
    assert FirstMaximalAt(e, [ks[0]], 0);
    assert [ks[0]] + ks[1..] == ks;
    var j := MaxByTimeFirst(e, [ks[0]], ks[1..], 0);
  }

  /** `favorite_task`: a task of maximal time, the first such in the task order. */
  function FavoriteTask(tasks: OrderedMap<string, TaskStats>): (fav: string)
    requires Valid(tasks) && tasks.keys != []
    ensures fav in tasks.entries
    ensures forall t :: t in tasks.entries ==> tasks.entries[t].time <= tasks.entries[fav].time
    ensures exists j :: FirstMaximalAt(tasks.entries, tasks.keys, j) && tasks.keys[j] == fav
  {
    MaxByTimeIsFirstMaximal(tasks.entries, tasks.keys);
    var fav := MaxByTime(tasks.entries, tasks.keys[1..], tasks.keys[0]);
    assert forall t :: t in tasks.entries ==> tasks.entries[t].time <= tasks.entries[fav].time by {
      forall t | t in tasks.entries ensures tasks.entries[t].time <= tasks.entries[fav].time {
        var j :| FirstMaximalAt(tasks.entries, tasks.keys, j) && tasks.keys[j] == fav;
        var i :| 0 <= i < |tasks.keys| && tasks.keys[i] == t;
      }
    }
    fav
  }

  /** How many members of a day's user set equal `key` (the list comprehension of the source). */
  function TodaySessions(day: DayStats, key: string): (n: int)
    ensures n == if key in day.users then 1 else 0
  {
    var matching := set u | u in day.users && u == key;
    assert matching == if key in day.users then {key} else {};
    |matching|
  }

  /**
    `get_user_stats(user_id)` on day `today`. The day's time share and the
    always-zero weekly fields are not part of the report.
   */
  function UserStats(doc: Document, userId: int, today: string): (r: UserReport)
    requires WellFormed(doc)
    ensures var key := UserKey(userId);
      key !in doc.users.entries ==>
        r.totalSessions == 0 && r.totalTime == 0 && r.favoriteTask == None && r.lastActive == Never
    ensures var key := UserKey(userId);
      key in doc.users.entries ==>
        var rec := doc.users.entries[key];
        r.totalSessions == rec.totalSessions && r.totalTime == rec.totalTime
        && r.lastActive == Recorded(rec.lastActive)
    ensures r.todaySessions ==
      if today in doc.dailyStats && UserKey(userId) in doc.dailyStats[today].users then 1 else 0
    ensures r.favoriteTask.Some? <==>
      UserKey(userId) in doc.users.entries && |doc.users.entries[UserKey(userId)].tasks.entries| > 0
    ensures r.favoriteTask.Some? ==>
      var tasks := doc.users.entries[UserKey(userId)].tasks;
      && r.favoriteTask.value in tasks.entries
      && (forall t :: t in tasks.entries ==> tasks.entries[t].time <= tasks.entries[r.favoriteTask.value].time)
      && exists j :: FirstMaximalAt(tasks.entries, tasks.keys, j) && tasks.keys[j] == r.favoriteTask.value
  {
    var key := UserKey(userId);
    var known := key in doc.users.entries;
    var rec := UserOf(doc, key);
    var today' := if today in doc.dailyStats && key in doc.dailyStats[today].users
                  then TodaySessions(doc.dailyStats[today], key) else 0;
    var favorite := if known && rec.tasks.keys != [] then Some(FavoriteTask(rec.tasks)) else None;
    LengthIsKeyCount(rec.tasks);
    UserReport(
      rec.totalSessions,
      rec.totalTime,
      today',
      favorite,
      if known then Recorded(rec.lastActive) else Never)
  }

  // ----- get_global_stats -----

  /**
    `get_global_stats()` on day `today`. `totalTimeSeconds` is the sum that the
    source divides by 3600 to report hours.
   */
  datatype GlobalReport = GlobalReport(
    totalUsers: int,
    totalSessions: int,
    totalTimeSeconds: int,
    activeToday: int,
    todaySessions: int)

  /** The sum of `f` over the records of the keys `ks`, in that order. */
  function SumOver(e: map<string, UserRecord>, ks: seq<string>, f: UserRecord -> int): int
    requires forall k :: k in ks ==> k in e
  {
    if ks == [] then 0 else SumOver(e, ks[..|ks| - 1], f) + f(e[ks[|ks| - 1]])
  }

  function Sessions(u: UserRecord): int { u.totalSessions }

  function Time(u: UserRecord): int { u.totalTime }

  function GlobalStats(doc: Document, today: string): (r: GlobalReport)
    requires WellFormed(doc)
    ensures r.totalUsers == |doc.users.keys|
    ensures doc.users.keys == [] ==> r.totalUsers == 0 && r.totalSessions == 0 && r.totalTimeSeconds == 0
    ensures today !in doc.dailyStats ==> r.activeToday == 0 && r.todaySessions == 0
    ensures today in doc.dailyStats ==>
      r.activeToday == |doc.dailyStats[today].users| && r.todaySessions == doc.dailyStats[today].sessions
  {
    LengthIsKeyCount(doc.users);
    var day := DayOf(doc, today);
    GlobalReport(
      |doc.users.entries|,
      SumOver(doc.users.entries, doc.users.keys, Sessions),
      SumOver(doc.users.entries, doc.users.keys, Time),
      |day.users|,
      day.sessions)
  }

  /** Replacing the record of key `k` changes a sum over distinct keys by the difference, once. */
  lemma {:induction false} SumOverUpdate(e: map<string, UserRecord>, ks: seq<string>, f: UserRecord -> int, k: string, v: UserRecord)
    requires forall x :: x in ks ==> x in e
    requires Distinct(ks)
    ensures SumOver(e[k := v], ks, f) == SumOver(e, ks, f) + (if k in ks then f(v) - f(e[k]) else 0)
  {
    if ks != [] {
      var init, last := ks[..|ks| - 1], ks[|ks| - 1];
      assert Distinct(init);
      SumOverUpdate(e, init, f, k, v);
      assert ks == init + [last];
      assert k in ks <==> k in init || k == last;
      if k == last { assert k !in init; }
    }
  }

  /** A sum does not depend on records outside the keys summed over. */
  lemma {:induction false} SumOverFrame(e: map<string, UserRecord>, ks: seq<string>, f: UserRecord -> int, k: string, v: UserRecord)
    requires forall x :: x in ks ==> x in e
    requires k !in ks
    ensures SumOver(e[k := v], ks, f) == SumOver(e, ks, f)
  {
    if ks != [] {
      SumOverFrame(e, ks[..|ks| - 1], f, k, v);
    }
  }

  /** The sum of `f` over all records after the record of `k` is set to `v`. */
  lemma SumAfterPut(m: OrderedMap<string, UserRecord>, f: UserRecord -> int, k: string, v: UserRecord)
    requires Valid(m)
    ensures var m' := Put(m, k, v);
      SumOver(m'.entries, m'.keys, f) ==
        SumOver(m.entries, m.keys, f) + f(v) - (if k in m.entries then f(m.entries[k]) else 0)
  {
    var m' := Put(m, k, v);
    assert m'.entries == m.entries[k := v] by {
      forall x ensures (x in m'.entries) == (x in m.entries[k := v]) && (x in m'.entries ==> m'.entries[x] == m.entries[k := v][x]) {
        assert Get(m', x) == (if x == k then Some(v) else Get(m, x));
      }
    }
    if k in m.entries {
      SumOverUpdate(m.entries, m.keys, f, k, v);
    } else {
      SumOverFrame(m.entries, m.keys, f, k, v);
      assert m'.keys[..|m'.keys| - 1] == m.keys;
    }
  }

  /**
    Folding in one completed session of `a` seconds adds exactly one session and
    `a` seconds to the global totals, counts a first-time user once more, and
    adds one session (and possibly one active user) to today's figures.
   */
  lemma GlobalStatsAfterCompletion(doc: Document, key: string, task: string, a: int, now: int, today: string)
    requires WellFormed(doc)
    ensures var g, g' := GlobalStats(doc, today), GlobalStats(RecordCompletion(doc, key, task, a, now, today), today);
      && g'.totalSessions == g.totalSessions + 1
      && g'.totalTimeSeconds == g.totalTimeSeconds + a
      && g'.totalUsers == g.totalUsers + (if key in doc.users.entries then 0 else 1)
      && g'.todaySessions == g.todaySessions + 1
      && g'.activeToday == g.activeToday + (if key in DayOf(doc, today).users then 0 else 1)
  {
    RecordCompletionParts(doc, key, task, a, now, today);
    CompletionCreditsDay(doc, key, task, a, now, today);
    var v := CreditUser(UserOf(doc, key), task, a, now);
    var r := RecordCompletion(doc, key, task, a, now, today);
    assert DayOf(r, today) == r.dailyStats[today];
    LengthIsKeyCount(doc.users);
    LengthIsKeyCount(r.users);
    SumAfterPut(doc.users, Sessions, key, v);
    SumAfterPut(doc.users, Time, key, v);
  }
}
