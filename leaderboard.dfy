/**
  The leaderboard query of the session store (database.py, `get_leaderboard`):
  one entry per user, stably sorted by total time with the largest first, then
  cut to the first `limit` entries with Python's slice rules.
 */
module Leaderboards {
  import opened OrderedMaps
  import opened Aggregates

  /** `{"user_id": …, "total_time": …, "total_sessions": …}`. */
  datatype Entry = Entry(userKey: string, totalTime: int, totalSessions: int)

  function EntryOf(users: OrderedMap<string, UserRecord>, k: string): Entry
    requires k in users.entries
  {
    Entry(k, users.entries[k].totalTime, users.entries[k].totalSessions)
  }

  /** The list the loop builds: one entry per user, in dictionary order. */
  function Entries(users: OrderedMap<string, UserRecord>): (s: seq<Entry>)
    requires Valid(users)
    ensures |s| == |users.keys|
    ensures forall i :: 0 <= i < |s| ==> s[i] == EntryOf(users, users.keys[i])
  {
    seq(|users.keys|, i requires 0 <= i < |users.keys| => EntryOf(users, users.keys[i]))
  }

  /** The loop's list has exactly one entry per user: every user has one, and no key repeats. */
  lemma EntriesOnePerUser(users: OrderedMap<string, UserRecord>)
    requires Valid(users)
    ensures DistinctKeys(Entries(users))
    ensures forall k :: k in users.entries <==> exists i :: 0 <= i < |Entries(users)| && Entries(users)[i].userKey == k
  {
    var es := Entries(users);
    forall k | k in users.entries ensures exists i :: 0 <= i < |es| && es[i].userKey == k {
      var p :| 0 <= p < |users.keys| && users.keys[p] == k;
      assert es[p].userKey == k;
    }
  }

  ghost predicate SortedByTime(s: seq<Entry>) {
    forall i, j :: 0 <= i < j < |s| ==> s[i].totalTime >= s[j].totalTime
  }

  ghost predicate DistinctKeys(s: seq<Entry>) {
    forall i, j :: 0 <= i < j < |s| ==> s[i].userKey != s[j].userKey
  }

  /** The entries of `s` whose total time is `t`, in their order in `s`. */
  function WithTime(s: seq<Entry>, t: int): seq<Entry> {
    if s == [] then [] else (if s[0].totalTime == t then [s[0]] else []) + WithTime(s[1..], t)
  }

  /** Put `e` into a list sorted largest-first, in front of every entry whose time is not larger. */
  function Insert(e: Entry, s: seq<Entry>): (r: seq<Entry>)
    ensures multiset(r) == multiset(s) + multiset{e}
    decreases |s|
  {
    if s == [] || s[0].totalTime <= e.totalTime then
      [e] + s
    else
      assert s == [s[0]] + s[1..];
      [s[0]] + Insert(e, s[1..])
  }

  /** Inserting an entry below a bound into a list below that bound stays below it. */
  lemma InsertBounded(e: Entry, s: seq<Entry>, bound: int)
    requires e.totalTime <= bound
    requires forall x :: x in s ==> x.totalTime <= bound
    ensures forall x :: x in Insert(e, s) ==> x.totalTime <= bound
  {
    forall x | x in Insert(e, s) ensures x.totalTime <= bound {
      assert x in multiset(Insert(e, s));
      if x != e {
        assert x in multiset(s);
      }
    }
  }

  /** An entry no smaller than every entry of a sorted list can go in front of it. */
  lemma SortedCons(x: Entry, t: seq<Entry>)
    requires SortedByTime(t)
    requires forall y :: y in t ==> y.totalTime <= x.totalTime
    ensures SortedByTime([x] + t)
  {
    var r := [x] + t;
    forall i, j | 0 <= i < j < |r| ensures r[i].totalTime >= r[j].totalTime {
      assert r[j] == t[j - 1];
      if i > 0 {
        assert r[i] == t[i - 1];
      }
    }
  }

  /** The head of a sorted list bounds its tail, which is sorted too. */
  lemma SortedHead(s: seq<Entry>)
    requires SortedByTime(s) && s != []
    ensures SortedByTime(s[1..])
    ensures forall y :: y in s ==> y.totalTime <= s[0].totalTime
  {
    forall y | y in s ensures y.totalTime <= s[0].totalTime {
      var p :| 0 <= p < |s| && s[p] == y;
    }
  }

  lemma {:induction false} InsertKeepsSorted(e: Entry, s: seq<Entry>)
    requires SortedByTime(s)
    ensures SortedByTime(Insert(e, s))
    decreases |s|
  {
    if s == [] {
    } else if s[0].totalTime <= e.totalTime {
      SortedHead(s);
      SortedCons(e, s);
    } else {
      SortedHead(s);
      assert forall y :: y in s[1..] ==> y in s;
      InsertKeepsSorted(e, s[1..]);
      InsertBounded(e, s[1..], s[0].totalTime);
      SortedCons(s[0], Insert(e, s[1..]));
    }
  }

  lemma WithTimeCons(x: Entry, s: seq<Entry>, t: int)
    ensures WithTime([x] + s, t) == (if x.totalTime == t then [x] else []) + WithTime(s, t)
  {
    assert ([x] + s)[1..] == s;
  }

  /** Inserting `e` puts it first among the entries of its own time and leaves the other times alone. */
  lemma {:induction false} InsertIsStable(e: Entry, s: seq<Entry>, t: int)
    ensures WithTime(Insert(e, s), t) == (if e.totalTime == t then [e] else []) + WithTime(s, t)
    decreases |s|
  {
    if s == [] || s[0].totalTime <= e.totalTime {
      WithTimeCons(e, s, t);
    } else {
      var tail := Insert(e, s[1..]);
      InsertIsStable(e, s[1..], t);
      WithTimeCons(s[0], tail, t);
      WithTimeCons(s[0], s[1..], t);
      assert [s[0]] + s[1..] == s;
      var first := if e.totalTime == t then [e] else [];
      var head := if s[0].totalTime == t then [s[0]] else [];
      assert head == [] || first == [];
      assert head + (first + WithTime(s[1..], t)) == first + (head + WithTime(s[1..], t));
    }
  }

  /**
    `sort(key=total_time, reverse=True)`: largest total time first and a
    permutation of the input.
   */
  function SortByTime(s: seq<Entry>): (r: seq<Entry>)
    ensures |r| == |s|
    ensures multiset(r) == multiset(s)
    ensures SortedByTime(r)
  {
    if s == [] then []
    else
      assert s == [s[0]] + s[1..];
      var rest := SortByTime(s[1..]);
      InsertKeepsSorted(s[0], rest);
      var r := Insert(s[0], rest);
      assert |r| == |multiset(r)|;
      r
  }

  /** The sort is stable: entries of equal total time keep their relative order. */
  lemma {:induction false} SortIsStable(s: seq<Entry>, t: int)
    ensures WithTime(SortByTime(s), t) == WithTime(s, t)
  {
    if s != [] {
      SortIsStable(s[1..], t);
      InsertIsStable(s[0], SortByTime(s[1..]), t);
    }
  }

  lemma {:induction false} SortKeepsKeysDistinct(s: seq<Entry>)
    requires DistinctKeys(s)
    ensures DistinctKeys(SortByTime(s))
  {
    if s != [] {
      var rest := SortByTime(s[1..]);
      assert DistinctKeys(s[1..]);
      SortKeepsKeysDistinct(s[1..]);
      forall x | x in rest ensures x.userKey != s[0].userKey {
        assert x in multiset(s[1..]);
        var i :| 0 <= i < |s[1..]| && s[1..][i] == x;
        assert s[i + 1] == x;
      }
      InsertKeepsKeysDistinct(s[0], rest);
    }
  }

  /** The members of `Insert(e, s)` are `e` and the members of `s`. */
  lemma InsertMembers(e: Entry, s: seq<Entry>)
    ensures forall x :: x in Insert(e, s) <==> x == e || x in s
  {
    forall x ensures x in Insert(e, s) <==> x == e || x in s {
      assert x in Insert(e, s) <==> x in multiset(Insert(e, s));
      assert x in s <==> x in multiset(s);
    }
  }

  /** An entry whose key is new to a key-distinct list can go in front of it. */
  lemma DistinctKeysCons(x: Entry, t: seq<Entry>)
    requires DistinctKeys(t)
    requires forall y :: y in t ==> y.userKey != x.userKey
    ensures DistinctKeys([x] + t)
  {
    var r := [x] + t;
    forall i, j | 0 <= i < j < |r| ensures r[i].userKey != r[j].userKey {
      assert r[j] == t[j - 1];
      if i > 0 {
        assert r[i] == t[i - 1];
      }
    }
  }

  lemma {:induction false} InsertKeepsKeysDistinct(e: Entry, s: seq<Entry>)
    requires DistinctKeys(s)
    requires forall x :: x in s ==> x.userKey != e.userKey
    ensures DistinctKeys(Insert(e, s))
    decreases |s|
  {
    if s == [] || s[0].totalTime <= e.totalTime {
      DistinctKeysCons(e, s);
    } else {
      var rest := s[1..];
      assert DistinctKeys(rest);
      assert forall x :: x in rest ==> x in s;
      InsertKeepsKeysDistinct(e, rest);
      InsertMembers(e, rest);
      forall x | x in Insert(e, rest) ensures x.userKey != s[0].userKey {
        if x != e {
          var i :| 0 <= i < |rest| && rest[i] == x;
          assert s[i + 1] == x;
        }
      }
      DistinctKeysCons(s[0], Insert(e, rest));
    }
  }

  /** Python's `s[:limit]`: the first `limit` items, or all but the last `-limit` when `limit` is negative. */
  function Prefix<T>(s: seq<T>, limit: int): (r: seq<T>)
    ensures limit >= 0 ==> |r| == if limit < |s| then limit else |s|
    ensures limit < 0 ==> |r| == if |s| + limit > 0 then |s| + limit else 0
    ensures r == s[..|r|]
  {
    if limit >= 0 then (if limit < |s| then s[..limit] else s)
    else if |s| + limit > 0 then s[..|s| + limit] else []
  }

  ghost predicate IsPrefix<T>(a: seq<T>, b: seq<T>) {
    |a| <= |b| && a == b[..|a|]
  }

  /** The entries of a prefix with time `t` are a prefix of the entries with time `t`. */
  lemma {:induction false} WithTimeOfPrefix(s: seq<Entry>, n: nat, t: int)
    requires n <= |s|
    ensures IsPrefix(WithTime(s[..n], t), WithTime(s, t))
  {
    if n > 0 {
      assert s[..n][1..] == s[1..][..n - 1];
      WithTimeOfPrefix(s[1..], n - 1, t);
    } else {
      assert s[..n] == [];
    }
  }

  /** `get_leaderboard(limit)` over the users of the document. */
  function Leaderboard(doc: Document, limit: int): seq<Entry>
    requires WellFormed(doc)
  {
    Prefix(SortByTime(Entries(doc.users)), limit)
  }

  /** `min(limit, number of users)` entries for a non-negative limit, Python's slice rule otherwise. */
  lemma LeaderboardLength(doc: Document, limit: int)
    requires WellFormed(doc)
    ensures var b, n := Leaderboard(doc, limit), |doc.users.keys|;
      && (limit >= 0 ==> |b| == if limit < n then limit else n)
      && (limit < 0 ==> |b| == if n + limit > 0 then n + limit else 0)
  {
  }

  /** Ordered by total time, largest first; each entry is that of an existing user, no user twice. */
  lemma LeaderboardEntries(doc: Document, limit: int)
    requires WellFormed(doc)
    ensures var b := Leaderboard(doc, limit);
      && SortedByTime(b)
      && (forall i :: 0 <= i < |b| ==> b[i].userKey in doc.users.entries && b[i] == EntryOf(doc.users, b[i].userKey))
      && DistinctKeys(b)
  {
    var es := Entries(doc.users);
    var sorted := SortByTime(es);
    var b := Leaderboard(doc, limit);
    assert b == sorted[..|b|];
    SortedEntriesAreUsers(doc.users);
    assert DistinctKeys(es);
    SortKeepsKeysDistinct(es);
  }

  /** Each entry of the sorted list is the entry of an existing user. */
  lemma SortedEntriesAreUsers(users: OrderedMap<string, UserRecord>)
    requires Valid(users)
    ensures forall x :: x in SortByTime(Entries(users)) ==> x.userKey in users.entries && x == EntryOf(users, x.userKey)
  {
    var es := Entries(users);
    forall x | x in SortByTime(es) ensures x.userKey in users.entries && x == EntryOf(users, x.userKey) {
      assert x in multiset(es);
      var p :| 0 <= p < |es| && es[p] == x;
    }
  }

  /** Every user's entry has a place in the sorted list. */
  lemma PlaceInSorted(users: OrderedMap<string, UserRecord>, k: string) returns (q: int)
    requires Valid(users) && k in users.entries
    ensures 0 <= q < |SortByTime(Entries(users))| && SortByTime(Entries(users))[q] == EntryOf(users, k)
  {
    var es := Entries(users);
    var p :| 0 <= p < |users.keys| && users.keys[p] == k;
    assert es[p] == EntryOf(users, k);
    assert EntryOf(users, k) in multiset(SortByTime(es));
    q :| 0 <= q < |SortByTime(es)| && SortByTime(es)[q] == EntryOf(users, k);
  }

  /** In a sorted list, an entry whose key is not among the first `n` is no larger than any of them. */
  lemma SortedFront(s: seq<Entry>, n: int, q: int)
    requires SortedByTime(s) && 0 <= n <= |s| && 0 <= q < |s|
    requires forall j :: 0 <= j < n ==> s[..n][j].userKey != s[q].userKey
    ensures forall i :: 0 <= i < n ==> s[q].totalTime <= s[..n][i].totalTime
  {
    assert forall j :: 0 <= j < n ==> s[..n][j] == s[j];
  }

  /** No user left off the board has more total time than any user on it. */
  lemma LeaderboardIsTop(doc: Document, limit: int, k: string)
    requires WellFormed(doc)
    requires k in doc.users.entries
    requires forall j :: 0 <= j < |Leaderboard(doc, limit)| ==> Leaderboard(doc, limit)[j].userKey != k
    ensures forall i :: 0 <= i < |Leaderboard(doc, limit)| ==>
      doc.users.entries[k].totalTime <= Leaderboard(doc, limit)[i].totalTime
  {
    var sorted := SortByTime(Entries(doc.users));
    var b := Leaderboard(doc, limit);
    assert b == sorted[..|b|];
    var q := PlaceInSorted(doc.users, k);
    SortedFront(sorted, |b|, q);
  }

  /** Users of equal total time appear in dictionary order, and a large enough limit lists everybody. */
  lemma LeaderboardIsStable(doc: Document, limit: int, t: int)
    requires WellFormed(doc)
    ensures IsPrefix(WithTime(Leaderboard(doc, limit), t), WithTime(Entries(doc.users), t))
    ensures limit >= |doc.users.keys| ==> Leaderboard(doc, limit) == SortByTime(Entries(doc.users))
  {
    var sorted := SortByTime(Entries(doc.users));
    var b := Leaderboard(doc, limit);
    assert b == sorted[..|b|];
    WithTimeOfPrefix(sorted, |b|, t);
    SortIsStable(Entries(doc.users), t);
  }
}
