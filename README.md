# NoProk bot session store, in Dafny

This project models `SimpleDatabase`, the session and statistics store of the
NoProk Pomodoro chat bot (`database.py`). The store keeps two pieces of state:

- the **active sessions**, an in-memory map from a numeric user id to one
  session record (task, planned duration, start time, paused flag, paused
  time);
- the **statistics document**: a `users` part holding per-user totals with a
  per-task breakdown, and a `daily_stats` part holding, per day, a session
  count, a time total and the set of users active that day.

Starting a session files a record; ending it removes the record, measures the
session and folds it into the document. The queries report a user's figures,
global figures, and a leaderboard sorted by total time.

The clock is a parameter everywhere. `now` is a reading in whole seconds and
`today` is the day key (the ISO date string). The session id
`"{user_id}_{timestamp}"` is kept as the pair of its two parts.

Modules, one per concern of the source file:

- `Wrappers` (`wrappers.dfy`): `Option`, for Python's `None`.
- `OrderedMaps` (`ordered_map.dfy`): an insertion-ordered dictionary, because
  the store iterates its user and task dictionaries and that order is
  observable (leaderboard ties, choice of favourite task).
- `UserKeys` (`user_key.dfy`): `str(user_id)`, the decimal key of the
  persisted per-user records, with its parse inverse.
- `Aggregates` (`aggregates.dfy`): the document and `RecordCompletion`, the
  effect of `_save_session_stats`.
- `Queries` (`queries.dfy`): `get_user_stats` and `get_global_stats`.
- `Leaderboards` (`leaderboard.dfy`): `get_leaderboard`.
- `Database` (`database.dfy`): the `SimpleDatabase` class, whose methods update
  `activeSessions` and `data` in place.

In four places the code behaves differently from what a reader might expect;
the model follows the code:

- A second `start_session` for the same user silently replaces the first. The
  refusal happens in the caller (`handlers.py:47`), not in the store.
- The measured duration is `(now - start).seconds - paused_time`.
  `timedelta.seconds` is only the seconds-within-a-day part, so the store
  measures a session modulo one day (`ElapsedSeconds`, `ElapsedDropsWholeDays`).
- Leaderboard ties are not left undefined. Python's sort is stable, also with
  `reverse=True`, so users of equal time keep dictionary (insertion) order.
- Nothing ever adds to `paused_time`. The pause button sets only `paused`
  and `paused_at`, so the class invariant keeps every session's
  `pausedTime` at 0, and the deduction at `database.py:55` never changes
  the result.

## Model

| member | source | states |
|---|---|---|
| `OrderedMaps.Put` | database.py:70-76 | `d[k] = v` on a Python dict: the dictionary becomes the old one with `k` mapped to `v`. A new key goes to the end of the iteration order, an existing key keeps its place, and the order stays duplicate-free and matches the dictionary. |
| `OrderedMaps.PutTwice` | database.py:86-89 | Inserting a zeroed entry and then overwriting it leaves the same dictionary as a single assignment of the final value. |
| `OrderedMaps.LengthIsKeyCount` | database.py:142 | `len(d)` equals the number of keys in the iteration order. |
| `UserKeys.UserKeyRoundTrip` | database.py:64 | `int(str(user_id)) == user_id` for every integer id, negative ones included. |
| `UserKeys.UserKeyInjective` | database.py:64 | Two different user ids never get the same record key. |
| `Aggregates.EmptyDocument` | database.py:19-20 | The default document `{"users": {}, "daily_stats": {}}` is well formed and has no users and no days. |
| `Aggregates.RecordCompletion` | database.py:62-99 | The document after one session is folded in is well formed again: user and task orders stay duplicate-free and every stored order matches its dictionary. Afterwards the user has a record and today has an entry. |
| `Aggregates.CompletionCreditsUser` | database.py:70-89 | The user's `total_sessions` rises by 1 and `total_time` by `a`, starting from a zeroed record on first use, and `last_active` becomes `now`. The task's counters rise by 1 session and `a` seconds, starting from `{0, 0}`. |
| `Aggregates.CompletionLeavesOtherTasks` | database.py:86-89 | In that user's task breakdown, every other task is unchanged. A new task goes last in the task order, and an existing one keeps its place. |
| `Aggregates.CompletionLeavesOtherUsers` | database.py:70-82 | Every other user's record is unchanged. A new user goes last in the user order, and an existing one keeps its place. |
| `Aggregates.CompletionCreditsDay` | database.py:91-99 | Today's counters rise by 1 session and `a` seconds, starting from `{0, 0, set()}`, and the user joins today's set. Every other day is unchanged, and no day appears or disappears except today. |
| `Aggregates.SameDayTwice` | database.py:94-99 | Two completions by one user on one day add that user to the day's set once, add two sessions, and list the user once. |
| `Aggregates.CompletionIsMonotone` | database.py:78-99 | With a non-negative duration, no user's totals and no day's counters or user set go down. |
| `Aggregates.RepeatedCompletions` | database.py:70-81 | After any sequence of completed sessions, by any users on any tasks, clock readings and days, a user's `total_sessions` has grown by the number of that user's sessions in it, and `total_time` by the sum of their durations. |
| `Aggregates.CompletionOnTask` | database.py:70-89 | One completed session credits a user's task counters by one session and its duration if it is that user's session on that task, and leaves them unchanged otherwise. |
| `Aggregates.RepeatedCompletionsOnTask` | database.py:70-89 | After any sequence of completed sessions, a user's task counters have grown by the number of that user's sessions on that task in it, and by the sum of their durations. Sessions of other users, on other tasks, at any clock reading or day leave them alone. |
| `Aggregates.RepeatedCompletionsToday` | database.py:91-98 | After any sequence of completed sessions, a day's counters have grown by the number of sessions in it that ended on that day, whoever made them and on whatever task, and by the sum of their durations. |
| `Queries.FavoriteTask` | database.py:131-133 | `max(tasks.items(), key=time)` picks a task: the chosen task exists, no task has more time, and no task before it in dictionary order has as much. |
| `Queries.TodaySessions` | database.py:124-127 | Counting the members of the day's user set that equal the user key gives 1 if the user is in the set and 0 otherwise. |
| `Queries.UserStats` | database.py:104-135 | For an unknown user: zero totals, no favourite task, and `last_active` is the "Никогда" placeholder. For a known user: that user's stored totals and `last_active`. `today_sessions` is 1 exactly when today's entry exists and lists the user, else 0. A favourite task is reported exactly when the user has tasks. It is a task of maximal time, and no task before it in dictionary order has as much, which is how `max` breaks ties. |
| `Queries.GlobalStats` | database.py:137-147 | `total_users` is the number of user records. If today has no entry, `active_today` and `today_sessions` are 0; otherwise they are the size of today's user set and today's session count. With no users, all totals are 0. |
| `Queries.GlobalStatsAfterCompletion` | database.py:141-146 | After one completed session of `a` seconds, the global session total rises by exactly 1 and the global time total by `a`. The user count rises by 1 only for a first-time user. Today's session count rises by 1, and today's active-user count by 1 only if the user was not yet active today. |
| `Leaderboards.Entries` | database.py:151-157 | The list built by the loop holds one entry per user, in dictionary order, each carrying that user's key, `total_time` and `total_sessions`. |
| `Leaderboards.EntriesOnePerUser` | database.py:151-157 | The loop's list has exactly one entry per user: every user has an entry, every entry is a user's, and no key appears twice. |
| `Leaderboards.SortByTime` | database.py:160 | `sort(key=total_time, reverse=True)` returns a permutation of the list, largest total time first. |
| `Leaderboards.SortIsStable` | database.py:160 | The sort is stable: for every total time, the entries with that time appear in the same order as before sorting. |
| `Leaderboards.Prefix` | database.py:161 | Python's `s[:limit]`: the result is a prefix of `s`. It has `min(limit, len(s))` items for a non-negative limit, and `max(0, len(s) + limit)` items for a negative one. |
| `Leaderboards.LeaderboardLength` | database.py:149-161 | The leaderboard has `min(limit, number of users)` entries for a non-negative limit, and follows the slice rule for a negative one. |
| `Leaderboards.LeaderboardEntries` | database.py:149-161 | Entries are ordered by total time, largest first. Each entry is the entry of an existing user, and no user appears twice. |
| `Leaderboards.LeaderboardIsTop` | database.py:149-161 | No user left off the leaderboard has more total time than any user on it. |
| `Leaderboards.LeaderboardIsStable` | database.py:149-161 | Users of equal total time appear in dictionary order. A limit of at least the number of users lists every user. |
| `Database.ElapsedSeconds` | database.py:54-55 | The measured duration plus the paused time lies in 0..86399. For a session shorter than a day, it is exactly the wall-clock difference minus the paused time. |
| `Database.ElapsedDropsWholeDays` | database.py:55 | Whole days between start and end do not count: ending a session any number of days later gives the same measured duration. |
| `Database.CompletionLeavesOtherUserIds` | database.py:64-82 | Folding in a session of user `a` leaves the record of every other user id `b` exactly as it was, because `str(a)` and `str(b)` differ. |
| `Database.SimpleDatabase.constructor` | database.py:7-10 | The store starts from the loaded document with no active sessions, and its invariant holds. |
| `Database.SimpleDatabase.GetSession` | database.py:43-45 | Returns the user's active session if there is one, and nothing otherwise. |
| `Database.SimpleDatabase.StartSession` | database.py:28-41 | Returns the id built from the user and the start time. Afterwards `get_session(u)` holds the task, the duration, start `now`, `paused = False`, no `paused_at` and `paused_time = 0`. An earlier session of `u` is replaced. The other users' sessions and the document are unchanged. |
| `Database.SimpleDatabase.Pause` | handlers.py:397-411 | With no session: reports it and changes nothing. Already paused: reports it and changes nothing. Otherwise: sets `paused` and `paused_at = now`, touches nothing else (in particular not `paused_time`), and keeps the invariant. |
| `Database.SimpleDatabase.EndSession` | database.py:47-60 | With no active session: returns None and changes neither the sessions nor the document. Otherwise: removes exactly that user's session and returns `((now - start) mod 86400) - paused_time`, which under the invariant is `(now - start) mod 86400`, in 0..86399. The document becomes `RecordCompletion` of the old one with that duration. Either way `get_session(u)` is None afterwards. |
| `Database.SimpleDatabase.SaveSessionStats` | database.py:62-101 | Leaves the document equal to `RecordCompletion` of the old document for `str(user_id)`, the session's task and the measured duration. |
| `Database.CreditRecord` | database.py:79-89 | The in-place steps on one user's record (add a session, the duration and the timestamp, then create the task's counters when missing and credit them) give exactly `CreditUser` of the record. |
| `Database.CreditUserRecord` | database.py:70-89 | The per-user steps on the document (create a zeroed record on first use, then credit it) yield a well-formed document in which only `users[str(user_id)]` has changed. |
| `Database.CreditDayRecord` | database.py:94-99 | The per-day steps (create today's counters when missing, credit them, add the user to the day's set) yield a well-formed document in which only `daily_stats[today]` has changed. |
| `Database.SimpleDatabase.GetLeaderboard` | database.py:149-161 | The loop-built, sorted and cut list equals `Leaderboard(data, limit)`, so every `Leaderboards` lemma above applies to what the method returns. |

Some definitions have no row of their own, because their properties are
stated by the lemmas about them:

- `UserKeys.UserKey` (`str(user_id)`, database.py:64): see `UserKeyRoundTrip`
  and `UserKeyInjective`.
- `Aggregates.ZeroUser` (database.py:71-76), `Aggregates.CreditUser`
  (database.py:79-89) and `Aggregates.CreditDay` (database.py:97-99): the
  building blocks of `RecordCompletion`. `CompletionCreditsUser`,
  `CompletionLeavesOtherTasks` and `CompletionCreditsDay` state what they do,
  and `CreditRecord` and `CreditDayRecord` prove the in-place steps equal to
  them.
- `Queries.MaxByTime` (the `max` at database.py:132): see `FavoriteTask`,
  whose contract says the fold returns the first task of maximal time.
- `Queries.SumOver` (the `sum`s at database.py:143-144): see
  `GlobalStatsAfterCompletion`.
- `Leaderboards.Leaderboard` (database.py:149-161): see `LeaderboardLength`,
  `LeaderboardEntries`, `LeaderboardIsTop` and `LeaderboardIsStable`, and
  `GetLeaderboard`, which is proved equal to it.

## Left out

- File I/O in `_load_data` and `_save_data`. The constructor takes the already-loaded document, and saving changes nothing in memory. A document without a `users` or `daily_stats` key (a hand-edited file) has no counterpart in this typed model, so the source's re-creation of a missing top-level key is not modelled.
- `json.dump` of the Python `set` of a day's users would raise during `_save_data`, after the in-memory update. Only the in-memory effect is modelled.
- The default `limit=10` of `get_leaderboard`: Dafny has no default arguments, so the limit is always passed. The one caller passes 10 (handlers.py:324).
- Floating-point results: `total_time_hours` (the model keeps its integer numerator, `totalTimeSeconds`) and `today_time`, the day's time divided by that day's number of users.
- `week_sessions` and `week_time` of `get_user_stats`: they are the constant 0. The unused `period` argument is also left out.
- The clocks. `datetime.now()` and `date.today()` are parameters; sub-second precision is not modelled. The second `datetime.now()` reading for `last_active` is taken to equal the one used for the duration.
- The session-id string formatting from a float timestamp. The id is the structured pair (user id, start time).
- Database.ElapsedSeconds: sub-second parts of the two timestamps are ignored, so the floor in `timedelta.seconds` is not modelled below one second.
- Everything else in `handlers.py` except the pause button: routing, conversation-state prompts, message text, and the asyncio timer task `run_timer`, whose behaviour depends on cooperative interleaving and network sends.
- `config.py`, `main.py` and `test_token.py`: environment and token loading, keyboard construction, bot start-up and connectivity checks.
