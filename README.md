# Eco-coach backend: the in-memory store

This project models the in-memory store of the eco-coach web backend (`backend/app.py`):

- the `users` table, written by `log_carbon` and read by `get_user` and `leaderboard`;
- the `reminders` table, written by `add_reminder` and read by `get_reminders`;
- the fixed catalog of challenges that `daily_challenge` picks from.

Modules:

- `Ranking` (ranking.dfy) computes Python's stable `sorted(..., reverse=True)` over a list of real keys. It ranks the input positions by "larger key first, then earlier position first". It proves that the ranking lists every position once, in that order, and that it is the only list that does.
- `Ledger` (ledger.dfy) holds the `users` dict as a `UserTable`: a map from username to record, plus the order in which usernames were first inserted. A Python dict keeps that order, and `leaderboard` shows it in how ties come out. The module has the dict's `get` and assignment, the `log_carbon` step `Log`, a replay of any run of log requests, and the leaderboard with its characterisation.
- `Reminders` (reminders.dfy) holds the `reminders` dict, the `add_reminder` step `Add` and a replay of any run of add requests.
- `Challenges` (challenges.dfy) holds the catalog and the pick.
- `App` (app.dfy) has the class `Store`. Its two fields are the two module-level dicts. Each request handler is a method. The writers `modifies this` and are specified by `Log` and `Add`. The readers have no `modifies` clause, so they cannot store anything, including a default record.

Carbon amounts are exact `real`s standing in for Python floats. The handlers do not check the sign of `carbon_saved`, so the model accepts any amount. Only the streak is monotone. A total can go down.

The model follows what the code does, including where a reader might expect something else:

- The code keeps no date-keyed cache of the daily challenge. Each call picks again from the catalog.
- The code does not reject a negative `carbon_saved`. So a total is not guaranteed to be non-negative or non-decreasing.
- Ties on the leaderboard are not left to the implementation. Python's sort is stable and dicts iterate in insertion order, so equal totals come out in the order in which the users were first logged.

## Model

| member | source | states |
|---|---|---|
| `Ledger.UserTable.Get` | backend/app.py:84 | `users.get(name, default)`, also used by `log_carbon` at line 76, returns the stored record of a stored user and the zero record {0, 0} for any other name. |
| `Ledger.UserTable.Put` | backend/app.py:79 | Dict assignment keeps a well-formed table well formed. Here well formed means the insertion order lists each key exactly once. Afterwards `get` of that key returns the new record and `get` of every other key is unchanged. The key set gains at most that key. The old insertion order is a prefix of the new one and grows only for a new key. |
| `Ledger.Log` | backend/app.py:76-79 | One `log_carbon` keeps the table well formed. It adds exactly the amount to the user's total and exactly 1 to the streak, whatever the amount, including 0 or negative. An unknown user gets the record (amount, 1) and is appended to the insertion order. A known user keeps their place. Every other user's record and membership are unchanged. |
| `Ledger.ReplayAccumulates` | backend/app.py:75-79 | Over any sequence of log requests for any users, each user's total grows by the sum of that user's amounts and the streak by the number of that user's requests. So the streak never decreases. |
| `Ledger.ReplayAppendsNewUsers` | backend/app.py:76-79 | Over any sequence of log requests, the insertion order becomes the old order followed by the users new to the table, once each, in the order of their first request. This is the order that breaks leaderboard ties. |
| `Ledger.ReplayKeepsUsersInPlace` | backend/app.py:76-79 | Serving log requests keeps the table well formed. It never moves a user already in the insertion order. A user is stored afterwards iff they were stored before or were logged for. |
| `Ledger.LogsFromNothing` | backend/app.py:76-79 | From no record, n logs of v1..vn for one user leave total v1+...+vn and streak n. |
| `Ledger.UserTable.Leaderboard` | backend/app.py:87-89 | The leaderboard has one row per stored user, and every row names a stored user with that user's stored total. |
| `Ledger.LeaderboardListsEachUserOnce` | backend/app.py:87-89 | The leaderboard has a row for a username iff that user is stored. No username appears twice. Each row carries the stored total. |
| `Ledger.LeaderboardOrdered` | backend/app.py:88 | Totals never increase down the leaderboard. Rows with equal totals are in first-insertion order of their users. |
| `Ledger.LeaderboardUnique` | backend/app.py:88-89 | Any list that lists each stored user once with the stored total, is sorted by total, and keeps ties in insertion order equals the leaderboard. |
| `Ledger.LeaderboardCharacterized` | backend/app.py:87-89 | A list is the leaderboard iff it has those three properties. |
| `Ledger.TwoUserLeaderboard` | backend/app.py:74-89 | Logging 2.5 for alice and then 5.0 for bob gives the leaderboard [bob 5.0, alice 2.5]. |
| `Ranking.Insert` | backend/app.py:88 | Inserting a position into a ranking gives a list one longer that holds exactly that position and the old ones. |
| `Ranking.InsertKeepsOrdered` | backend/app.py:88 | Inserting a new position into a list in ranking order keeps it in ranking order. |
| `Ranking.Rank` | backend/app.py:88 | The ranking of n positions has n elements, each a position of the key list. |
| `Ranking.RankLists` | backend/app.py:88 | The ranking of n positions contains exactly the positions 0..n-1. |
| `Ranking.RankOrdered` | backend/app.py:88 | The ranking puts larger keys first, and equal keys in input order. This is what a stable sort with `reverse=True` produces. |
| `Ranking.OrderedUnique` | backend/app.py:88 | Two lists of the same positions that are both in ranking order are equal, so the stable sort has exactly one correct result. |
| `Reminders.Add` | backend/app.py:103-105 | After `add_reminder` the user's list is the old list (or the empty list) followed by exactly one `{habit, frequency, enabled: true}` entry. Every other user's list is unchanged. The key set gains at most that user. Non-empty, all-enabled lists stay so. |
| `Reminders.ListFor` | backend/app.py:99 | `reminders.get(name, [])` returns the stored list of a user who has one and the empty list otherwise. In a table kept by `add_reminder`, the list is non-empty iff the user has one, and every entry is enabled. |
| `Reminders.AddAllAppendsInOrder` | backend/app.py:102-105 | Over any sequence of add requests, a user's list is the old list followed by that user's new reminders in request order. A user who adds nothing keeps the old list, or still has none. |
| `Challenges.DailyChallenge` | backend/app.py:93-94 | The daily challenge is always an entry of the fixed three-entry catalog. |
| `Challenges.EveryChallengeCanBeDrawn` | backend/app.py:49-53 | Every catalog entry is the answer for some draw of `random.choice`. |
| `App.Store.constructor` | backend/app.py:47-48 | Both tables start empty. |
| `App.Store.LogCarbon` | backend/app.py:75-80 | The ledger becomes `Log` of the old ledger, which keeps it well formed. The reminder table is unchanged. |
| `App.Store.GetUser` | backend/app.py:83-84 | Returns the stored record, or {0, 0} for an unknown user. It modifies nothing, so no record is inserted. |
| `App.Store.Leaderboard` | backend/app.py:87-89 | Returns the ranked view: each stored user once with the stored total, sorted non-increasingly, ties in first-insertion order. It modifies nothing. |
| `App.Store.AddReminder` | backend/app.py:102-106 | The reminder table becomes `Add` of the old one. The ledger is unchanged. |
| `App.Store.GetReminders` | backend/app.py:98-99 | Returns the stored list, or the empty list for a user without one. In a valid store the list is non-empty iff the user has one, and every entry is enabled. It modifies nothing, so no list is inserted. |

## Left out

- The `/chat` handler (backend/app.py:56-71) is a call to a third-party completion service whose errors are swallowed into a fixed fallback reply. It is a foreign network call.
- Application setup, static files, the index page, CORS and loading the API key (backend/app.py:1-29) are framework plumbing and I/O.
- The request models (backend/app.py:32-44) are schema validation and type coercion done by a library. The model receives usernames as strings and amounts as reals.
- The confirmation messages of `log_carbon` and `add_reminder` (backend/app.py:80, 106) are not modelled. The first one depends on float-to-text formatting.
- IEEE-754 rounding is not modelled: totals are exact reals. Reals have no NaN or infinity, so the model does not cover how `sorted` orders a NaN total. Python also keeps the default total as the integer `0` until the first addition, and stores the catalog's `5` as an integer. The model uses the reals `0.0` and `5.0`.
- `Challenges.DailyChallenge`: the distribution of `random.choice` is not modelled. The drawn index is a parameter.
- Aliasing is not modelled. `get_user` and `get_reminders` return the stored dict or list object itself, but the model returns values. The web layer serialises the response at once, so no caller can change the tables through it.
- Concurrency is not modelled. The handlers hold no locks. The model serves requests one at a time as sequential method calls.
