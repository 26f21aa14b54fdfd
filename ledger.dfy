/** The carbon ledger: the `users` table of backend/app.py, its writer `log_carbon`
    and its two readers `get_user` and `leaderboard`.

    The table is a Python dict, so besides its key/value pairs it carries the order in
    which keys were first inserted; `leaderboard` observes that order through ties.
    Amounts are exact reals standing in for Python floats. */
module Ledger {
  import opened Ranking

  /** One user's running record: `{"total_carbon_saved": ..., "streak": ...}`. */
  datatype UserRecord = UserRecord(totalCarbonSaved: real, streak: nat)

  /** The default `{"total_carbon_saved": 0, "streak": 0}` for an unknown user. */
  const ZeroRecord := UserRecord(0.0, 0)

  /** One row of the leaderboard: `{"username": ..., "total_carbon_saved": ...}`. */
  datatype LeaderEntry = LeaderEntry(username: string, totalCarbonSaved: real)

  /** The first index at which x occurs in s. */
  function IndexOf<T(==)>(s: seq<T>, x: T): (i: nat)
    requires x in s
    ensures i < |s| && s[i] == x
    ensures forall k :: 0 <= k < i ==> s[k] != x
  {
    if s[0] == x then 0 else 1 + IndexOf(s[1..], x)
  }

  /** A sequence without repeats has as many elements as the set of its elements. */
  lemma {:induction false} UniqueCount<T>(s: seq<T>, keys: set<T>)
    requires forall i, j :: 0 <= i < j < |s| ==> s[i] != s[j]
    requires forall x :: x in keys <==> x in s
    ensures |keys| == |s|
    decreases |s|
  {
    if s != [] {
      forall i, j | 0 <= i < j < |s[1..]| ensures s[1..][i] != s[1..][j] {
        assert s[i + 1] != s[j + 1];
      }
      forall x ensures x in keys - {s[0]} <==> x in s[1..] {
        if x in s && x != s[0] {
          var k :| 0 <= k < |s| && s[k] == x;
          assert s[1..][k - 1] == x;
        }
        if x in s[1..] {
          var k :| 0 <= k < |s[1..]| && s[1..][k] == x;
          assert s[k + 1] == x;
        }
      }
      UniqueCount(s[1..], keys - {s[0]});
    }
  }

  /** The `users` dict: a record per username, and the usernames in the order in
      which they were first inserted. */
  datatype UserTable = UserTable(records: map<string, UserRecord>, order: seq<string>)
  {
    /** The order lists every key exactly once. */
    ghost predicate Valid()
    {
      && (forall i, j :: 0 <= i < j < |order| ==> order[i] != order[j])
      && (forall name :: name in records <==> name in order)
    }

    /** `users.get(name, {"total_carbon_saved": 0, "streak": 0})`. */
    function Get(name: string): (r: UserRecord)
      ensures name in records ==> r == records[name]
      ensures name !in records ==> r == ZeroRecord
    {
      if name in records then records[name] else ZeroRecord
    }

    /** `users[name] = rec`: a new key goes to the end of the insertion order, an
        existing key keeps its place. */
    function Put(name: string, rec: UserRecord): (t: UserTable)
      ensures Valid() ==> t.Valid()
      ensures t.Get(name) == rec
      ensures forall other :: other != name ==> t.Get(other) == Get(other)
      ensures t.records.Keys == records.Keys + {name}
      ensures order <= t.order
      ensures |t.order| == if name in records then |order| else |order| + 1
    {
      UserTable(records[name := rec], if name in records then order else order + [name])
    }

    /** The place of a stored user in the insertion order. */
    function Position(name: string): nat
      requires name in order
    {
      IndexOf(order, name)
    }

    /** The stored totals, in insertion order: the keys `leaderboard` sorts by. */
    function Totals(): (keys: seq<real>)
      requires Valid()
    {
      seq(|order|, i requires 0 <= i < |order| => records[order[i]].totalCarbonSaved)
    }

    /** `leaderboard()`: the users ranked by total, largest first, ties in insertion order. */
    function Leaderboard(): (board: seq<LeaderEntry>)
      requires Valid()
      ensures |board| == |records|
      ensures forall i :: 0 <= i < |board| ==>
        board[i].username in records && board[i].totalCarbonSaved == records[board[i].username].totalCarbonSaved
    {
      var ranks := Rank(Totals(), |order|);
      UniqueCount(order, records.Keys);
      seq(|ranks|, i requires 0 <= i < |ranks| =>
        LeaderEntry(order[ranks[i]], records[order[ranks[i]]].totalCarbonSaved))
    }
  }

  /** The empty table the process starts with (`users = {}`). */
  const EmptyTable := UserTable(map[], [])

  /** The table after `log_carbon(name, amount)`: the user's record (or the zero
      default) gains `amount` and one more streak, and is written back. Any amount
      is accepted, including zero and negative ones. */
  function Log(t: UserTable, name: string, amount: real): (t': UserTable)
    ensures t.Valid() ==> t'.Valid()
    ensures t'.Get(name).totalCarbonSaved == t.Get(name).totalCarbonSaved + amount
    ensures t'.Get(name).streak == t.Get(name).streak + 1
    ensures name !in t.records ==> t'.records[name] == UserRecord(amount, 1)
    ensures name !in t.records ==> t'.order == t.order + [name]
    ensures name in t.records ==> t'.order == t.order
    ensures forall other :: other != name ==> t'.Get(other) == t.Get(other)
    ensures t'.records.Keys == t.records.Keys + {name}
  {
    var u := t.Get(name);
    t.Put(name, UserRecord(u.totalCarbonSaved + amount, u.streak + 1))
  }

  /** One `/carbon/log` request. */
  datatype LogRequest = LogRequest(username: string, carbonSaved: real)

  /** The table after serving the requests one after another. */
  function Replay(t: UserTable, reqs: seq<LogRequest>): UserTable
    decreases |reqs|
  {
    if reqs == [] then t else Replay(Log(t, reqs[0].username, reqs[0].carbonSaved), reqs[1..])
  }

  /** The sum of the amounts that the requests log for name. */
  function AmountFor(reqs: seq<LogRequest>, name: string): real
  {
    if reqs == [] then 0.0
    else (if reqs[0].username == name then reqs[0].carbonSaved else 0.0) + AmountFor(reqs[1..], name)
  }

  /** The number of requests that log for name. */
  function CountFor(reqs: seq<LogRequest>, name: string): nat
  {
    if reqs == [] then 0
    else (if reqs[0].username == name then 1 else 0) + CountFor(reqs[1..], name)
  }

  /** Whatever the interleaving with other users, each user's total grows by exactly
      the sum of that user's logged amounts and the streak by exactly the number of
      that user's logs. In particular the streak never decreases. */
  lemma {:induction false} ReplayAccumulates(t: UserTable, reqs: seq<LogRequest>, name: string)
    ensures Replay(t, reqs).Get(name).totalCarbonSaved == t.Get(name).totalCarbonSaved + AmountFor(reqs, name)
    ensures Replay(t, reqs).Get(name).streak == t.Get(name).streak + CountFor(reqs, name)
    decreases |reqs|
  {
    if reqs != [] {
      ReplayAccumulates(Log(t, reqs[0].username, reqs[0].carbonSaved), reqs[1..], name);
    }
  }

  /** Serving requests keeps the table well formed, only ever adds the users it logs
      for, and never moves a user already in the insertion order. */
  lemma {:induction false} ReplayKeepsUsersInPlace(t: UserTable, reqs: seq<LogRequest>)
    ensures t.Valid() ==> Replay(t, reqs).Valid()
    ensures t.order <= Replay(t, reqs).order
    ensures forall name :: name in Replay(t, reqs).records <==> name in t.records || CountFor(reqs, name) > 0
    decreases |reqs|
  {
    if reqs != [] {
      var t1 := Log(t, reqs[0].username, reqs[0].carbonSaved);
      ReplayKeepsUsersInPlace(t1, reqs[1..]);
    }
  }

  /** The users that the requests log for and that are not among known, once each,
      in the order of their first request. */
  function Arrivals(known: set<string>, reqs: seq<LogRequest>): seq<string>
    decreases |reqs|
  {
    if reqs == [] then []
    else if reqs[0].username in known then Arrivals(known, reqs[1..])
    else [reqs[0].username] + Arrivals(known + {reqs[0].username}, reqs[1..])
  }

  /** Serving requests appends the users new to the table to the insertion order,
      in the order of their first request, and changes nothing else in it. */
  lemma {:induction false} ReplayAppendsNewUsers(t: UserTable, reqs: seq<LogRequest>)
    ensures Replay(t, reqs).order == t.order + Arrivals(t.records.Keys, reqs)
    decreases |reqs|
  {
    if reqs != [] {
      var t1 := Log(t, reqs[0].username, reqs[0].carbonSaved);
      ReplayAppendsNewUsers(t1, reqs[1..]);
      var name := reqs[0].username;
      if name in t.records {
        assert t1.records.Keys == t.records.Keys;
      } else {
        assert Arrivals(t.records.Keys, reqs) == [name] + Arrivals(t1.records.Keys, reqs[1..]);
        assert t.order + [name] + Arrivals(t1.records.Keys, reqs[1..])
            == t.order + ([name] + Arrivals(t1.records.Keys, reqs[1..]));
      }
    }
  }

  /** The sum of the amounts. */
  function Sum(amounts: seq<real>): real
  {
    if amounts == [] then 0.0 else amounts[0] + Sum(amounts[1..])
  }

  /** Requests that log the amounts, in order, all for one user. */
  function RequestsFor(name: string, amounts: seq<real>): (reqs: seq<LogRequest>)
  {
    seq(|amounts|, i requires 0 <= i < |amounts| => LogRequest(name, amounts[i]))
  }

  lemma {:induction false} RequestsForCount(name: string, amounts: seq<real>)
    ensures AmountFor(RequestsFor(name, amounts), name) == Sum(amounts)
    ensures CountFor(RequestsFor(name, amounts), name) == |amounts|
  {
    if amounts != [] {
      assert RequestsFor(name, amounts)[1..] == RequestsFor(name, amounts[1..]);
      RequestsForCount(name, amounts[1..]);
    }
  }

  /** Starting from no record, n logs of v1..vn leave the total v1+...+vn and the
      streak n. */
  lemma LogsFromNothing(t: UserTable, name: string, amounts: seq<real>)
    requires name !in t.records
    ensures Replay(t, RequestsFor(name, amounts)).Get(name).totalCarbonSaved == Sum(amounts)
    ensures Replay(t, RequestsFor(name, amounts)).Get(name).streak == |amounts|
  {
    ReplayAccumulates(t, RequestsFor(name, amounts), name);
    RequestsForCount(name, amounts);
  }

  /** The leaderboard lists every stored user exactly once, with the stored total. */
  ghost predicate ListsEachUserOnce(t: UserTable, board: seq<LeaderEntry>)
  {
    && (forall name :: name in t.records <==> exists i :: 0 <= i < |board| && board[i].username == name)
    && (forall i, j :: 0 <= i < j < |board| ==> board[i].username != board[j].username)
    && (forall i :: 0 <= i < |board| ==>
          board[i].username in t.records &&
          board[i].totalCarbonSaved == t.records[board[i].username].totalCarbonSaved)
  }

  /** Totals never increase down the leaderboard. */
  ghost predicate SortedByTotal(board: seq<LeaderEntry>)
  {
    forall i, j :: 0 <= i < j < |board| ==> board[i].totalCarbonSaved >= board[j].totalCarbonSaved
  }

  /** Users with equal totals appear in the order in which they were first logged. */
  ghost predicate TiesInInsertionOrder(t: UserTable, board: seq<LeaderEntry>)
    requires forall i :: 0 <= i < |board| ==> board[i].username in t.order
  {
    forall i, j :: 0 <= i < j < |board| && board[i].totalCarbonSaved == board[j].totalCarbonSaved ==>
      t.Position(board[i].username) < t.Position(board[j].username)
  }

  /** A valid table's insertion order has no repeated name, so a name's position
      is the index it sits at. */
  lemma PositionAt(t: UserTable, p: nat)
    requires t.Valid() && p < |t.order|
    ensures t.Position(t.order[p]) == p
  {
  }

  /** Row i of the leaderboard is the user at the i-th ranked position. */
  lemma LeaderboardRow(t: UserTable, i: nat)
    requires t.Valid() && i < |t.Leaderboard()|
    ensures |t.Leaderboard()| == |t.order|
    ensures Rank(t.Totals(), |t.order|)[i] < |t.order|
    ensures t.Leaderboard()[i].username == t.order[Rank(t.Totals(), |t.order|)[i]]
    ensures t.Position(t.Leaderboard()[i].username) == Rank(t.Totals(), |t.order|)[i]
    ensures t.Leaderboard()[i].username in t.records
    ensures t.Leaderboard()[i].totalCarbonSaved == t.records[t.Leaderboard()[i].username].totalCarbonSaved
  {
    RankLists(t.Totals(), |t.order|);
    PositionAt(t, Rank(t.Totals(), |t.order|)[i]);
  }

  /** Every stored user has a row on the leaderboard. */
  lemma LeaderboardHasUser(t: UserTable, name: string)
    requires t.Valid() && name in t.records
    ensures exists i :: 0 <= i < |t.Leaderboard()| && t.Leaderboard()[i].username == name
  {
    var ranks := Rank(t.Totals(), |t.order|);
    RankLists(t.Totals(), |t.order|);
    var i := IndexOf(ranks, IndexOf(t.order, name));
    assert t.Leaderboard()[i].username == name;
  }

  /** `leaderboard()` lists every stored user exactly once, with the stored total. */
  lemma LeaderboardListsEachUserOnce(t: UserTable)
    requires t.Valid()
    ensures ListsEachUserOnce(t, t.Leaderboard())
  {
    var board := t.Leaderboard();
    forall name
      ensures name in t.records <==> exists i :: 0 <= i < |board| && board[i].username == name
    {
      if name in t.records {
        LeaderboardHasUser(t, name);
      }
    }
    RankOrdered(t.Totals(), |t.order|);
    forall i, j | 0 <= i < j < |board| ensures board[i].username != board[j].username {
      LeaderboardRow(t, i);
      LeaderboardRow(t, j);
      assert Precedes(t.Totals(), Rank(t.Totals(), |t.order|)[i], Rank(t.Totals(), |t.order|)[j]);
    }
  }

  /** `leaderboard()` puts larger totals first and keeps equal totals in the order
      in which the users were first logged. */
  lemma LeaderboardOrdered(t: UserTable)
    requires t.Valid()
    ensures SortedByTotal(t.Leaderboard())
    ensures TiesInInsertionOrder(t, t.Leaderboard())
  {
    var keys := t.Totals();
    var ranks := Rank(keys, |t.order|);
    var board := t.Leaderboard();
    RankOrdered(keys, |t.order|);
    forall i, j | 0 <= i < j < |board|
      ensures board[i].totalCarbonSaved >= board[j].totalCarbonSaved
      ensures board[i].totalCarbonSaved == board[j].totalCarbonSaved ==>
                t.Position(board[i].username) < t.Position(board[j].username)
    {
      LeaderboardRow(t, i);
      LeaderboardRow(t, j);
      assert Precedes(keys, ranks[i], ranks[j]);
    }
  }

  /** The insertion-order positions of the users a list names, row by row. */
  function PositionsOf(t: UserTable, board: seq<LeaderEntry>): (positions: seq<nat>)
    requires forall i :: 0 <= i < |board| ==> board[i].username in t.order
  {
    seq(|board|, i requires 0 <= i < |board| => t.Position(board[i].username))
  }

  /** A sorted list that keeps ties in insertion order names its users in ranking order. */
  lemma PositionsOfOrdered(t: UserTable, board: seq<LeaderEntry>)
    requires t.Valid()
    requires ListsEachUserOnce(t, board) && SortedByTotal(board) && TiesInInsertionOrder(t, board)
    ensures InRange(t.Totals(), PositionsOf(t, board))
    ensures Ordered(t.Totals(), PositionsOf(t, board))
  {
  }

  /** A list that names every stored user names every position of the insertion order. */
  lemma PositionsOfCover(t: UserTable, board: seq<LeaderEntry>, p: nat)
    requires t.Valid() && ListsEachUserOnce(t, board)
    ensures p in PositionsOf(t, board) <==> p < |t.order|
  {
    var positions := PositionsOf(t, board);
    if p < |t.order| {
      assert t.order[p] in t.records;
      var i :| 0 <= i < |board| && board[i].username == t.order[p];
      PositionAt(t, p);
      assert positions[i] == p;
    }
  }

  /** A list with those three properties is the leaderboard: they leave no freedom. */
  lemma LeaderboardUnique(t: UserTable, board: seq<LeaderEntry>)
    requires t.Valid()
    requires ListsEachUserOnce(t, board) && SortedByTotal(board) && TiesInInsertionOrder(t, board)
    ensures board == t.Leaderboard()
  {
    var keys := t.Totals();
    var ranks := Rank(keys, |t.order|);
    var positions := PositionsOf(t, board);
    RankLists(keys, |t.order|);
    RankOrdered(keys, |t.order|);
    PositionsOfOrdered(t, board);
    forall p: nat ensures p in positions <==> p in ranks {
      PositionsOfCover(t, board, p);
    }
    OrderedUnique(keys, positions, ranks);
    forall i | 0 <= i < |board| ensures board[i] == t.Leaderboard()[i] {
      assert t.order[positions[i]] == board[i].username;
    }
  }

  /** `leaderboard()` is exactly the list of all stored users, each once with the
      stored total, larger totals first and ties in first-insertion order. */
  lemma LeaderboardCharacterized(t: UserTable, board: seq<LeaderEntry>)
    requires t.Valid()
    ensures board == t.Leaderboard() <==>
      && ListsEachUserOnce(t, board)
      && SortedByTotal(board)
      && TiesInInsertionOrder(t, board)
  {
    LeaderboardListsEachUserOnce(t);
    LeaderboardOrdered(t);
    if ListsEachUserOnce(t, board) && SortedByTotal(board) && TiesInInsertionOrder(t, board) {
      LeaderboardUnique(t, board);
    }
  }

  /** Logging 2.5 for "alice" and then 5.0 for "bob" ranks bob first. */
  lemma TwoUserLeaderboard()
    ensures Log(Log(EmptyTable, "alice", 2.5), "bob", 5.0).Leaderboard()
         == [LeaderEntry("bob", 5.0), LeaderEntry("alice", 2.5)]
  {
    var t := Log(Log(EmptyTable, "alice", 2.5), "bob", 5.0);
    assert t.order == ["alice", "bob"];
    assert t.Totals() == [2.5, 5.0];
    assert Rank(t.Totals(), 1) == [0];
    assert Rank(t.Totals(), 2) == [1, 0];
  }
}
