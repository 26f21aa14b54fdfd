/** The in-memory store of backend/app.py: the module-level `users` and `reminders`
    dicts, which the request handlers read and update in place. Each handler is a
    method of one Store object; requests are served one at a time. */
module App {
  import opened Ledger
  import opened Reminders

  class Store {
    /** `users`: username -> record, in first-insertion order. */
    var users: UserTable
    /** `reminders`: username -> list of reminders. */
    var reminders: ReminderBook

    ghost predicate Valid()
      reads this
    {
      users.Valid() && WellFormed(reminders)
    }

    /** Both tables start empty. */
    constructor ()
      ensures Valid()
      ensures users == EmptyTable && reminders == map[]
    {
      users := EmptyTable;
      reminders := map[];
    }

    /** `log_carbon`: read the user's record (or the zero default), add the amount to
        the total, add one to the streak, and write the record back. The reminders
        are untouched. */
    method LogCarbon(username: string, carbonSaved: real)
      requires Valid()
      modifies this
      ensures Valid()
      ensures users == Log(old(users), username, carbonSaved)
      ensures reminders == old(reminders)
    {
      var u := users.Get(username);
      u := u.(totalCarbonSaved := u.totalCarbonSaved + carbonSaved);
      u := u.(streak := u.streak + 1);
      users := users.Put(username, u);
    }

    /** `get_user`: the stored record, or the zero record for an unknown user. It
        changes nothing, so in particular it does not store the zero record. */
    method GetUser(username: string) returns (r: UserRecord)
      ensures username in users.records ==> r == users.records[username]
      ensures username !in users.records ==> r == ZeroRecord
    {
      r := users.Get(username);
    }

    /** `leaderboard`: every stored user once with the stored total, larger totals
        first, equal totals in first-insertion order. It changes nothing. */
    method Leaderboard() returns (board: seq<LeaderEntry>)
      requires Valid()
      ensures board == users.Leaderboard()
      ensures ListsEachUserOnce(users, board)
      ensures SortedByTotal(board)
      ensures TiesInInsertionOrder(users, board)
    {
      board := users.Leaderboard();
      LeaderboardListsEachUserOnce(users);
      LeaderboardOrdered(users);
    }

    /** `add_reminder`: create the user's list if it is absent, then append one
        enabled reminder. The ledger is untouched. */
    method AddReminder(username: string, habit: string, frequency: string)
      requires Valid()
      modifies this
      ensures Valid()
      ensures reminders == Add(old(reminders), username, habit, frequency)
      ensures users == old(users)
    {
      if username !in reminders {
        reminders := reminders[username := []];
      }
      reminders := reminders[username := reminders[username] + [Reminder(habit, frequency, true)]];
    }

    /** `get_reminders`: the user's list, or the empty list for a user without one.
        It changes nothing. */
    method GetReminders(username: string) returns (list: seq<Reminder>)
      ensures username in reminders ==> list == reminders[username]
      ensures username !in reminders ==> list == []
      ensures Valid() ==> (|list| > 0 <==> username in reminders)
      ensures Valid() ==> forall k :: 0 <= k < |list| ==> list[k].enabled
    {
      list := ListFor(reminders, username);
    }
  }

  /** A client of the store: what the contracts above let a caller conclude. */
  method Scenario()
  {
    var store := new Store();
    store.LogCarbon("alice", 2.5);
    store.LogCarbon("bob", 5.0);
    var stranger := store.GetUser("carol");
    assert stranger == ZeroRecord;
    var board := store.Leaderboard();
    TwoUserLeaderboard();
    assert board == [LeaderEntry("bob", 5.0), LeaderEntry("alice", 2.5)];

    store.AddReminder("alice", "cycle to work", "daily");
    var alices := store.GetReminders("alice");
    var bobs := store.GetReminders("bob");
    assert alices == [Reminder("cycle to work", "daily", true)];
    assert bobs == [];
  }
}
