/** The reminder book: the `reminders` table of backend/app.py, its writer
    `add_reminder` and its reader `get_reminders`. The table is never iterated, so
    its key order plays no part and a map models it. */
module Reminders {

  /** One reminder: `{"habit": ..., "frequency": ..., "enabled": True}`. */
  datatype Reminder = Reminder(habit: string, frequency: string, enabled: bool)

  /** The `reminders` dict: a list of reminders per username. */
  type ReminderBook = map<string, seq<Reminder>>

  /** What the writer maintains: every stored list was created by an append, so it
      is not empty, and every stored reminder is enabled. */
  ghost predicate WellFormed(book: ReminderBook)
  {
    forall name :: name in book ==>
      |book[name]| > 0 && forall k :: 0 <= k < |book[name]| ==> book[name][k].enabled
  }

  /** `reminders.get(name, [])`. */
  function ListFor(book: ReminderBook, name: string): (list: seq<Reminder>)
    ensures name in book ==> list == book[name]
    ensures name !in book ==> list == []
    ensures WellFormed(book) ==> (|list| > 0 <==> name in book)
    ensures WellFormed(book) ==> forall k :: 0 <= k < |list| ==> list[k].enabled
  {
    if name in book then book[name] else []
  }

  /** The book after `add_reminder(name, habit, frequency)`: the user's list is
      created empty if absent, then one enabled reminder is appended to it. */
  function Add(book: ReminderBook, name: string, habit: string, frequency: string): (book': ReminderBook)
    ensures ListFor(book', name) == ListFor(book, name) + [Reminder(habit, frequency, true)]
    ensures forall other :: other != name ==> ListFor(book', other) == ListFor(book, other)
    ensures book'.Keys == book.Keys + {name}
    ensures WellFormed(book) ==> WellFormed(book')
  {
    var withList := if name !in book then book[name := []] else book;
    withList[name := withList[name] + [Reminder(habit, frequency, true)]]
  }

  /** One `/reminder/add` request. */
  datatype ReminderRequest = ReminderRequest(username: string, habit: string, frequency: string)

  /** The book after serving the requests one after another. */
  function AddAll(book: ReminderBook, reqs: seq<ReminderRequest>): ReminderBook
    decreases |reqs|
  {
    if reqs == [] then book
    else AddAll(Add(book, reqs[0].username, reqs[0].habit, reqs[0].frequency), reqs[1..])
  }

  /** The reminders that the requests add for name, in request order. */
  function AddedFor(reqs: seq<ReminderRequest>, name: string): seq<Reminder>
  {
    if reqs == [] then []
    else (if reqs[0].username == name then [Reminder(reqs[0].habit, reqs[0].frequency, true)] else [])
         + AddedFor(reqs[1..], name)
  }

  /** Whatever the interleaving with other users, a user's list is the old list
      followed by that user's new reminders, in the order they were added. A user
      who adds nothing keeps the old list (empty if there was none). */
  lemma {:induction false} AddAllAppendsInOrder(book: ReminderBook, reqs: seq<ReminderRequest>, name: string)
    ensures ListFor(AddAll(book, reqs), name) == ListFor(book, name) + AddedFor(reqs, name)
    decreases |reqs|
  {
    if reqs != [] {
      var book1 := Add(book, reqs[0].username, reqs[0].habit, reqs[0].frequency);
      AddAllAppendsInOrder(book1, reqs[1..], name);
    }
  }
}
