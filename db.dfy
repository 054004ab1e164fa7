/** The `memory` and `reminders` tables behind db.py, reached through one
    process-wide connection. Each table is a sequence of rows in insertion
    order; `gen_random_uuid()` is a counter of fresh identifiers and
    `CURRENT_TIMESTAMP` a clock that advances on every insert. */
module Db {
  import opened Basics
  import opened DateTimes

  /** A row of `memory` (db.py:18-28). */
  datatype MemoryRow = MemoryRow(
    id: nat,
    memoryType: string,
    title: string,
    content: string,
    tags: seq<string>,
    importance: int,
    timestamp: nat,
    memoryTime: Option<ValidDateTime>,
    updatedAt: nat)

  /** A row of `reminders` (db.py:31-37). */
  datatype ReminderRow = ReminderRow(
    id: nat,
    task: string,
    remindAt: ValidDateTime,
    createdAt: nat,
    completed: bool)

  /** What `get_reminders` selects: `(task, remind_at, completed)`. */
  type ReminderView = (string, DateTime, bool)

  /** Rows were inserted with strictly increasing timestamps. */
  predicate Chronological(rows: seq<MemoryRow>) {
    forall i, j :: 0 <= i < j < |rows| ==> rows[i].timestamp < rows[j].timestamp
  }

  /** `tags or []`. */
  function TagsOrEmpty(tags: Option<seq<string>>): (r: seq<string>)
    ensures tags.None? ==> r == []
    ensures tags.Some? ==> r == tags.value
  {
    if tags.Some? then tags.value else []
  }

  function TitleAndContent(row: MemoryRow): (string, string) {
    (row.title, row.content)
  }

  function View(row: ReminderRow): ReminderView {
    (row.task, row.remindAt, row.completed)
  }

  /** `SELECT title, content FROM memory ORDER BY timestamp DESC LIMIT limit`
      over chronologically inserted rows. */
  function Recall(rows: seq<MemoryRow>, limit: nat): (r: seq<(string, string)>)
    ensures |r| == Min(limit, |rows|)
    ensures forall i :: 0 <= i < |r| ==> r[i] == (rows[|rows| - 1 - i].title, rows[|rows| - 1 - i].content)
  {
    MapSeq(TitleAndContent, LastReversed(rows, limit))
  }

  /** `w` is what `ORDER BY timestamp DESC LIMIT limit` must return: as many
      rows as the limit allows, taken from the table, newest first, and no
      row left out is newer than a row taken. */
  ghost predicate NewestWindow(rows: seq<MemoryRow>, limit: nat, w: seq<MemoryRow>) {
    && |w| == Min(limit, |rows|)
    && (forall i :: 0 <= i < |w| ==> w[i] in rows)
    && (forall i, j :: 0 <= i < j < |w| ==> w[i].timestamp > w[j].timestamp)
    && (forall k, i :: 0 <= k < |rows| && 0 <= i < |w| && rows[k].timestamp >= w[i].timestamp ==> rows[k] in w)
  }

  /** On a chronological table, the last rows reversed are the newest window. */
  lemma LastReversedIsNewestWindow(rows: seq<MemoryRow>, limit: nat)
    requires Chronological(rows)
    ensures NewestWindow(rows, limit, LastReversed(rows, limit))
  {
    var w := LastReversed(rows, limit);
    WindowFromTable(rows, w);
    WindowNewestFirst(rows, w);
    WindowKeepsNewer(rows, w);
  }

  lemma WindowFromTable(rows: seq<MemoryRow>, w: seq<MemoryRow>)
    requires |w| <= |rows| && forall i :: 0 <= i < |w| ==> w[i] == rows[|rows| - 1 - i]
    ensures forall i :: 0 <= i < |w| ==> w[i] in rows
  {
    forall i | 0 <= i < |w| ensures w[i] in rows {
      assert w[i] == rows[|rows| - 1 - i];
    }
  }

  lemma WindowNewestFirst(rows: seq<MemoryRow>, w: seq<MemoryRow>)
    requires Chronological(rows)
    requires |w| <= |rows| && forall i :: 0 <= i < |w| ==> w[i] == rows[|rows| - 1 - i]
    ensures forall i, j :: 0 <= i < j < |w| ==> w[i].timestamp > w[j].timestamp
  {
  }

  lemma WindowKeepsNewer(rows: seq<MemoryRow>, w: seq<MemoryRow>)
    requires Chronological(rows)
    requires |w| <= |rows| && forall i :: 0 <= i < |w| ==> w[i] == rows[|rows| - 1 - i]
    ensures forall k, i :: 0 <= k < |rows| && 0 <= i < |w| && rows[k].timestamp >= w[i].timestamp ==> rows[k] in w
  {
    var n := |rows|;
    forall k, i | 0 <= k < n && 0 <= i < |w| && rows[k].timestamp >= w[i].timestamp
      ensures rows[k] in w
    {
      assert w[i] == rows[n - 1 - i];
      assert k >= n - 1 - i;
      assert rows[k] == w[n - 1 - k];
    }
  }

  /** Each reminder is due no later than the next one. */
  predicate SortedByRemindAt(s: seq<ReminderView>) {
    forall i :: 0 < i < |s| ==> Key(s[i - 1].1) <= Key(s[i].1)
  }

  /** Sorted neighbours give a sorted list: every earlier reminder is due
      no later than every later one. */
  lemma {:induction false} SortedAllPairs(s: seq<ReminderView>, i: nat, j: nat)
    requires SortedByRemindAt(s) && i <= j < |s|
    ensures Key(s[i].1) <= Key(s[j].1)
    decreases j - i
  {
    if i < j {
      SortedAllPairs(s, i, j - 1);
    }
  }

  function Insert(x: ReminderView, s: seq<ReminderView>): (r: seq<ReminderView>)
    requires SortedByRemindAt(s)
    ensures SortedByRemindAt(r)
    ensures multiset(r) == multiset(s) + multiset{x}
    ensures |r| == |s| + 1 && (r[0] == x || (s != [] && r[0] == s[0]))
  {
    if s == [] || Key(x.1) <= Key(s[0].1) then [x] + s
    else
      var t := Insert(x, s[1..]);
      assert s == [s[0]] + s[1..];
      [s[0]] + t
  }

  /** `ORDER BY remind_at ASC`: the same rows, in remind-at order (rows
      with equal times may come in any order). */
  function SortByRemindAt(s: seq<ReminderView>): (r: seq<ReminderView>)
    ensures SortedByRemindAt(r)
    ensures multiset(r) == multiset(s)
  {
    if s == [] then []
    else
      assert s == [s[0]] + s[1..];
      Insert(s[0], SortByRemindAt(s[1..]))
  }

  /** The database connection of db.py with its two tables. */
  class Store {
    var memories: seq<MemoryRow>
    var reminders: seq<ReminderRow>
    var clock: nat
    var nextId: nat

    /** Identifiers are fresh and timestamps increase in insertion order. */
    ghost predicate Valid()
      reads this
    {
      && Chronological(memories)
      && (forall i :: 0 <= i < |memories| ==> memories[i].timestamp < clock && memories[i].id < nextId)
      && (forall i, j :: 0 <= i < j < |memories| ==> memories[i].id < memories[j].id)
      && (forall i :: 0 <= i < |reminders| ==> reminders[i].createdAt < clock && reminders[i].id < nextId)
      && (forall i, j :: 0 <= i < j < |reminders| ==> reminders[i].id < reminders[j].id)
    }

    /** Empty tables, as `setup_tables` leaves a fresh database. */
    constructor ()
      ensures Valid() && memories == [] && reminders == []
    {
      memories, reminders := [], [];
      clock, nextId := 0, 0;
    }

    /** `save_memory(title, content, tags=None, importance=1, memory_time=None)`:
        one new row of type "thought"; the reminder table is untouched. */
    method SaveMemory(title: string, content: string, tags: Option<seq<string>> := None,
                      importance: int := 1, memoryTime: Option<ValidDateTime> := None)
      requires Valid()
      modifies this
      ensures Valid()
      ensures memories == old(memories) + [MemoryRow(old(nextId), "thought", title, content,
                                                     TagsOrEmpty(tags), importance, old(clock), memoryTime, old(clock))]
      ensures reminders == old(reminders)
      ensures clock > old(clock) && nextId > old(nextId)
    {
      memories := memories + [MemoryRow(nextId, "thought", title, content, TagsOrEmpty(tags),
                                        importance, clock, memoryTime, clock)];
      clock, nextId := clock + 1, nextId + 1;
    }

    /** `get_memories(limit=10)`: titles and contents of the `limit`
        newest memories, newest first. Reads only. */
    method GetMemories(limit: nat := 10) returns (items: seq<(string, string)>)
      ensures |items| == Min(limit, |memories|)
      ensures forall i :: 0 <= i < |items| ==>
        items[i] == (memories[|memories| - 1 - i].title, memories[|memories| - 1 - i].content)
    {
      items := Recall(memories, limit);
    }

    /** `add_reminder(task, remind_at)`: one new row, not completed; the
        memory table is untouched. */
    method AddReminder(task: string, remindAt: ValidDateTime)
      requires Valid()
      modifies this
      ensures Valid()
      ensures reminders == old(reminders) + [ReminderRow(old(nextId), task, remindAt, old(clock), false)]
      ensures memories == old(memories)
      ensures clock > old(clock) && nextId > old(nextId)
    {
      reminders := reminders + [ReminderRow(nextId, task, remindAt, clock, false)];
      clock, nextId := clock + 1, nextId + 1;
    }

    /** `get_reminders()`: every reminder, completed or not, earliest
        `remind_at` first. Reads only. */
    method GetReminders() returns (items: seq<ReminderView>)
      ensures SortedByRemindAt(items)
      ensures multiset(items) == multiset(MapSeq(View, reminders))
    {
      items := SortByRemindAt(MapSeq(View, reminders));
    }
  }
}
