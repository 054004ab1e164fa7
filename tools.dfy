/** The two agent tools of tools.py: `memory_tool` saves its input as a
    memory titled by its first 50 characters; `reminder_tool` reads
    `"task | YYYY-MM-DD HH:MM"` and schedules a reminder. */
module Tools {
  import opened Basics
  import opened PyStr
  import opened DateTimes
  import opened Db

  const TitleLength: nat := 50

  /** `info[:50]`: the title is the input's first 50 characters, or all of
      it when it is shorter. */
  function Title(info: string): (t: string)
    ensures t <= info
    ensures |t| == Min(TitleLength, |info|)
    ensures |info| <= TitleLength ==> t == info
  {
    Take(info, TitleLength)
  }

  /** The reply of `memory_tool`: the title, quoted, can be read back. */
  function MemoryReply(title: string): (r: string)
    ensures |r| == |title| + 30
    ensures r[..29] == "Saved to memory with title: '" && r[29..29 + |title|] == title && r[|r| - 1] == '\''
  {
    "Saved to memory with title: '" + title + "'"
  }

  /** `memory_tool(info)`: always stores exactly one memory, whose content
      is the whole input, and reports its title. */
  method MemoryTool(store: Store, info: string) returns (reply: string)
    requires store.Valid()
    modifies store
    ensures store.Valid()
    ensures store.memories == old(store.memories) + [MemoryRow(old(store.nextId), "thought", Title(info), info,
                                                               [], 1, old(store.clock), None, old(store.clock))]
    ensures store.reminders == old(store.reminders)
    ensures reply == MemoryReply(Title(info))
  {
    var title := Title(info);
    store.SaveMemory(title, info);
    reply := MemoryReply(title);
  }

  /** What a reminder tool decides before touching the store: schedule the
      task at a time with a reply, or refuse with a reply. */
  datatype ReminderPlan =
    | Schedule(task: string, remindAt: ValidDateTime, reply: string)
    | Refuse(reply: string)

  const FailurePrefix := "Failed to set reminder: "

  /** `task, time_str = text.split("|")`: the two sides of the only `|`, or
      the `ValueError` text of the failed unpacking. */
  function SplitTaskAndTime(text: string): (r: Result<(string, string), string>)
    ensures r.Success? <==> Count(text, '|') == 1
    ensures r.Success? ==> text == r.value.0 + "|" + r.value.1 && '|' !in r.value.0 && '|' !in r.value.1
    ensures r.Failure? ==> r.error == if Count(text, '|') == 0
                                     then "not enough values to unpack (expected 2, got 1)"
                                     else "too many values to unpack (expected 2)"
  {
    var parts := Split(text, '|');
    SplitCount(text, '|');
    JoinSplit(text, '|');
    if |parts| == 2 then
      assert parts[1..] == [parts[1]];
      Success((parts[0], parts[1]))
    else if |parts| < 2 then Failure("not enough values to unpack (expected 2, got 1)")
    else Failure("too many values to unpack (expected 2)")
  }

  /** `reminder_tool` as written: `datetime` names the module (tools.py
      line 2), so `datetime.strptime` raises `AttributeError` on every input
      that gets past the split; no input is ever scheduled. */
  function PlanReminderAsWritten(text: string): (p: ReminderPlan)
    ensures p.Refuse?
    ensures Count(text, '|') == 1 ==> p.reply == FailurePrefix + "module 'datetime' has no attribute 'strptime'"
  {
    match SplitTaskAndTime(text)
    case Failure(e) => Refuse(FailurePrefix + e)
    case Success(_) => Refuse(FailurePrefix + "module 'datetime' has no attribute 'strptime'")
  }

  /** `reminder_tool` with `datetime.datetime.strptime`: the stripped text
      before the `|` is the task, the stripped text after it is read with
      '%Y-%m-%d %H:%M'; any failure becomes the reply. */
  function PlanReminder(text: string): (p: ReminderPlan)
    ensures p.Schedule? <==> SplitTaskAndTime(text).Success? && ParseMinutes(Strip(SplitTaskAndTime(text).value.1)).Success?
    ensures p.Schedule? ==>
      var (task, time) := SplitTaskAndTime(text).value;
      && p.task == Strip(task)
      && p.remindAt == ParseMinutes(Strip(time)).value
      && p.remindAt.second == 0
      && FormatMinutes(p.remindAt) == Strip(time)
      && p.reply == "Reminder set for '" + Strip(task) + "' at " + FormatSeconds(p.remindAt)
    ensures p.Refuse? ==> |p.reply| >= |FailurePrefix| && p.reply[..|FailurePrefix|] == FailurePrefix
  {
    match SplitTaskAndTime(text)
    case Failure(e) => Refuse(FailurePrefix + e)
    case Success((task, time)) =>
      match ParseMinutes(Strip(time))
      case Failure(te) => Refuse(FailurePrefix + TimeErrorMessage(te))
      case Success(at) =>
        FormatParse(Strip(time));
        Schedule(Strip(task), at, "Reminder set for '" + Strip(task) + "' at " + FormatSeconds(at))
  }

  /** The documented input shape, `"<task> | <YYYY-MM-DD HH:MM>"`, is always
      scheduled with the stripped task and exactly that time. */
  lemma DocumentedInputIsScheduled(task: string, at: ValidDateTime)
    requires '|' !in task && at.second == 0
    ensures PlanReminder(task + " | " + FormatMinutes(at)) == Schedule(Strip(task), at,
              "Reminder set for '" + Strip(task) + "' at " + FormatSeconds(at))
  {
    var f := FormatMinutes(at);
    var text := task + " | " + f;
    SplitDocumented(task, f);
    assert SplitTaskAndTime(text) == Success((task + [' '], [' '] + f));
    StripAppendSpace(task, ' ');
    assert Strip(task + [' ']) == Strip(task);
    StripPrependSpace(' ', f);
    FormattedIsTrimmed(at);
    StripTrimmed(f);
    assert Strip([' '] + f) == f;
    ParseFormat(at);
    assert ParseMinutes(f) == Success(at);
  }

  lemma FormattedIsTrimmed(at: ValidDateTime)
    ensures Trimmed(FormatMinutes(at))
  {
    var f := FormatMinutes(at);
    assert f[0] == Pad4(at.year)[0] && f[15] == Pad2(at.minute)[1];
  }

  lemma SplitDocumented(task: string, f: string)
    requires '|' !in task && '|' !in f
    ensures SplitTaskAndTime(task + " | " + f) == Success((task + [' '], [' '] + f))
  {
    var text := task + " | " + f;
    var parts := [task + [' '], [' '] + f];
    assert text == Join(parts, '|');
    SplitJoin(parts, '|');
    assert parts[1..] == [parts[1]];
  }

  /** `reminder_tool` as written in tools.py: it never writes, whatever the
      input. */
  method ReminderToolAsWritten(store: Store, text: string) returns (reply: string)
    ensures reply == PlanReminderAsWritten(text).reply
    ensures Count(text, '|') == 1 ==> reply == FailurePrefix + "module 'datetime' has no attribute 'strptime'"
  {
    reply := PlanReminderAsWritten(text).reply;
  }

  /** `reminder_tool` with the intended `strptime`: a reminder is added
      exactly when the plan schedules one, after parsing succeeded, and
      nothing else changes. */
  method ReminderTool(store: Store, text: string) returns (reply: string)
    requires store.Valid()
    modifies store
    ensures store.Valid()
    ensures var p := PlanReminder(text);
      && reply == p.reply
      && store.reminders == old(store.reminders) +
           (if p.Schedule? then [ReminderRow(old(store.nextId), p.task, p.remindAt, old(store.clock), false)] else [])
    ensures store.memories == old(store.memories)
  {
    var p := PlanReminder(text);
    if p.Schedule? {
      store.AddReminder(p.task, p.remindAt);
    }
    reply := p.reply;
  }

  /** The input the tool's own description gives as its example is refused
      by the code as written and scheduled by the intended parse. */
  lemma DescribedExampleRefusedAsWritten(text: string)
    requires text == "task to do | 2025-08-02 15:30"
    ensures PlanReminderAsWritten(text).Refuse?
    ensures PlanReminder(text).Schedule?
    ensures PlanReminder(text).task == "task to do"
    ensures PlanReminder(text).remindAt == DateTime(2025, 8, 2, 15, 30, 0)
    ensures PlanReminder(text).reply == "Reminder set for 'task to do' at 2025-08-02 15:30:00"
  {
    var at: ValidDateTime := DateTime(2025, 8, 2, 15, 30, 0);
    var task := "task to do";
    var reply := "Reminder set for 'task to do' at 2025-08-02 15:30:00";
    ExampleFormats(at);
    ExampleText(text, task, FormatMinutes(at));
    ExampleNoBar(task);
    ExampleStripped(task);
    ExampleReply(task, FormatSeconds(at));
    ScheduledWith(text, task, at, reply);
  }

  lemma ScheduledWith(text: string, task: string, at: ValidDateTime, reply: string)
    requires '|' !in task && at.second == 0 && Strip(task) == task
    requires text == task + " | " + FormatMinutes(at)
    requires reply == "Reminder set for '" + task + "' at " + FormatSeconds(at)
    ensures PlanReminder(text) == Schedule(task, at, reply)
  {
    DocumentedInputIsScheduled(task, at);
  }

  lemma ExampleText(text: string, task: string, f: string)
    requires text == "task to do | 2025-08-02 15:30" && task == "task to do" && f == "2025-08-02 15:30"
    ensures text == task + " | " + f
  {
  }

  lemma ExampleNoBar(task: string)
    requires task == "task to do"
    ensures '|' !in task
  {
  }

  lemma ExampleStripped(task: string)
    requires task == "task to do"
    ensures Strip(task) == task
  {
    assert Trimmed(task);
    StripTrimmed(task);
  }

  lemma ExampleReply(task: string, f: string)
    requires task == "task to do" && f == "2025-08-02 15:30:00"
    ensures "Reminder set for 'task to do' at 2025-08-02 15:30:00" == "Reminder set for '" + task + "' at " + f
  {
  }

  lemma ExampleFormats(at: ValidDateTime)
    requires at == DateTime(2025, 8, 2, 15, 30, 0)
    ensures FormatMinutes(at) == "2025-08-02 15:30"
    ensures FormatSeconds(at) == "2025-08-02 15:30:00"
  {
    ExampleYear();
    ExampleFields();
  }

  lemma ExampleYear()
    ensures Pad4(2025) == "2025"
  {
    assert Pad2(20) == "20";
    assert Pad2(25) == "25";
  }

  lemma ExampleFields()
    ensures Pad2(8) == "08" && Pad2(2) == "02" && Pad2(15) == "15" && Pad2(30) == "30" && Pad2(0) == "00"
  {
  }
}
