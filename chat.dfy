/** chat.py: the two tools the chatbot exposes, with the date read by an
    opaque free-text parser, and the bookkeeping of one conversation turn in
    `chat_with_bot` around an opaque language model. */
module Chat {
  import opened Basics
  import opened PyStr
  import opened DateTimes
  import opened Db
  import opened Tools

  /** `memory_tool` of chat.py is the same code as that of tools.py. */
  method MemoryTool(store: Store, info: string) returns (reply: string)
    requires store.Valid()
    modifies store
    ensures store.Valid()
    ensures store.memories == old(store.memories) + [MemoryRow(old(store.nextId), "thought", Title(info), info,
                                                               [], 1, old(store.clock), None, old(store.clock))]
    ensures store.reminders == old(store.reminders)
    ensures reply == MemoryReply(Title(info))
  {
    reply := Tools.MemoryTool(store, info);
  }

  const ParseFailureReply := "Failed to parse date. Please use a format like 'YYYY-MM-DD HH:MM'."

  /** `reminder_tool` of chat.py, with `dateparser.parse` given as
      `parseDate` (`None` when it finds no date). */
  function PlanChatReminder(text: string, parseDate: string -> Option<ValidDateTime>): (p: ReminderPlan)
    ensures p.Schedule? <==> SplitTaskAndTime(text).Success? && parseDate(Strip(SplitTaskAndTime(text).value.1)).Some?
    ensures p.Schedule? ==>
      var (task, time) := SplitTaskAndTime(text).value;
      && p.task == Strip(task)
      && p.remindAt == parseDate(Strip(time)).value
      && p.reply == "Reminder set for '" + Strip(task) + "' at " + FormatMinutes(p.remindAt)
    ensures SplitTaskAndTime(text).Failure? ==> p == Refuse(FailurePrefix + SplitTaskAndTime(text).error)
    ensures SplitTaskAndTime(text).Success? && parseDate(Strip(SplitTaskAndTime(text).value.1)).None? ==>
      p == Refuse(ParseFailureReply)
  {
    match SplitTaskAndTime(text)
    case Failure(e) => Refuse(FailurePrefix + e)
    case Success((task, time)) =>
      match parseDate(Strip(time))
      case None => Refuse(ParseFailureReply)
      case Some(at) => Schedule(Strip(task), at, "Reminder set for '" + Strip(task) + "' at " + FormatMinutes(at))
  }

  /** `t` with its seconds dropped. */
  function ToMinute(t: ValidDateTime): (m: ValidDateTime)
    ensures m.second == 0 && Key(m) <= Key(t) < Key(m) + 60
  {
    t.(second := 0)
  }

  /** The time in a scheduling reply reads back, with the fixed format, as
      the stored instant to the minute. */
  lemma ChatReplyTimeReadsBack(text: string, parseDate: string -> Option<ValidDateTime>)
    requires PlanChatReminder(text, parseDate).Schedule?
    ensures var p := PlanChatReminder(text, parseDate);
      |p.reply| >= 16 && ParseMinutes(p.reply[|p.reply| - 16..]) == Success(ToMinute(p.remindAt))
  {
    var p := PlanChatReminder(text, parseDate);
    var f := FormatMinutes(p.remindAt);
    assert FormatMinutes(ToMinute(p.remindAt)) == f;
    assert p.reply[|p.reply| - 16..] == f;
    ParseFormat(ToMinute(p.remindAt));
  }

  /** `dateparser` replaced by the fixed format: the chat tool then schedules
      exactly what the tools.py tool (with the intended parse) schedules. */
  lemma ChatAgreesWithFixedFormat(text: string, parseDate: string -> Option<ValidDateTime>)
    requires forall s :: parseDate(s) == (if ParseMinutes(s).Success? then Some(ParseMinutes(s).value) else None)
    ensures PlanChatReminder(text, parseDate).Schedule? <==> PlanReminder(text).Schedule?
    ensures PlanChatReminder(text, parseDate).Schedule? ==>
      PlanChatReminder(text, parseDate).task == PlanReminder(text).task
      && PlanChatReminder(text, parseDate).remindAt == PlanReminder(text).remindAt
  {
  }

  /** `reminder_tool` of chat.py: one reminder is added exactly when the
      split and the date parse succeed; otherwise nothing is written. */
  method ReminderTool(store: Store, text: string, parseDate: string -> Option<ValidDateTime>) returns (reply: string)
    requires store.Valid()
    modifies store
    ensures store.Valid()
    ensures var p := PlanChatReminder(text, parseDate);
      && reply == p.reply
      && store.reminders == old(store.reminders) +
           (if p.Schedule? then [ReminderRow(old(store.nextId), p.task, p.remindAt, old(store.clock), false)] else [])
    ensures store.memories == old(store.memories)
  {
    var p := PlanChatReminder(text, parseDate);
    if p.Schedule? {
      store.AddReminder(p.task, p.remindAt);
    }
    reply := p.reply;
  }

  /** A message of the history: `HumanMessage` or `AIMessage`. */
  datatype ChatMessage = Human(content: string) | Ai(content: string)

  /** `InMemoryChatMessageHistory`: the module-level list of messages. */
  class ChatHistory {
    var messages: seq<ChatMessage>

    constructor ()
      ensures messages == []
    {
      messages := [];
    }

    method AddUserMessage(content: string)
      modifies this
      ensures messages == old(messages) + [Human(content)]
    {
      messages := messages + [Human(content)];
    }

    method AddMessage(msg: ChatMessage)
      modifies this
      ensures messages == old(messages) + [msg]
    {
      messages := messages + [msg];
    }
  }

  /** Who said it: "User" exactly for the human's turns. */
  function Speaker(msg: ChatMessage): (who: string)
    ensures who == "User" <==> msg.Human?
    ensures ':' !in who && '\n' !in who
  {
    if msg.Human? then "User" else "Assistant"
  }

  /** One line of the rendered conversation. */
  function Line(msg: ChatMessage): (l: string)
    ensures '\n' !in msg.content ==> '\n' !in l
  {
    Speaker(msg) + ": " + msg.content
  }

  /** The conversation history as the prompt shows it: every message, one
      line each, oldest first. */
  function RenderHistory(msgs: seq<ChatMessage>): (h: string)
    ensures h == [] <==> msgs == []
  {
    var lines := MapSeq(Line, msgs);
    assert msgs != [] ==> |lines[0]| >= 2;
    Join(lines, '\n')
  }

  /** The rendering starts with the oldest message's line. */
  lemma RenderHistoryOldestFirst(msgs: seq<ChatMessage>)
    requires msgs != []
    ensures Line(msgs[0]) <= RenderHistory(msgs)
  {
    JoinHead(MapSeq(Line, msgs), '\n');
  }

  /** The rendering of a history ending in a user turn ends with that turn's
      line, after the rendering of everything before it. */
  lemma RenderedHistoryEndsWithUser(msgs: seq<ChatMessage>, message: string)
    ensures RenderHistory(msgs + [Human(message)]) ==
      (if msgs == [] then "" else RenderHistory(msgs) + "\n") + "User: " + message
  {
    MapSeqSnoc(Line, msgs, Human(message));
    JoinSnoc(MapSeq(Line, msgs), Line(Human(message)), '\n');
    assert Line(Human(message)) == "User: " + message;
  }

  /** Nothing is dropped: splitting the rendering at newlines gives back one
      line per message, in order (when no message spans several lines). */
  lemma HistoryNotTruncated(msgs: seq<ChatMessage>)
    requires msgs != []
    requires forall i :: 0 <= i < |msgs| ==> '\n' !in msgs[i].content
    ensures Split(RenderHistory(msgs), '\n') == MapSeq(Line, msgs)
    ensures Count(RenderHistory(msgs), '\n') == |msgs| - 1
  {
    var lines := MapSeq(Line, msgs);
    forall k | 0 <= k < |lines| ensures '\n' !in lines[k] {
      assert lines[k] == Line(msgs[k]);
    }
    SplitJoin(lines, '\n');
    JoinLength(lines, '\n');
  }

  /** One line of the memory block: a dash, the stripped title, a colon and
      the stripped content. */
  function MemoryEntry(item: (string, string)): (e: string)
    ensures Spliced(e, "- ", Strip(item.0), ": ", Strip(item.1))
  {
    var t, c := Strip(item.0), Strip(item.1);
    FourParts("- ", t, ": ", c);
    "- " + t + ": " + c
  }

  /** `e` is `p`, `a`, `q` and `b` one after the other, each readable back
      from its position. */
  predicate Spliced(e: string, p: string, a: string, q: string, b: string) {
    && |e| == |p| + |a| + |q| + |b|
    && e[..|p|] == p && e[|p|..|p| + |a|] == a
    && e[|p| + |a|..|p| + |a| + |q|] == q && e[|p| + |a| + |q|..] == b
  }

  lemma FourParts(p: string, a: string, q: string, b: string)
    ensures Spliced(p + a + q + b, p, a, q, b)
  {
  }

  /** The memory block: empty exactly when there is no memory, and
      starting with the entry of the first item. */
  function RenderMemoryBlock(items: seq<(string, string)>): (b: string)
    ensures b == [] <==> items == []
    ensures items != [] ==> MemoryEntry(items[0]) <= b
  {
    var lines := MapSeq(MemoryEntry, items);
    if items == [] then Join(lines, '\n')
    else
      assert |lines[0]| >= 4;
      JoinHead(lines, '\n');
      Join(lines, '\n')
  }

  /** The memory block has one line per memory item, in order (when no
      title or content spans several lines). */
  lemma MemoryBlockLines(items: seq<(string, string)>)
    requires forall i :: 0 <= i < |items| ==> '\n' !in items[i].0 && '\n' !in items[i].1
    ensures Count(RenderMemoryBlock(items), '\n') + 1 == (if items == [] then 1 else |items|)
    ensures items != [] ==> Split(RenderMemoryBlock(items), '\n') == MapSeq(MemoryEntry, items)
  {
    var lines := MapSeq(MemoryEntry, items);
    forall k | 0 <= k < |lines| ensures '\n' !in lines[k] {
      EntryIsSingleLine(items[k]);
    }
    JoinLength(lines, '\n');
    if items != [] {
      SplitJoin(lines, '\n');
    }
  }

  /** The memory block shows at most the ten newest memories, so when no
      title or content contains a newline it has at most ten lines (an inner
      newline survives the strip and adds a line). */
  lemma MemoryBlockAtMostTen(rows: seq<MemoryRow>)
    requires forall i :: 0 <= i < |rows| ==> '\n' !in rows[i].title && '\n' !in rows[i].content
    ensures Count(RenderMemoryBlock(Recall(rows, 10)), '\n') < 10
  {
    var items := Recall(rows, 10);
    forall i | 0 <= i < |items| ensures '\n' !in items[i].0 && '\n' !in items[i].1 {
      assert items[i] == (rows[|rows| - 1 - i].title, rows[|rows| - 1 - i].content);
    }
    MemoryBlockLines(items);
  }

  lemma EntryIsSingleLine(item: (string, string))
    requires '\n' !in item.0 && '\n' !in item.1
    ensures '\n' !in MemoryEntry(item)
  {
    StripKeepsOut(item.0, '\n');
    StripKeepsOut(item.1, '\n');
    KeepsOut4('\n', "- ", Strip(item.0), ": ", Strip(item.1), MemoryEntry(item));
  }

  lemma KeepsOut4(x: char, p: string, a: string, q: string, b: string, e: string)
    requires x !in p && x !in a && x !in q && x !in b
    requires e == p + a + q + b
    ensures x !in e
  {
  }

  /** Line `i` of the memory block is the `i`-th newest memory. */
  lemma MemoryBlockNewestFirst(rows: seq<MemoryRow>, i: nat)
    requires i < Min(10, |rows|)
    ensures MapSeq(MemoryEntry, Recall(rows, 10))[i] ==
      "- " + Strip(rows[|rows| - 1 - i].title) + ": " + Strip(rows[|rows| - 1 - i].content)
  {
  }

  /** What the prompt template is filled with. */
  datatype PromptInputs = PromptInputs(memory: string, conversationHistory: string, userMessage: string)

  /** What the language model call does: answer, or raise. */
  datatype ModelReply = Replied(text: string) | Raised(error: string)

  /** `{"bot_response": ...}` or `{"error": ...}`. */
  datatype ChatResponse = BotResponse(text: string) | Error(message: string)

  /** The prompt of a turn: the memory block from the current table and the
      whole history, the new user message included. */
  function TurnInputs(msgs: seq<ChatMessage>, rows: seq<MemoryRow>, message: string): (inputs: PromptInputs)
    ensures inputs.userMessage == message
    ensures inputs.conversationHistory ==
      (if msgs == [] then "" else RenderHistory(msgs) + "\n") + "User: " + message
    ensures inputs.memory == [] <==> rows == []
    ensures rows != [] ==>
      MemoryEntry((rows[|rows| - 1].title, rows[|rows| - 1].content)) <= inputs.memory
    ensures (forall i :: 0 <= i < |rows| ==> '\n' !in rows[i].title && '\n' !in rows[i].content) ==>
      Count(inputs.memory, '\n') < 10
  {
    var items := Recall(rows, 10);
    RenderedHistoryEndsWithUser(msgs, message);
    assert (forall i :: 0 <= i < |rows| ==> '\n' !in rows[i].title && '\n' !in rows[i].content) ==>
      Count(RenderMemoryBlock(items), '\n') < 10 by {
      if forall i :: 0 <= i < |rows| ==> '\n' !in rows[i].title && '\n' !in rows[i].content {
        MemoryBlockAtMostTen(rows);
      }
    }
    PromptInputs(RenderMemoryBlock(items), RenderHistory(msgs + [Human(message)]), message)
  }

  /** `chat_with_bot(message)`, with the language model given as `model`:
      the user turn is recorded first; a reply is recorded after it, and a
      failure leaves the user turn alone in the history. The store is only
      read. */
  method ChatWithBot(history: ChatHistory, store: Store, message: string, model: PromptInputs -> ModelReply)
    returns (response: ChatResponse)
    modifies history
    ensures var reply := model(TurnInputs(old(history.messages), store.memories, message));
      match reply
      case Replied(text) =>
        history.messages == old(history.messages) + [Human(message), Ai(text)] && response == BotResponse(text)
      case Raised(error) =>
        history.messages == old(history.messages) + [Human(message)] && response == Error(error)
  {
    ghost var before := history.messages;
    history.AddUserMessage(message);
    var conversation := RenderHistory(history.messages);
    var items := store.GetMemories(10);
    assert items == Recall(store.memories, 10);
    var memory := RenderMemoryBlock(items);
    var inputs := PromptInputs(memory, conversation, message);
    assert inputs == TurnInputs(before, store.memories, message);
    var reply := model(inputs);
    match reply
    case Replied(text) =>
      history.AddMessage(Ai(text));
      response := BotResponse(text);
    case Raised(error) =>
      response := Error(error);
  }

  /** Every turn puts the user's message last in the rendered history it
      sends to the model. */
  lemma TurnPromptEndsWithMessage(msgs: seq<ChatMessage>, message: string)
    ensures var h := RenderHistory(msgs + [Human(message)]);
      var line := Line(Human(message));
      |h| >= |line| && h[|h| - |line|..] == line
  {
    RenderedHistoryEndsWithUser(msgs, message);
    EndsWithLine(RenderHistory(msgs + [Human(message)]),
                 if msgs == [] then "" else RenderHistory(msgs) + "\n", message);
  }

  lemma EndsWithLine(h: string, before: string, message: string)
    requires h == before + "User: " + message
    ensures |h| >= |Line(Human(message))| && h[|h| - |Line(Human(message))|..] == Line(Human(message))
  {
    var line := Line(Human(message));
    assert line == "User: " + message;
    assert h == before + line;
    SuffixOfConcat(before, line, h);
  }

  lemma SuffixOfConcat(a: string, b: string, h: string)
    requires h == a + b
    ensures |h| >= |b| && h[|h| - |b|..] == b
  {
    assert (a + b)[|a|..] == b;
  }
}
