/** prompts.py: the memory text of the agent's system prompt. */
module Prompts {
  import opened Basics
  import opened PyStr
  import opened Db

  /** One memory as the prompt shows it: title and content as stored,
      neither stripped nor prefixed. */
  function MemoryLine(item: (string, string)): (l: string)
    ensures |l| == |item.0| + 2 + |item.1|
    ensures l[..|item.0|] == item.0 && l[|item.0|..|item.0| + 2] == ": " && l[|item.0| + 2..] == item.1
  {
    item.0 + ": " + item.1
  }

  /** The memory text: the lines joined with newlines, starting with the
      first item's line. */
  function RenderMemories(items: seq<(string, string)>): (t: string)
    ensures items != [] ==> MemoryLine(items[0]) <= t
  {
    var lines := MapSeq(MemoryLine, items);
    if items == [] then Join(lines, '\n')
    else
      JoinHead(lines, '\n');
      Join(lines, '\n')
  }

  /** `get_memory_text()`: the default ten newest memories, one line each,
      newest first, joined with newlines. Reads only. */
  method GetMemoryText(store: Store) returns (text: string)
    ensures text == RenderMemories(Recall(store.memories, 10))
  {
    var mems := store.GetMemories();
    assert mems == Recall(store.memories, 10);
    text := RenderMemories(mems);
  }

  /** The text is empty exactly when there is no memory: every line holds
      at least the ": " between title and content. */
  lemma EmptyExactlyWithoutMemories(items: seq<(string, string)>)
    ensures RenderMemories(items) == "" <==> items == []
  {
    if items != [] {
      var lines := MapSeq(MemoryLine, items);
      assert |lines[0]| >= 2;
      JoinHead(lines, '\n');
    }
  }

  /** Splitting the text at newlines gives back the lines of the memories in
      the order given: no line is lost and there is no trailing newline
      (when no title or content spans several lines). */
  lemma LinesReadBack(items: seq<(string, string)>)
    requires items != []
    requires forall i :: 0 <= i < |items| ==> '\n' !in items[i].0 && '\n' !in items[i].1
    ensures Split(RenderMemories(items), '\n') == MapSeq(MemoryLine, items)
    ensures Count(RenderMemories(items), '\n') == |items| - 1
  {
    var lines := MapSeq(MemoryLine, items);
    forall k | 0 <= k < |lines| ensures '\n' !in lines[k] {
      LineIsSingle(items[k]);
    }
    SplitJoin(lines, '\n');
    JoinLength(lines, '\n');
  }

  lemma LineIsSingle(item: (string, string))
    requires '\n' !in item.0 && '\n' !in item.1
    ensures '\n' !in MemoryLine(item)
  {
    var colon := ": ";
    assert '\n' !in colon;
    assert MemoryLine(item) == item.0 + colon + item.1;
  }

  /** Line `i` of the text is the `i`-th newest memory, and there are at
      most ten lines. */
  lemma MemoryTextNewestFirst(rows: seq<MemoryRow>)
    requires rows != []
    requires forall i :: 0 <= i < |rows| ==> '\n' !in rows[i].title && '\n' !in rows[i].content
    ensures var lines := Split(RenderMemories(Recall(rows, 10)), '\n');
      && |lines| == Min(10, |rows|) <= 10
      && forall i :: 0 <= i < |lines| ==>
           lines[i] == rows[|rows| - 1 - i].title + ": " + rows[|rows| - 1 - i].content
  {
    var items := Recall(rows, 10);
    forall i | 0 <= i < |items| ensures '\n' !in items[i].0 && '\n' !in items[i].1 {
      assert items[i] == (rows[|rows| - 1 - i].title, rows[|rows| - 1 - i].content);
    }
    LinesReadBack(items);
  }
}
