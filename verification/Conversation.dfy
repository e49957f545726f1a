/** The message list of an agent session: what a turn appends, what compression replaces, and how the
    cache breakpoint moves over it. */
module Conversation {
  import opened Json

  datatype Role = User | Assistant

  /** A content block; `cached` says whether it carries the cache_control marker. */
  datatype Block =
    | Text(text: string, cached: bool)
    | ToolUse(id: string, name: string, input: Json, cached: bool)
    | ToolResult(id: string, output: string, cached: bool)

  datatype Content = Plain(text: string) | Blocks(blocks: seq<Block>)

  datatype Message = Message(role: Role, content: Content)

  // ---- Turns ----

  /** The content blocks of the model's final message; other kinds of block are dropped. */
  datatype ReplyBlock = ReplyText(text: string) | ReplyToolUse(id: string, name: string, input: Json) | ReplyOther

  datatype StopReason = EndTurn | ToolUseStop | OtherStop

  /** One reply of the model, the outputs of the tools it called, and the context size it reports. */
  datatype Turn = Turn(stop: StopReason, reply: seq<ReplyBlock>, outputs: seq<string>, contextTokens: nat)

  datatype Call = Call(id: string, name: string, input: Json)

  function BlocksOf(r: ReplyBlock): seq<Block> {
    match r
    case ReplyText(t) => [Text(t, false)]
    case ReplyToolUse(id, name, input) => [ToolUse(id, name, input, false)]
    case ReplyOther => []
  }

  function CallsOf(r: ReplyBlock): seq<Call> {
    match r
    case ReplyToolUse(id, name, input) => [Call(id, name, input)]
    case _ => []
  }

  function AssistantBlocks(reply: seq<ReplyBlock>): seq<Block> {
    if reply == [] then [] else BlocksOf(reply[0]) + AssistantBlocks(reply[1..])
  }

  function Calls(reply: seq<ReplyBlock>): seq<Call> {
    if reply == [] then [] else CallsOf(reply[0]) + Calls(reply[1..])
  }

  /** The output of call number k of a turn. */
  function Output(outputs: seq<string>, k: nat): string {
    if k < |outputs| then outputs[k] else ""
  }

  function ResultBlocks(calls: seq<Call>, outputs: seq<string>): (bs: seq<Block>)
    ensures |bs| == |calls|
  {
    seq(|calls|, k requires 0 <= k < |calls| => ToolResult(calls[k].id, Output(outputs, k), false))
  }

  function NewMessages(t: Turn): (ms: seq<Message>) {
    var calls := Calls(t.reply);
    [Message(Assistant, Blocks(AssistantBlocks(t.reply)))] +
    if calls == [] then [] else [Message(User, Blocks(ResultBlocks(calls, t.outputs)))]
  }

  // ---- Compression ----

  const KEPT := 4

  const ACK := Message(Assistant, Plain("Understood. I'll continue from where we left off."))

  function SummaryMessage(summary: string): Message {
    Message(User, Plain("[Context summary from earlier in this session]\n" + summary))
  }

  function Compressed(ms: seq<Message>, summary: string): seq<Message>
    requires KEPT <= |ms|
  {
    [SummaryMessage(summary), ACK] + ms[|ms| - KEPT..]
  }

  // ---- Shape ----

  function UseId(b: Block): seq<string> {
    if b.ToolUse? then [b.id] else []
  }

  function UseIds(bs: seq<Block>): seq<string> {
    if bs == [] then [] else UseId(bs[0]) + UseIds(bs[1..])
  }

  function ResultIds(bs: seq<Block>): seq<string> {
    if bs == [] then [] else (if bs[0].ToolResult? then [bs[0].id] else []) + ResultIds(bs[1..])
  }

  /** An assistant message with tool calls and the user message that answers exactly these calls, in
      the same order. */
  predicate IsPair(a: Message, u: Message) {
    && a.role == Assistant && a.content.Blocks? && u.role == User && u.content.Blocks?
    && UseIds(a.content.blocks) != []
    && (forall b :: b in u.content.blocks ==> b.ToolResult?)
    && (forall b :: b in a.content.blocks ==> !b.ToolResult?)
    && ResultIds(u.content.blocks) == UseIds(a.content.blocks)
  }

  predicate WholePairs(ms: seq<Message>) {
    |ms| % 2 == 0 && forall i :: 0 <= i < |ms| / 2 ==> IsPair(ms[2 * i], ms[2 * i + 1])
  }

  /** The user's opening text, or a summary with its acknowledgement. */
  predicate IsHead(ms: seq<Message>) {
    && 1 <= |ms| <= 2
    && ms[0].role == User && ms[0].content.Plain?
    && (|ms| == 2 ==> ms[1] == ACK)
  }

  predicate Shaped(ms: seq<Message>, h: nat) {
    h <= |ms| && IsHead(ms[..h]) && WholePairs(ms[h..])
  }

  predicate WellShaped(ms: seq<Message>) {
    Shaped(ms, 1) || Shaped(ms, 2)
  }

  /** A reply without tool calls. */
  predicate IsBare(m: Message) {
    m.role == Assistant && m.content.Blocks? && forall b :: b in m.content.blocks ==> b.Text?
  }

  // ---- Turns keep the shape ----

  function Ids(calls: seq<Call>): (r: seq<string>)
    ensures |r| == |calls|
  {
    seq(|calls|, k requires 0 <= k < |calls| => calls[k].id)
  }

  lemma {:induction false} UseIdsConcat(a: seq<Block>, b: seq<Block>)
    ensures UseIds(a + b) == UseIds(a) + UseIds(b)
    decreases |a|
  {
    if a == [] {
      assert a + b == b;
    } else {
      UseIdsConcat(a[1..], b);
      var all, x, y, z := a + b, UseId(a[0]), UseIds(a[1..]), UseIds(b);
      assert all[0] == a[0] && all[1..] == a[1..] + b;
      assert UseIds(all) == x + (y + z) == (x + y) + z;
    }
  }

  lemma {:induction false} UseIdsAre(reply: seq<ReplyBlock>)
    ensures UseIds(AssistantBlocks(reply)) == Ids(Calls(reply))
    decreases |reply|
  {
    if reply != [] {
      UseIdsAre(reply[1..]);
      UseIdsConcat(BlocksOf(reply[0]), AssistantBlocks(reply[1..]));
    }
  }

  lemma {:induction false} BlockKinds(reply: seq<ReplyBlock>)
    ensures forall b :: b in AssistantBlocks(reply) ==> !b.ToolResult?
    ensures Calls(reply) == [] ==> forall b :: b in AssistantBlocks(reply) ==> b.Text?
    decreases |reply|
  {
    if reply != [] { BlockKinds(reply[1..]); }
  }

  lemma {:induction false} ResultIdsAre(bs: seq<Block>)
    requires forall b :: b in bs ==> b.ToolResult?
    ensures |ResultIds(bs)| == |bs|
    ensures forall k :: 0 <= k < |bs| ==> ResultIds(bs)[k] == bs[k].id
  {
    if bs != [] { ResultIdsAre(bs[1..]); }
  }

  /** A turn with tool calls appends one whole pair, a turn without appends one bare reply. */
  lemma TurnAppends(t: Turn)
    ensures Calls(t.reply) != [] ==> |NewMessages(t)| == 2 && IsPair(NewMessages(t)[0], NewMessages(t)[1])
    ensures Calls(t.reply) == [] ==> |NewMessages(t)| == 1 && IsBare(NewMessages(t)[0])
  {
    var calls := Calls(t.reply);
    UseIdsAre(t.reply);
    BlockKinds(t.reply);
    if calls != [] {
      var bs := ResultBlocks(calls, t.outputs);
      ResultIdsAre(bs);
      assert ResultIds(bs) == UseIds(AssistantBlocks(t.reply));
    }
  }

  // ---- What a turn carries ----

  function ReplyPart(b: Block): seq<ReplyBlock> {
    match b
    case Text(t, _) => [ReplyText(t)]
    case ToolUse(id, name, input, _) => [ReplyToolUse(id, name, input)]
    case ToolResult(_, _, _) => []
  }

  /** The reply that a list of blocks stands for. */
  function ReplyOf(bs: seq<Block>): seq<ReplyBlock> {
    if bs == [] then [] else ReplyPart(bs[0]) + ReplyOf(bs[1..])
  }

  function Kept(reply: seq<ReplyBlock>): seq<ReplyBlock> {
    if reply == [] then [] else (if reply[0].ReplyOther? then [] else [reply[0]]) + Kept(reply[1..])
  }

  function Uses(reply: seq<ReplyBlock>): (us: seq<ReplyBlock>)
    ensures forall u :: u in us ==> u.ReplyToolUse?
  {
    if reply == [] then [] else (if reply[0].ReplyToolUse? then [reply[0]] else []) + Uses(reply[1..])
  }

  lemma {:induction false} ReplyOfConcat(a: seq<Block>, b: seq<Block>)
    ensures ReplyOf(a + b) == ReplyOf(a) + ReplyOf(b)
    decreases |a|
  {
    if a == [] {
      assert a + b == b;
    } else {
      ReplyOfConcat(a[1..], b);
      var all, x, y, z := a + b, ReplyPart(a[0]), ReplyOf(a[1..]), ReplyOf(b);
      assert all[0] == a[0] && all[1..] == a[1..] + b;
      assert ReplyOf(all) == x + (y + z) == (x + y) + z;
    }
  }

  /** The assistant message holds the reply's texts and tool calls, whole and in order, and no marker. */
  lemma {:induction false} ReplyIsRecovered(reply: seq<ReplyBlock>)
    ensures ReplyOf(AssistantBlocks(reply)) == Kept(reply)
    ensures forall b :: b in AssistantBlocks(reply) ==> !b.ToolResult? && !b.cached
    decreases |reply|
  {
    if reply != [] {
      ReplyIsRecovered(reply[1..]);
      ReplyOfConcat(BlocksOf(reply[0]), AssistantBlocks(reply[1..]));
    }
  }

  /** The calls that are executed are the reply's, with their names and inputs and in its order. */
  lemma {:induction false} CallsAreUses(reply: seq<ReplyBlock>)
    ensures |Calls(reply)| == |Uses(reply)|
    ensures forall k :: 0 <= k < |Calls(reply)| ==>
      Uses(reply)[k] == ReplyToolUse(Calls(reply)[k].id, Calls(reply)[k].name, Calls(reply)[k].input)
    decreases |reply|
  {
    if reply != [] {
      var calls, uses := Calls(reply[1..]), Uses(reply[1..]);
      CallsAreUses(reply[1..]);
      if reply[0].ReplyToolUse? {
        assert Calls(reply)[1..] == calls && Uses(reply)[1..] == uses;
        forall k | 0 <= k < |Calls(reply)|
          ensures Uses(reply)[k] == ReplyToolUse(Calls(reply)[k].id, Calls(reply)[k].name, Calls(reply)[k].input)
        {
          if k > 0 { assert Calls(reply)[k] == calls[k - 1] && Uses(reply)[k] == uses[k - 1]; }
        }
      } else {
        assert Calls(reply) == calls && Uses(reply) == uses;
      }
    }
  }

  /** A turn's messages: the assistant's carries the reply, and the user's one result for each call, its own. */
  lemma TurnCarries(t: Turn)
    requires |t.outputs| == |Calls(t.reply)|
    ensures var ms := NewMessages(t);
      && ms[0].role == Assistant && ms[0].content.Blocks? && ReplyOf(ms[0].content.blocks) == Kept(t.reply)
      && (|ms| == 2 <==> Uses(t.reply) != [])
      && (|ms| == 2 ==>
           && ms[1].role == User && ms[1].content.Blocks? && |ms[1].content.blocks| == |Uses(t.reply)|
           && forall k :: 0 <= k < |Uses(t.reply)| ==>
                ms[1].content.blocks[k] == ToolResult(Uses(t.reply)[k].id, t.outputs[k], false))
  {
    ReplyIsRecovered(t.reply);
    CallsAreUses(t.reply);
  }

  /** What compression keeps: the summary's whole text at the end of the first message, the acknowledgement, and
      the last four messages. */
  lemma CompressedCarries(ms: seq<Message>, summary: string)
    requires |ms| > 6
    ensures var r := Compressed(ms, summary);
      && |r| == 6 && r[0].role == User && r[0].content.Plain? && EndsWith(r[0].content.text, summary) && r[1] == ACK
      && r[2..] == ms[|ms| - 4..]
  {
    var heading := "[Context summary from earlier in this session]\n";
    assert (heading + summary)[|heading|..] == summary;
  }

  predicate EndsWith(s: string, end: string) {
    |end| <= |s| && s[|s| - |end|..] == end
  }

  lemma AppendPair(ms: seq<Message>, h: nat, pair: seq<Message>)
    requires Shaped(ms, h) && |pair| == 2 && IsPair(pair[0], pair[1])
    ensures Shaped(ms + pair, h)
  {
    var all := ms + pair;
    assert all[..h] == ms[..h];
    assert all[h..] == ms[h..] + pair;
    forall i | 0 <= i < |all[h..]| / 2 ensures IsPair(all[h..][2 * i], all[h..][2 * i + 1]) {
      if i < |ms[h..]| / 2 {
        assert all[h..][2 * i] == ms[h..][2 * i];
      }
    }
  }

  /** The cut before the last four messages lands on a pair boundary: what is kept, and what is
      summarised after the head, are whole pairs. */
  lemma CutOnBoundary(ms: seq<Message>, h: nat)
    requires Shaped(ms, h) && |ms| > 6
    ensures h <= |ms| - KEPT
    ensures WholePairs(ms[|ms| - KEPT..]) && Shaped(ms[..|ms| - KEPT], h)
  {
    var cut := |ms| - KEPT;
    var pairs := ms[h..];
    assert cut - h == 2 * (|pairs| / 2 - 2);
    forall i | 0 <= i < 2 ensures IsPair(ms[cut..][2 * i], ms[cut..][2 * i + 1]) {
      assert IsPair(pairs[2 * (|pairs| / 2 - 2 + i)], pairs[2 * (|pairs| / 2 - 2 + i) + 1]);
    }
    assert ms[..cut][h..] == pairs[..cut - h];
    assert ms[..cut][..h] == ms[..h];
  }

  /** Compression keeps the shape. */
  lemma CompressKeepsShape(ms: seq<Message>, summary: string)
    requires WellShaped(ms) && |ms| > 6
    ensures Shaped(Compressed(ms, summary), 2)
  {
    var h := if Shaped(ms, 1) then 1 else 2;
    CutOnBoundary(ms, h);
    var out := Compressed(ms, summary);
    assert out[..2] == [SummaryMessage(summary), ACK];
    assert out[2..] == ms[|ms| - KEPT..];
  }

  lemma StartsWithAnswer(ms: seq<Message>)
    requires ms != [] && ms[0].role == User
    ensures !WholePairs(ms)
  {
    assert ms[2 * 0].role == User;
  }

  /** The shape is what the cut depends on: a reply without tool calls after which the run goes on, as it does
      after a `tool_use` stop, shifts the list by one. The cut then separates a result from its call exactly
      until two whole pairs have followed. */
  lemma BareTurnBreaksCut(head: seq<Message>, before: seq<Message>, bare: Message, after: seq<Message>)
    requires IsHead(head) && WholePairs(before) && WholePairs(after) && IsBare(bare)
    requires |head + before + [bare] + after| > 6
    ensures var ms := head + before + [bare] + after;
      WholePairs(ms[|ms| - KEPT..]) <==> |after| >= KEPT
  {
    var ms := head + before + [bare] + after;
    var kept := ms[|ms| - KEPT..];
    if |after| >= KEPT {
      var m := |after| / 2 - 2;
      forall i | 0 <= i < 2 ensures IsPair(kept[2 * i], kept[2 * i + 1]) {
        assert kept[2 * i] == after[2 * (m + i)] && kept[2 * i + 1] == after[2 * (m + i) + 1];
      }
    } else {
      var m := (|before| + |after|) / 2 - 2;
      assert kept[0] == before[2 * m + 1] && IsPair(before[2 * m], before[2 * m + 1]);
      StartsWithAnswer(kept);
    }
  }

  // ---- Pairs in a message list ----

  datatype Pair = Pair(call: Message, answer: Message)

  /** The (call, answer) pairs of a list, in order; text-only messages and a trailing bare reply are
      no part of any pair. */
  function PairsOf(ms: seq<Message>): seq<Pair> {
    if |ms| < 2 then []
    else if ms[0].content.Plain? then PairsOf(ms[1..])
    else [Pair(ms[0], ms[1])] + PairsOf(ms[2..])
  }

  lemma {:induction false} PairsOfConcat(a: seq<Message>, b: seq<Message>)
    requires |a| % 2 == 0 && forall m :: m in a ==> m.content.Blocks?
    ensures PairsOf(a + b) == PairsOf(a) + PairsOf(b)
  {
    if a == [] {
      assert a + b == b;
    } else {
      assert a[0] in a;
      assert (a + b)[2..] == a[2..] + b;
      PairsOfConcat(a[2..], b);
    }
  }

  lemma WholePairsAreBlocks(ms: seq<Message>)
    requires WholePairs(ms)
    ensures forall m :: m in ms ==> m.content.Blocks?
  {
    forall m | m in ms ensures m.content.Blocks? {
      var k :| 0 <= k < |ms| && ms[k] == m;
      assert IsPair(ms[2 * (k / 2)], ms[2 * (k / 2) + 1]);
    }
  }

  /** Compression loses no pair: the pairs of the list are those of the summarised part followed by
      those that stay. */
  lemma {:induction false} CompressConserves(ms: seq<Message>, summary: string)
    requires WellShaped(ms) && |ms| > 6
    ensures PairsOf(ms) == PairsOf(ms[..|ms| - KEPT]) + PairsOf(Compressed(ms, summary))
  {
    var h := if Shaped(ms, 1) then 1 else 2;
    var cut := |ms| - KEPT;
    CutOnBoundary(ms, h);
    CompressKeepsShape(ms, summary);
    assert Compressed(ms, summary)[2..] == ms[cut..];
    assert ms[h..] == ms[..cut][h..] + ms[cut..];
    WholePairsAreBlocks(ms[..cut][h..]);
    PairsOfConcat(ms[..cut][h..], ms[cut..]);
  }

  /** A turn adds exactly its own pair, at the end. */
  lemma {:induction false} TurnAddsPair(ms: seq<Message>, h: nat, t: Turn)
    requires Shaped(ms, h)
    ensures
      var added := NewMessages(t);
      PairsOf(ms + added) == PairsOf(ms) + if Calls(t.reply) == [] then [] else [Pair(added[0], added[1])]
  {
    var added := NewMessages(t);
    TurnAppends(t);
    WholePairsAreBlocks(ms[h..]);
    PairsOfConcat(ms[h..], added);
    assert (ms + added)[h..] == ms[h..] + added;
    if Calls(t.reply) != [] {
      assert added[2..] == [];
    }
  }

}
