/** The moving cache breakpoint of a conversation, and why it never shows in the transcript. */
module Breakpoints {
  import opened Wrappers
  import opened Json
  import opened Conversation

  // ---- Marking ----

  function UnmarkBlocks(bs: seq<Block>): (r: seq<Block>)
    ensures |r| == |bs|
  {
    seq(|bs|, i requires 0 <= i < |bs| => bs[i].(cached := false))
  }

  function UnmarkMessage(m: Message): (r: Message)
    ensures r.role == m.role && r.content.Plain? == m.content.Plain?
  {
    match m.content
    case Plain(_) => m
    case Blocks(bs) => m.(content := Blocks(UnmarkBlocks(bs)))
  }

  function Unmark(ms: seq<Message>): (r: seq<Message>)
    ensures |r| == |ms|
    ensures forall i :: 0 <= i < |ms| ==> r[i] == UnmarkMessage(ms[i])
  {
    seq(|ms|, i requires 0 <= i < |ms| => UnmarkMessage(ms[i]))
  }

  predicate HasBlocks(m: Message) {
    m.content.Blocks? && m.content.blocks != []
  }

  /** The position just behind the last message that has a block; 0 if there is none. */
  function BehindLast(ms: seq<Message>): (n: nat)
    ensures n <= |ms| && (n > 0 ==> HasBlocks(ms[n - 1]))
    ensures forall i :: n <= i < |ms| ==> !HasBlocks(ms[i])
  {
    if ms == [] then 0
    else if HasBlocks(ms[|ms| - 1]) then |ms|
    else BehindLast(ms[..|ms| - 1])
  }

  function MarkLastBlock(m: Message): Message
    requires HasBlocks(m)
  {
    var bs := m.content.blocks;
    m.(content := Blocks(bs[|bs| - 1 := bs[|bs| - 1].(cached := true)]))
  }

  /** The conversation after `_apply_message_cache_breakpoint`. */
  function Marked(ms: seq<Message>): (r: seq<Message>)
    ensures |r| == |ms|
  {
    var clear := Unmark(ms);
    var n := BehindLast(clear);
    if n == 0 then clear else clear[n - 1 := MarkLastBlock(clear[n - 1])]
  }

  /** Block j of message i carries the marker. */
  predicate MarkedAt(ms: seq<Message>, i: nat, j: nat) {
    i < |ms| && ms[i].content.Blocks? && j < |ms[i].content.blocks| && ms[i].content.blocks[j].cached
  }

  /** Block j of message i is the last block of the list contents. */
  predicate IsLastBlock(ms: seq<Message>, i: nat, j: nat) {
    && i < |ms| && HasBlocks(ms[i]) && j == |ms[i].content.blocks| - 1
    && forall k :: i < k < |ms| ==> !HasBlocks(ms[k])
  }

  lemma UnmarkKeepsBlocks(ms: seq<Message>, i: nat)
    requires i < |ms|
    ensures HasBlocks(Unmark(ms)[i]) == HasBlocks(ms[i])
  {}

  /** Exactly the last block of the list contents is marked, and no other. */
  lemma OnlyLastIsMarked(ms: seq<Message>, i: nat, j: nat)
    ensures MarkedAt(Marked(ms), i, j) <==> IsLastBlock(ms, i, j)
  {
    var clear := Unmark(ms);
    forall k | 0 <= k < |ms| ensures HasBlocks(clear[k]) == HasBlocks(ms[k]) { UnmarkKeepsBlocks(ms, k); }
  }

  lemma UnmarkMessageTwice(m: Message)
    ensures UnmarkMessage(UnmarkMessage(m)) == UnmarkMessage(m)
    ensures HasBlocks(m) ==> UnmarkMessage(MarkLastBlock(m)) == UnmarkMessage(m)
  {
    if m.content.Blocks? {
      var bs := m.content.blocks;
      assert UnmarkBlocks(UnmarkBlocks(bs)) == UnmarkBlocks(bs);
      if bs != [] {
        assert UnmarkBlocks(bs[|bs| - 1 := bs[|bs| - 1].(cached := true)]) == UnmarkBlocks(bs);
      }
    }
  }

  /** Marking changes nothing but markers. */
  lemma UnmarkMarked(ms: seq<Message>)
    ensures Unmark(Marked(ms)) == Unmark(ms)
  {
    forall i | 0 <= i < |ms| ensures Unmark(Marked(ms))[i] == Unmark(ms)[i] {
      UnmarkMessageTwice(ms[i]);
      UnmarkMessageTwice(Unmark(ms)[i]);
    }
  }

  /** Marking again changes nothing. */
  lemma MarkedIdempotent(ms: seq<Message>)
    ensures Marked(Marked(ms)) == Marked(ms)
  {
    UnmarkMarked(ms);
  }

  // ---- The transcript ----

  const EPHEMERAL := Obj(map["type" := Str("ephemeral")])

  function WithMarker(fields: map<string, Json>, cached: bool): Json {
    Obj(if cached then fields[MARKER := EPHEMERAL] else fields)
  }

  function BlockFields(b: Block): map<string, Json> {
    match b
    case Text(t, _) => map["type" := Str("text"), "text" := Str(t)]
    case ToolUse(id, name, input, _) =>
      map["type" := Str("tool_use"), "id" := Str(id), "name" := Str(name), "input" := input]
    case ToolResult(id, output, _) =>
      map["type" := Str("tool_result"), "tool_use_id" := Str(id), "content" := Str(output)]
  }

  /** A block as the dictionary the API and the transcript see. */
  function BlockJson(b: Block): Json {
    WithMarker(BlockFields(b), b.cached)
  }

  function ContentJson(c: Content): Json {
    match c
    case Plain(t) => Str(t)
    case Blocks(bs) => Arr(seq(|bs|, i requires 0 <= i < |bs| => BlockJson(bs[i])))
  }

  function MessageJson(m: Message): Json {
    Obj(map["role" := Str(if m.role == User then "user" else "assistant"), "content" := ContentJson(m.content)])
  }

  function ConversationJson(ms: seq<Message>): Json {
    Arr(seq(|ms|, i requires 0 <= i < |ms| => MessageJson(ms[i])))
  }

  // ---- What the dictionaries say ----

  function TextAt(fields: map<string, Json>, key: string): Option<string> {
    if key in fields && fields[key].Str? then Some(fields[key].s) else None
  }

  /** The block that a dictionary of the API stands for. */
  function ReadBlock(j: Json): Option<Block> {
    if !j.Obj? then None
    else
      var f := j.fields;
      var cached := "cache_control" in f;
      var id, name := TextAt(f, "id"), TextAt(f, "name");
      var answered, output := TextAt(f, "tool_use_id"), TextAt(f, "content");
      match TextAt(f, "type")
      case None => None
      case Some(tag) =>
        if tag == "text" && TextAt(f, "text").Some? then Some(Text(TextAt(f, "text").value, cached))
        else if tag == "tool_use" && id.Some? && name.Some? && "input" in f then
          Some(ToolUse(id.value, name.value, f["input"], cached))
        else if tag == "tool_result" && answered.Some? && output.Some? then
          Some(ToolResult(answered.value, output.value, cached))
        else None
  }

  lemma BlockIsRead(b: Block)
    ensures ReadBlock(BlockJson(b)) == Some(b)
  {
    var f := BlockJson(b).fields;
    assert f["type"] == BlockFields(b)["type"];
  }

  predicate ReadsAs(j: Json, m: Message) {
    && j.Obj? && TextAt(j.fields, "role") == Some(if m.role == User then "user" else "assistant")
    && "content" in j.fields
    && match m.content
       case Plain(t) => j.fields["content"] == Str(t)
       case Blocks(bs) =>
         var c := j.fields["content"];
         c.Arr? && |c.items| == |bs| && forall i :: 0 <= i < |bs| ==> ReadBlock(c.items[i]) == Some(bs[i])
  }

  /** What goes to the model is the message list: every role, text, block, call, result and marker can be read back
      from the JSON, in order. */
  lemma ConversationIsRead(ms: seq<Message>)
    ensures var j := ConversationJson(ms);
      j.Arr? && |j.items| == |ms| && forall i :: 0 <= i < |ms| ==> ReadsAs(j.items[i], ms[i])
  {
    forall i | 0 <= i < |ms| ensures ReadsAs(ConversationJson(ms).items[i], ms[i]) { MessageIsRead(ms[i]); }
  }

  lemma MessageIsRead(m: Message)
    ensures ReadsAs(MessageJson(m), m)
  {
    if m.content.Blocks? {
      var bs := m.content.blocks;
      forall i | 0 <= i < |bs| ensures ReadBlock(ContentJson(m.content).items[i]) == Some(bs[i]) { BlockIsRead(bs[i]); }
    }
  }

  /** The messages part of `transcript()`. */
  function Transcript(ms: seq<Message>): Json {
    Clean(ConversationJson(ms))
  }

  lemma CleanBlock(b: Block)
    ensures Clean(BlockJson(b)) == Clean(BlockJson(b.(cached := false)))
  {
    var f := BlockFields(b);
    assert BlockFields(b.(cached := false)) == f;
    assert Clean(WithMarker(f, b.cached)).fields == Clean(WithMarker(f, false)).fields;
  }

  lemma CleanMessage(m: Message)
    ensures Clean(MessageJson(m)) == Clean(MessageJson(UnmarkMessage(m)))
  {
    if m.content.Blocks? {
      var bs := m.content.blocks;
      var x, y := ContentJson(m.content), ContentJson(UnmarkMessage(m).content);
      forall i | 0 <= i < |bs| ensures Clean(x.items[i]) == Clean(y.items[i]) { CleanBlock(bs[i]); }
      assert Clean(x).items == Clean(y).items;
    }
    CleanMessageJson(m);
    CleanMessageJson(UnmarkMessage(m));
  }

  lemma CleanMessageJson(m: Message)
    ensures Clean(MessageJson(m))
         == Obj(map["role" := Str(if m.role == User then "user" else "assistant"),
                    "content" := Clean(ContentJson(m.content))])
  {
    var f := MessageJson(m).fields;
    assert f["role"] == Str(if m.role == User then "user" else "assistant");
    assert f["content"] == ContentJson(m.content);
    assert Clean(MessageJson(m)).fields == map["role" := Clean(f["role"]), "content" := Clean(f["content"])];
  }

  /** The transcript depends on nothing but the unmarked conversation. */
  lemma TranscriptIgnoresMarkers(ms: seq<Message>)
    ensures Transcript(ms) == Transcript(Unmark(ms))
  {
    var x, y := ConversationJson(ms), ConversationJson(Unmark(ms));
    forall i | 0 <= i < |ms| ensures Clean(x.items[i]) == Clean(y.items[i]) { CleanMessage(ms[i]); }
    assert Clean(x).items == Clean(y).items;
  }

  /** Marking is erased by the transcript. */
  lemma MarkingIsErasable(ms: seq<Message>)
    ensures Transcript(Marked(ms)) == Transcript(ms)
  {
    TranscriptIgnoresMarkers(Marked(ms));
    TranscriptIgnoresMarkers(ms);
    UnmarkMarked(ms);
  }

  // ---- What else the transcript drops ----

  predicate InputClean(b: Block) {
    b.ToolUse? ==> NoMarker(b.input)
  }

  /** No tool input of the conversation has a cache_control key of its own. */
  predicate InputsClean(ms: seq<Message>) {
    forall i, j :: 0 <= i < |ms| && ms[i].content.Blocks? && 0 <= j < |ms[i].content.blocks|
      ==> InputClean(ms[i].content.blocks[j])
  }

  lemma BlockNoMarker(b: Block)
    ensures NoMarker(BlockJson(b)) <==> !b.cached && InputClean(b)
  {
    var f := BlockFields(b);
    match b
    case Text(t, c) => assert f.Keys == {"type", "text"};
    case ToolUse(id, name, input, c) =>
      assert f.Keys == {"type", "id", "name", "input"};
      assert f["input"] == input && f["type"] == Str("tool_use") && f["id"] == Str(id) && f["name"] == Str(name);
    case ToolResult(id, output, c) => assert f.Keys == {"type", "tool_use_id", "content"};
  }

  predicate BlocksClean(bs: seq<Block>) {
    forall j :: 0 <= j < |bs| ==> !bs[j].cached && InputClean(bs[j])
  }

  lemma MessageNoMarker(m: Message)
    ensures NoMarker(MessageJson(m)) <==> (m.content.Blocks? ==> BlocksClean(m.content.blocks))
  {
    var f := MessageJson(m).fields;
    assert f.Keys == {"role", "content"} && f["content"] == ContentJson(m.content);
    assert NoMarker(MessageJson(m)) <==> NoMarker(ContentJson(m.content));
    if m.content.Blocks? {
      var bs := m.content.blocks;
      forall i | 0 <= i < |bs|
        ensures NoMarker(ContentJson(m.content).items[i]) <==> !bs[i].cached && InputClean(bs[i])
      {
        BlockNoMarker(bs[i]);
      }
    }
  }

  /** The transcript is the unmarked conversation, word for word, exactly when no tool input has a
      cache_control key anywhere inside it; otherwise part of a tool input is lost. */
  lemma TranscriptExactIff(ms: seq<Message>)
    ensures Transcript(ms) == ConversationJson(Unmark(ms)) <==> InputsClean(ms)
  {
    var clear := Unmark(ms);
    TranscriptIgnoresMarkers(ms);
    CleanIsIdentityIff(ConversationJson(clear));
    forall i | 0 <= i < |ms|
      ensures NoMarker(ConversationJson(clear).items[i])
         <==> (clear[i].content.Blocks? ==> BlocksClean(clear[i].content.blocks))
      ensures (clear[i].content.Blocks? ==> BlocksClean(clear[i].content.blocks))
         <==> (ms[i].content.Blocks? ==> forall j :: 0 <= j < |ms[i].content.blocks| ==>
           InputClean(ms[i].content.blocks[j]))
    {
      MessageNoMarker(clear[i]);
      if ms[i].content.Blocks? {
        var bs := ms[i].content.blocks;
        assert clear[i].content.blocks == UnmarkBlocks(bs);
        assert forall j :: 0 <= j < |bs| ==> UnmarkBlocks(bs)[j] == bs[j].(cached := false);
      }
    }
  }
}
