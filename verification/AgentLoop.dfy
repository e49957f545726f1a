/** The agent loop as the object it is: message list, counters and summaries updated in place, with the
    loops of the code, each method proved against module Session or Breakpoints. The replies of the
    model and the results of the tools are parameters. */
module AgentLoop {
  import opened Wrappers
  import opened Collections
  import opened Conversation
  import opened Breakpoints
  import Session

  lemma NextBlock(reply: seq<ReplyBlock>, i: nat, done: seq<Block>, calls: seq<Call>)
    requires i < |reply|
    ensures done + AssistantBlocks(reply[i..]) == done + BlocksOf(reply[i]) + AssistantBlocks(reply[i + 1..])
    ensures calls + Calls(reply[i..]) == calls + CallsOf(reply[i]) + Calls(reply[i + 1..])
  {
    assert reply[i..][0] == reply[i] && reply[i..][1..] == reply[i + 1..];
  }

  class Loop {
    const limits: Session.Limits

    var messages: seq<Message>
    var compressionSummaries: seq<Session.Summary>
    var toolCallCount: nat
    var contextTokens: nat
    var status: Session.Status

    ghost var appended: seq<Pair>
    ghost var inputs: seq<seq<Message>>
    ghost var lastWidth: nat

    constructor (mode: Session.Mode, maxToolCalls: Option<int>, maxDuration: Option<int>)
      ensures limits == Session.EffectiveLimits(mode, maxToolCalls, maxDuration)
      ensures toolCallCount == contextTokens == 0 && compressionSummaries == []
    {
      limits := Session.EffectiveLimits(mode, maxToolCalls, maxDuration);
      messages, compressionSummaries, toolCallCount, contextTokens := [], [], 0, 0;
      status := Session.Running;
      appended, inputs, lastWidth := [], [], 0;
    }

    ghost function State(): Session.State
      reads this
    {
      Session.State(messages, compressionSummaries, toolCallCount, contextTokens, status, appended, inputs, lastWidth)
    }

    /** Clears every marker and sets one on the last block of the latest list content. */
    method ApplyMessageCacheBreakpoint()
      modifies this`messages
      ensures messages == Marked(old(messages))
    {
      ghost var clear := Unmark(messages);
      var lastMessage, lastBlock := -1, -1;
      for i := 0 to |messages|
        invariant |messages| == |clear|
        invariant forall k :: 0 <= k < i ==> messages[k] == clear[k]
        invariant forall k :: i <= k < |clear| ==> messages[k] == old(messages)[k]
        invariant -1 <= lastMessage < i
        invariant lastMessage >= 0 ==>
          HasBlocks(clear[lastMessage]) && lastBlock == |clear[lastMessage].content.blocks| - 1
        invariant forall k :: lastMessage < k < i ==> !HasBlocks(clear[k])
      {
        if messages[i].content.Blocks? {
          var bs := messages[i].content.blocks;
          ghost var was := bs;
          for j := 0 to |bs|
            invariant |bs| == |was|
            invariant forall k :: 0 <= k < j ==> bs[k] == was[k].(cached := false)
            invariant forall k :: j <= k < |was| ==> bs[k] == was[k]
            invariant j == 0 ==> lastMessage < i && (lastMessage >= 0 ==>
                HasBlocks(clear[lastMessage]) && lastBlock == |clear[lastMessage].content.blocks| - 1)
            invariant j == 0 ==> -1 <= lastMessage && forall k :: lastMessage < k < i ==> !HasBlocks(clear[k])
            invariant j > 0 ==> lastMessage == i && lastBlock == j - 1
          {
            bs := bs[j := bs[j].(cached := false)];
            lastMessage, lastBlock := i, j;
          }
          assert bs == UnmarkBlocks(was);
          messages := messages[i := messages[i].(content := Blocks(bs))];
        }
      }
      assert messages == clear;
      if lastMessage >= 0 {
        var m := messages[lastMessage];
        var bs := m.content.blocks;
        messages := messages[lastMessage := m.(content := Blocks(bs[lastBlock := bs[lastBlock].(cached := true)]))];
      }
    }

    /** Builds the assistant message and the list of calls from the blocks of a reply. */
    method CollectBlocks(reply: seq<ReplyBlock>) returns (assistant: seq<Block>, calls: seq<Call>)
      ensures assistant == AssistantBlocks(reply) && calls == Calls(reply)
    {
      assistant, calls := [], [];
      for i := 0 to |reply|
        invariant assistant + AssistantBlocks(reply[i..]) == AssistantBlocks(reply)
        invariant calls + Calls(reply[i..]) == Calls(reply)
      {
        NextBlock(reply, i, assistant, calls);
        assistant := assistant + BlocksOf(reply[i]);
        calls := calls + CallsOf(reply[i]);
      }
    }

    /** Executes the calls in order, one result for each. */
    method ExecuteCalls(calls: seq<Call>, outputs: seq<string>) returns (results: seq<Block>)
      modifies this`toolCallCount
      ensures results == ResultBlocks(calls, outputs)
      ensures toolCallCount == old(toolCallCount) + |calls|
    {
      results := [];
      for k := 0 to |calls|
        invariant results == ResultBlocks(calls, outputs)[..k]
        invariant toolCallCount == old(toolCallCount) + k
      {
        toolCallCount := toolCallCount + 1;
        results := results + [ToolResult(calls[k].id, Output(outputs, k), false)];
      }
    }

    /** One turn; an API error leaves everything but the breakpoint as it was. */
    method StreamTurn(outcome: Session.Outcome)
      requires status == Session.Running
      modifies this
      ensures State() == Session.TakeTurn(old(State()), outcome)
    {
      ApplyMessageCacheBreakpoint();
      match outcome {
        case ApiError => status := Session.Aborted;
        case Reply(t) =>
          contextTokens := t.contextTokens;
          var assistant, calls := CollectBlocks(t.reply);
          var added := [Message(Assistant, Blocks(assistant))];
          if calls != [] {
            var results := ExecuteCalls(calls, t.outputs);
            added := added + [Message(User, Blocks(results))];
            appended := appended + [Pair(added[0], added[1])];
          }
          assert added == NewMessages(t);
          messages := messages + added;
          lastWidth := |calls|;
          status := Session.StatusAfter(t.stop);
      }
    }

    /** Replaces everything but the last four messages by a summary. */
    method CompressContext(summary: Option<string>)
      requires status == Session.Running
      modifies this
      ensures State() == Session.Compress(old(State()), summary)
    {
      if |messages| <= 6 { return; }
      match summary {
        case None => status := Session.Aborted;
        case Some(text) =>
          var cut := |messages| - KEPT;
          compressionSummaries := compressionSummaries + [Session.Summary(cut, text)];
          inputs := inputs + [messages[..cut]];
          messages := [SummaryMessage(text), ACK] + messages[cut..];
          contextTokens := contextTokens * 2 / 5;
      }
    }

    /** The whole loop: it ends, and ends in the state that Session.Run describes. */
    method Run(initialMessage: string, env: Session.Env)
      requires Session.WellBehaved(env) && env.limits == limits
      modifies this
      ensures State()
           == Session.Run(Session.Start(initialMessage, old(toolCallCount), old(contextTokens),
             old(compressionSummaries)), 0, env)
    {
      messages := [Message(User, Plain(initialMessage))];
      status := Session.Running;
      appended, inputs, lastWidth := [], [], 0;
      ghost var start := Session.Start(initialMessage, toolCallCount, contextTokens, compressionSummaries);
      var n := 0;
      while true
        invariant status == Session.Running
        invariant Session.Run(State(), n, env) == Session.Run(start, 0, env)
        decreases Max(0, limits.maxToolCalls - toolCallCount)
      {
        assert Session.Calling(env.outcome(n));
        Session.PassSpendsBudget(State(), n, env);
        ghost var s := State();
        if toolCallCount >= limits.maxToolCalls || env.elapsed(n) >= limits.maxDuration {
          status := Session.LimitReached;
          break;
        }
        if contextTokens > Session.CONTEXT_LIMIT {
          CompressContext(env.summary(n));
          if status == Session.Aborted { break; }
        }
        StreamTurn(env.outcome(n));
        assert State() == Session.Pass(s, n, env);
        if status != Session.Running { break; }
        n := n + 1;
      }
    }
  }
}
