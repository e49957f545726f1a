/** A whole `run()` of the agent loop as a function of what the model, the summariser and the clock
    answer, and what holds at the end of every run. */
module Session {
  import opened Wrappers
  import opened Collections
  import opened Conversation
  import opened Breakpoints

  // ---- Limits ----

  datatype Mode = Autonomous | Collaborative | Interactive | Chaos | UnknownMode

  datatype Limits = Limits(maxToolCalls: int, maxDuration: int)

  function ModeLimits(mode: Mode): Limits {
    match mode
    case Collaborative => Limits(200, 3600)
    case Interactive => Limits(200, 3600)
    case Chaos => Limits(100, 1800)
    case _ => Limits(50, 600)
  }

  /** An override of None or 0 leaves the mode's limit in force. */
  function Override(base: int, override: Option<int>): int {
    if override.Some? && override.value != 0 then override.value else base
  }

  function EffectiveLimits(mode: Mode, calls: Option<int>, duration: Option<int>): Limits {
    Limits(Override(ModeLimits(mode).maxToolCalls, calls), Override(ModeLimits(mode).maxDuration, duration))
  }

  /** `_manual_max_tool_calls` */
  function ManualMaxToolCalls(manual: bool, tests: nat): Option<int> {
    if !manual || tests == 0 then None else Some(Min(200, Max(60, 15 * tests + 15)))
  }

  /** `_manual_max_duration` */
  function ManualMaxDuration(manual: bool, tests: nat): Option<int> {
    if !manual || tests == 0 then None else Some(Min(3600, Max(600, 180 * tests)))
  }

  // ---- The run ----

  /** What the model call of a turn gives: a reply, or an error that is not retried any more. */
  datatype Outcome = Reply(turn: Turn) | ApiError

  /** Everything the loop does not decide: per turn the model's outcome, the summariser's text (None
      when that call raises) and the elapsed seconds at the limit check. */
  datatype Env = Env(outcome: nat -> Outcome, summary: nat -> Option<string>, elapsed: nat -> int, limits: Limits)

  datatype Status = Running | LimitReached | Complete | UnexpectedStop | Aborted

  datatype Summary = Summary(atMessageIndex: nat, text: string)

  /** The fields of the agent loop, and next to them the record of the run: every pair appended,
      unmarked, the input of every summary, and the number of tool calls of the last turn. */
  datatype State = State(messages: seq<Message>, summaries: seq<Summary>, toolCalls: nat, contextTokens: nat,
                         status: Status, appended: seq<Pair>, inputs: seq<seq<Message>>, lastWidth: nat)

  const CONTEXT_LIMIT := 160000  // 80% of 200000

  function Start(opening: string, toolCalls: nat, contextTokens: nat, summaries: seq<Summary>): State {
    State([Message(User, Plain(opening))], summaries, toolCalls, contextTokens, Running, [], [], 0)
  }

  predicate OverLimit(s: State, limits: Limits, elapsed: int) {
    s.toolCalls >= limits.maxToolCalls || elapsed >= limits.maxDuration
  }

  /** `_compress_context`; a call of the summariser that raises ends the run. */
  function Compress(s: State, summary: Option<string>): State {
    if |s.messages| <= 6 then s
    else if summary.None? then s.(status := Aborted)
    else
      var cut := |s.messages| - KEPT;
      s.(summaries := s.summaries + [Summary(cut, summary.value)],
         inputs := s.inputs + [s.messages[..cut]],
         messages := Compressed(s.messages, summary.value),
         contextTokens := s.contextTokens * 2 / 5)
  }

  function StatusAfter(stop: StopReason): Status {
    match stop
    case EndTurn => Complete
    case ToolUseStop => Running
    case OtherStop => UnexpectedStop
  }

  /** What the model's outcome adds: an error ends the run, a reply and the tool results are appended. */
  function Answered(s: State, o: Outcome): State {
    match o
    case ApiError => s.(status := Aborted)
    case Reply(t) =>
      var calls := Calls(t.reply);
      var added := NewMessages(t);
      s.(messages := s.messages + added,
         toolCalls := s.toolCalls + |calls|,
         contextTokens := t.contextTokens,
         status := StatusAfter(t.stop),
         appended := s.appended + (if calls == [] then [] else [Pair(added[0], added[1])]),
         lastWidth := |calls|)
  }

  /** One turn: the breakpoint moves before the model is called. */
  function TakeTurn(s: State, o: Outcome): State {
    Answered(s.(messages := Marked(s.messages)), o)
  }

  /** One pass through the loop body. */
  function Pass(s: State, n: nat, env: Env): State {
    if OverLimit(s, env.limits, env.elapsed(n)) then s.(status := LimitReached)
    else
      var c := if s.contextTokens > CONTEXT_LIMIT then Compress(s, env.summary(n)) else s;
      if c.status == Aborted then c else TakeTurn(c, env.outcome(n))
  }

  /** A `tool_use` stop comes with at least one tool call. */
  predicate Calling(o: Outcome) {
    o.Reply? && o.turn.stop == ToolUseStop ==> Calls(o.turn.reply) != []
  }

  ghost predicate WellBehaved(env: Env) {
    forall n: nat :: Calling(env.outcome(n))
  }

  /** The run from turn n on. It ends because every turn that continues makes a call. */
  ghost function Run(s: State, n: nat, env: Env): State
    requires WellBehaved(env)
    decreases if s.status != Running then 0
              else 1 + Max(0, env.limits.maxToolCalls - s.toolCalls)
  {
    if s.status != Running then s
    else
      var next := Pass(s, n, env);
      assert Calling(env.outcome(n));
      PassSpendsBudget(s, n, env);
      Run(next, n + 1, env)
  }

  lemma PassSpendsBudget(s: State, n: nat, env: Env)
    requires s.status == Running && Calling(env.outcome(n))
    ensures Pass(s, n, env).status == Running
        ==> s.toolCalls < env.limits.maxToolCalls && s.toolCalls < Pass(s, n, env).toolCalls
  {}

  // ---- The invariant of every run ----

  /** The pairs of every summary input, in order. */
  function SummarisedPairs(inputs: seq<seq<Message>>): seq<Pair> {
    if inputs == [] then [] else PairsOf(Unmark(inputs[0])) + SummarisedPairs(inputs[1..])
  }

  /** A whole list, possibly followed by one reply without tool calls. */
  predicate Ended(ms: seq<Message>) {
    WellShaped(ms) || (ms != [] && WellShaped(ms[..|ms| - 1]) && IsBare(ms[|ms| - 1]))
  }

  /** Every pair ever appended is in exactly one place: in the input of one summary or in the list,
      in the order of the run. */
  predicate Conserved(s: State) {
    s.appended == SummarisedPairs(s.inputs) + PairsOf(Unmark(s.messages))
  }

  /** At most one block is marked. */
  ghost predicate OneMark(ms: seq<Message>) {
    forall i, j, k, l :: MarkedAt(ms, i, j) && MarkedAt(ms, k, l) ==> i == k && j == l
  }

  /** Every recorded summary has its input, and says where it was cut. */
  predicate SummariesMatch(s: State, before: nat) {
    && |s.summaries| == before + |s.inputs|
    && forall k :: 0 <= k < |s.inputs| ==> s.summaries[before + k].atMessageIndex == |s.inputs[k]|
  }

  /** No more calls than the budget leaves to the turns before the last one, plus the last turn. */
  predicate WithinBudget(s: State, limits: Limits, before: nat) {
    s.toolCalls <= Max(before, limits.maxToolCalls - 1 + s.lastWidth)
  }

  ghost predicate Inv(s: State, limits: Limits, calls: nat, summaries: nat) {
    && (s.status == Running ==> WellShaped(Unmark(s.messages)))
    && Ended(Unmark(s.messages))
    && Conserved(s) && OneMark(s.messages) && SummariesMatch(s, summaries) && WithinBudget(s, limits, calls)
  }

  // ---- Markers do not matter ----

  lemma UnmarkConcat(a: seq<Message>, b: seq<Message>)
    ensures Unmark(a + b) == Unmark(a) + Unmark(b)
  {}

  lemma BlocksUnmarked(bs: seq<Block>)
    requires forall b :: b in bs ==> !b.cached
    ensures UnmarkBlocks(bs) == bs
  {
    forall i | 0 <= i < |bs| ensures bs[i].(cached := false) == bs[i] { assert bs[i] in bs; }
  }

  lemma {:induction false} AssistantBlocksUnmarked(reply: seq<ReplyBlock>)
    ensures forall b :: b in AssistantBlocks(reply) ==> !b.cached
  {
    if reply != [] { AssistantBlocksUnmarked(reply[1..]); }
  }

  lemma NewMessagesUnmarked(t: Turn)
    ensures Unmark(NewMessages(t)) == NewMessages(t)
    ensures forall i, j :: !MarkedAt(NewMessages(t), i, j)
  {
    AssistantBlocksUnmarked(t.reply);
    BlocksUnmarked(AssistantBlocks(t.reply));
    BlocksUnmarked(ResultBlocks(Calls(t.reply), t.outputs));
  }

  lemma CompressedUnmark(ms: seq<Message>, summary: string)
    requires KEPT <= |ms|
    ensures Unmark(Compressed(ms, summary)) == Compressed(Unmark(ms), summary)
    ensures Unmark(ms[..|ms| - KEPT]) == Unmark(ms)[..|ms| - KEPT]
  {
    assert ms[|ms| - KEPT..] == ms[|ms| - KEPT..|ms|];
    UnmarkConcat([SummaryMessage(summary), ACK], ms[|ms| - KEPT..]);
  }

  // ---- Compression keeps the invariant ----

  lemma {:induction false} SummarisedPairsAppend(inputs: seq<seq<Message>>, input: seq<Message>)
    ensures SummarisedPairs(inputs + [input]) == SummarisedPairs(inputs) + PairsOf(Unmark(input))
  {
    if inputs == [] {
      assert inputs + [input] == [input];
      assert SummarisedPairs([]) == [];
    } else {
      assert (inputs + [input])[1..] == inputs[1..] + [input];
      SummarisedPairsAppend(inputs[1..], input);
    }
  }

  lemma CompressConservesPairs(s: State, summary: string)
    requires WellShaped(Unmark(s.messages)) && Conserved(s) && |s.messages| > 6
    ensures WellShaped(Unmark(Compress(s, Some(summary)).messages)) && Conserved(Compress(s, Some(summary)))
  {
    CompressedUnmark(s.messages, summary);
    CompressKeepsShape(Unmark(s.messages), summary);
    CompressConserves(Unmark(s.messages), summary);
    SummarisedPairsAppend(s.inputs, s.messages[..|s.messages| - KEPT]);
  }

  lemma SuffixOneMark(head: seq<Message>, ms: seq<Message>, cut: nat)
    requires OneMark(ms) && cut <= |ms| && forall k :: 0 <= k < |head| ==> head[k].content.Plain?
    ensures OneMark(head + ms[cut..])
  {
    var out := head + ms[cut..];
    forall i: nat, j: nat, k: nat, l: nat | MarkedAt(out, i, j) && MarkedAt(out, k, l) ensures i == k && j == l {
      assert |head| <= i && |head| <= k;
      assert MarkedAt(ms, i - |head| + cut, j) && MarkedAt(ms, k - |head| + cut, l);
    }
  }

  lemma CompressKeeps(s: State, summary: Option<string>, limits: Limits, calls: nat, summaries: nat)
    requires s.status == Running && Inv(s, limits, calls, summaries)
    ensures Inv(Compress(s, summary), limits, calls, summaries)
    ensures Compress(s, summary).status == Running ==> WellShaped(Unmark(Compress(s, summary).messages))
  {
    if |s.messages| > 6 && summary.Some? {
      CompressConservesPairs(s, summary.value);
      SuffixOneMark([SummaryMessage(summary.value), ACK], s.messages, |s.messages| - KEPT);
    }
  }

  // ---- A turn keeps the invariant ----

  lemma AppendKeepsShape(ms: seq<Message>, t: Turn)
    requires WellShaped(ms)
    ensures Calls(t.reply) != [] ==> WellShaped(ms + NewMessages(t))
    ensures Calls(t.reply) == [] ==> Ended(ms + NewMessages(t))
  {
    var h := if Shaped(ms, 1) then 1 else 2;
    TurnAppends(t);
    if Calls(t.reply) != [] {
      AppendPair(ms, h, NewMessages(t));
    } else {
      assert (ms + NewMessages(t))[..|ms|] == ms;
    }
  }

  lemma TurnConserves(s: State, t: Turn)
    requires WellShaped(Unmark(s.messages)) && Conserved(s)
    ensures Conserved(TakeTurn(s, Reply(t)))
    ensures Unmark(TakeTurn(s, Reply(t)).messages) == Unmark(s.messages) + NewMessages(t)
  {
    var ms := Unmark(s.messages);
    UnmarkMarked(s.messages);
    UnmarkConcat(Marked(s.messages), NewMessages(t));
    NewMessagesUnmarked(t);
    TurnAddsPair(ms, if Shaped(ms, 1) then 1 else 2, t);
  }

  lemma MarkedOneMark(ms: seq<Message>)
    ensures OneMark(Marked(ms))
  {
    forall i: nat, j: nat, k: nat, l: nat | MarkedAt(Marked(ms), i, j) && MarkedAt(Marked(ms), k, l)
      ensures i == k && j == l
    {
      OnlyLastIsMarked(ms, i, j);
      OnlyLastIsMarked(ms, k, l);
    }
  }

  lemma AppendOneMark(ms: seq<Message>, t: Turn)
    requires OneMark(ms)
    ensures OneMark(ms + NewMessages(t))
  {
    NewMessagesUnmarked(t);
    var out := ms + NewMessages(t);
    forall i: nat, j: nat | MarkedAt(out, i, j) ensures MarkedAt(ms, i, j) {
      assert i >= |ms| ==> MarkedAt(NewMessages(t), i - |ms|, j);
    }
  }

  lemma TurnKeeps(s: State, o: Outcome, limits: Limits, calls: nat, summaries: nat)
    requires s.status == Running && Inv(s, limits, calls, summaries) && Calling(o)
    requires s.toolCalls < limits.maxToolCalls
    ensures Inv(TakeTurn(s, o), limits, calls, summaries)
  {
    MarkedOneMark(s.messages);
    UnmarkMarked(s.messages);
    if o.Reply? {
      TurnConserves(s, o.turn);
      AppendKeepsShape(Unmark(s.messages), o.turn);
      AppendOneMark(Marked(s.messages), o.turn);
    }
  }

  lemma PassKeeps(s: State, n: nat, env: Env, calls: nat, summaries: nat)
    requires s.status == Running && Inv(s, env.limits, calls, summaries) && Calling(env.outcome(n))
    ensures Inv(Pass(s, n, env), env.limits, calls, summaries)
  {
    if !OverLimit(s, env.limits, env.elapsed(n)) {
      var c := if s.contextTokens > CONTEXT_LIMIT then Compress(s, env.summary(n)) else s;
      CompressKeeps(s, env.summary(n), env.limits, calls, summaries);
      if c.status == Running {
        TurnKeeps(c, env.outcome(n), env.limits, calls, summaries);
      }
    }
  }

  lemma {:induction false} RunKeeps(s: State, n: nat, env: Env, calls: nat, summaries: nat)
    requires WellBehaved(env) && Inv(s, env.limits, calls, summaries)
    ensures Inv(Run(s, n, env), env.limits, calls, summaries)
    ensures Run(s, n, env).status != Running
    decreases if s.status != Running then 0
              else 1 + Max(0, env.limits.maxToolCalls - s.toolCalls)
  {
    if s.status == Running {
      assert Calling(env.outcome(n));
      PassKeeps(s, n, env, calls, summaries);
      PassSpendsBudget(s, n, env);
      RunKeeps(Pass(s, n, env), n + 1, env, calls, summaries);
    }
  }

  // ---- The shape does not depend on markers ----

  lemma {:induction false} IdsIgnoreMarkers(bs: seq<Block>)
    ensures UseIds(UnmarkBlocks(bs)) == UseIds(bs) && ResultIds(UnmarkBlocks(bs)) == ResultIds(bs)
  {
    if bs != [] {
      assert UnmarkBlocks(bs)[1..] == UnmarkBlocks(bs[1..]);
      IdsIgnoreMarkers(bs[1..]);
    }
  }

  lemma PairIgnoresMarkers(a: Message, u: Message)
    requires IsPair(UnmarkMessage(a), UnmarkMessage(u))
    ensures IsPair(a, u)
  {
    var x, y := a.content.blocks, u.content.blocks;
    IdsIgnoreMarkers(x);
    IdsIgnoreMarkers(y);
    forall b | b in y ensures b.ToolResult? {
      var i :| 0 <= i < |y| && y[i] == b;
      assert UnmarkBlocks(y)[i] in UnmarkBlocks(y);
    }
    forall b | b in x ensures !b.ToolResult? {
      var i :| 0 <= i < |x| && x[i] == b;
      assert UnmarkBlocks(x)[i] in UnmarkBlocks(x);
    }
  }

  lemma BareIgnoresMarkers(m: Message)
    requires IsBare(UnmarkMessage(m))
    ensures IsBare(m)
  {
    var x := m.content.blocks;
    forall b | b in x ensures b.Text? {
      var i :| 0 <= i < |x| && x[i] == b;
      assert UnmarkBlocks(x)[i] in UnmarkBlocks(x);
    }
  }

  lemma ShapeIgnoresMarkers(ms: seq<Message>, h: nat)
    requires Shaped(Unmark(ms), h)
    ensures Shaped(ms, h)
  {
    var clear := Unmark(ms);
    forall i | 0 <= i < h ensures ms[..h][i] == clear[..h][i] {
      assert clear[..h][i] == UnmarkMessage(ms[i]);
      assert clear[..h][0].content.Plain? && (h == 2 ==> clear[..h][1] == ACK);
    }
    assert ms[..h] == clear[..h];
    forall i | 0 <= i < |ms[h..]| / 2 ensures IsPair(ms[h..][2 * i], ms[h..][2 * i + 1]) {
      assert IsPair(clear[h..][2 * i], clear[h..][2 * i + 1]);
      PairIgnoresMarkers(ms[h..][2 * i], ms[h..][2 * i + 1]);
    }
  }

  lemma WellShapedIgnoresMarkers(ms: seq<Message>)
    requires WellShaped(Unmark(ms))
    ensures WellShaped(ms)
  {
    ShapeIgnoresMarkers(ms, if Shaped(Unmark(ms), 1) then 1 else 2);
  }

  lemma EndedIgnoresMarkers(ms: seq<Message>)
    requires Ended(Unmark(ms))
    ensures Ended(ms)
  {
    if WellShaped(Unmark(ms)) {
      WellShapedIgnoresMarkers(ms);
    } else {
      var last := |ms| - 1;
      assert Unmark(ms[..last]) == Unmark(ms)[..last];
      WellShapedIgnoresMarkers(ms[..last]);
      BareIgnoresMarkers(ms[last]);
    }
  }

  // ---- Main results ----

  /** Every run ends with a conversation of whole pairs behind its head, up to one last reply without
      tool calls; with every appended pair either live or in the input of exactly one summary; with at
      most one marked block; and within the call budget. */
  lemma {:induction false} EveryRun(opening: string, toolCalls: nat, contextTokens: nat, summaries: seq<Summary>,
      env: Env)
    requires WellBehaved(env)
    ensures
      var end := Run(Start(opening, toolCalls, contextTokens, summaries), 0, env);
      && end.status != Running
      && Ended(end.messages) && Conserved(end) && OneMark(end.messages)
      && SummariesMatch(end, |summaries|) && WithinBudget(end, env.limits, toolCalls)
  {
    var s := Start(opening, toolCalls, contextTokens, summaries);
    RunKeeps(s, 0, env, toolCalls, |summaries|);
    EndedIgnoresMarkers(Run(s, 0, env).messages);
  }

  /** The state before turn m of the run from turn n on, if the run gets there. */
  ghost function Before(s: State, n: nat, env: Env, m: nat): Option<State>
    decreases m - n
  {
    if n == m then Some(s)
    else if n < m && s.status == Running then Before(Pass(s, n, env), n + 1, env, m)
    else None
  }

  /** The run from turn n on reaches the state t before turn m. */
  ghost predicate Reaches(s: State, n: nat, env: Env, t: State, m: nat) {
    Before(s, n, env, m) == Some(t)
  }

  lemma {:induction false} ReachesKeeps(s: State, n: nat, env: Env, t: State, m: nat, calls: nat, summaries: nat)
    requires n <= m && WellBehaved(env) && Inv(s, env.limits, calls, summaries) && Reaches(s, n, env, t, m)
    ensures Inv(t, env.limits, calls, summaries)
    decreases m - n
  {
    if n < m {
      assert Calling(env.outcome(n));
      PassKeeps(s, n, env, calls, summaries);
      ReachesKeeps(Pass(s, n, env), n + 1, env, t, m, calls, summaries);
    }
  }

  /** Whenever a run is about to take another turn, every call made so far has been answered: the list is a
      head and whole pairs; and at most one block is marked. */
  lemma {:induction false} BetweenTurns(opening: string, toolCalls: nat, contextTokens: nat, summaries: seq<Summary>,
                                        env: Env, t: State, m: nat)
    requires WellBehaved(env) && Reaches(Start(opening, toolCalls, contextTokens, summaries), 0, env, t, m)
    requires t.status == Running
    ensures WellShaped(t.messages) && OneMark(t.messages) && Conserved(t)
  {
    ReachesKeeps(Start(opening, toolCalls, contextTokens, summaries), 0, env, t, m, toolCalls, |summaries|);
    WellShapedIgnoresMarkers(t.messages);
  }

  /** The budget in numbers: no run, manual or not, makes more than 199 calls before its last turn, and
      without the manual override no more than 49 in autonomous and 99 in chaos mode. */
  lemma {:induction false} BudgetInNumbers(opening: string, env: Env, mode: Mode, manual: bool, tests: nat)
    requires WellBehaved(env)
    requires env.limits == EffectiveLimits(mode, ManualMaxToolCalls(manual, tests), ManualMaxDuration(manual, tests))
    ensures
      var end := Run(Start(opening, 0, 0, []), 0, env);
      && end.toolCalls <= 199 + end.lastWidth
      && (mode.Autonomous? && !manual ==> end.toolCalls <= 49 + end.lastWidth)
      && (mode.Chaos? && !manual ==> end.toolCalls <= 99 + end.lastWidth)
  {
    EveryRun(opening, 0, 0, [], env);
  }

  /** The manual budgets grow with the number of tests, between 60 and 200 calls and between ten minutes and
      an hour; they follow the number of tests exactly from 3 to 12 and from 4 to 20 tests, and are at their
      greatest from 13 and 20 tests on. There is none without the manual mode or without tests. */
  lemma ManualBudgets(tests: nat, more: nat)
    requires 0 < tests <= more
    ensures 60 <= ManualMaxToolCalls(true, tests).value <= ManualMaxToolCalls(true, more).value <= 200
    ensures 600 <= ManualMaxDuration(true, tests).value <= ManualMaxDuration(true, more).value <= 3600
    ensures ManualMaxToolCalls(true, tests) == Some(15 * tests + 15) <==> 3 <= tests <= 12
    ensures ManualMaxDuration(true, tests) == Some(180 * tests) <==> 4 <= tests <= 20
    ensures ManualMaxToolCalls(true, tests) == Some(200) <==> 13 <= tests
    ensures ManualMaxDuration(true, tests) == Some(3600) <==> 20 <= tests
    ensures ManualMaxToolCalls(true, 0) == ManualMaxToolCalls(false, tests) == None
    ensures ManualMaxDuration(true, 0) == ManualMaxDuration(false, tests) == None
  {}

  lemma NextTurn(s: State, n: nat, env: Env, t: State, m: nat) returns (p: State)
    requires n < m && Reaches(s, n, env, t, m)
    ensures Reaches(p, n + 1, env, t, m)
  {
    p := Pass(s, n, env);
  }

  /** The state before turn k of the turns that lead on to t. */
  lemma {:induction false} TurnAt(s: State, n: nat, env: Env, t: State, m: nat, k: nat) returns (q: State)
    requires n <= k <= m && Reaches(s, n, env, t, m)
    ensures Reaches(q, k, env, t, m)
    decreases k - n
  {
    if n == k {
      q := s;
    } else {
      var p := NextTurn(s, n, env, t, m);
      q := TurnAt(p, n + 1, env, t, m, k);
    }
  }

  /** A run takes no turn past its time: one that is still going before turn m found time left at each check. */
  lemma {:induction false} TurnsWithinTime(s: State, n: nat, env: Env, t: State, m: nat, k: nat)
    requires WellBehaved(env) && n <= k < m && Reaches(s, n, env, t, m) && t.status == Running
    ensures env.elapsed(k) < env.limits.maxDuration
  {
    var q := TurnAt(s, n, env, t, m, k);
    var p := FirstTurn(q, k, env, t, m);
  }

  /** In numbers: at every turn of a run that is still going less than an hour had passed; without the manual
      override less than ten minutes in autonomous and half an hour in chaos mode; with it, for up to 20
      tests, less than three minutes a test or ten minutes. */
  lemma {:induction false} TimeInNumbers(opening: string, env: Env, mode: Mode, manual: bool, tests: nat, t: State,
                                         m: nat, k: nat)
    requires WellBehaved(env) && k < m && Reaches(Start(opening, 0, 0, []), 0, env, t, m) && t.status == Running
    requires env.limits == EffectiveLimits(mode, ManualMaxToolCalls(manual, tests), ManualMaxDuration(manual, tests))
    ensures env.elapsed(k) < 3600
    ensures mode.Autonomous? && !manual ==> env.elapsed(k) < 600
    ensures mode.Chaos? && !manual ==> env.elapsed(k) < 1800
    ensures manual && 0 < tests <= 20 ==> env.elapsed(k) < Max(600, 180 * tests)
  {
    TurnsWithinTime(Start(opening, 0, 0, []), 0, env, t, m, k);
  }

  /** Nor more turns than the limit leaves it calls: each has made a call, and found calls left. */
  lemma {:induction false} TurnsWithinCalls(s: State, n: nat, env: Env, t: State, m: nat)
    requires WellBehaved(env) && n < m && Reaches(s, n, env, t, m) && t.status == Running
    ensures m - n <= t.toolCalls - s.toolCalls
    ensures s.toolCalls + (m - n) <= env.limits.maxToolCalls
    decreases m - n
  {
    var p := FirstTurn(s, n, env, t, m);
    if n + 1 < m { TurnsWithinCalls(p, n + 1, env, t, m); }
  }

  /** The first of the turns that lead on to t. */
  lemma FirstTurn(s: State, n: nat, env: Env, t: State, m: nat) returns (p: State)
    requires WellBehaved(env) && n < m && Reaches(s, n, env, t, m) && t.status == Running
    ensures Reaches(p, n + 1, env, t, m) && p.status == Running
    ensures env.elapsed(n) < env.limits.maxDuration && s.toolCalls < env.limits.maxToolCalls
      && s.toolCalls < p.toolCalls
    ensures n + 1 == m ==> p == t
    ensures Carried(s, p, env.outcome(n))
  {
    p := Pass(s, n, env);
    assert Calling(env.outcome(n));
    assert Before(s, n, env, m) == Before(p, n + 1, env, m);
    assert n + 1 == m || p.status == Running;
    PassCarries(s, n, env);
  }

  // ---- What stops a run ----

  /** The summariser is asked, and raises. */
  predicate SummaryRaises(s: State, n: nat, env: Env) {
    s.contextTokens > 160000 && |s.messages| > 6 && env.summary(n).None?
  }

  predicate Stops(o: Outcome, stop: StopReason) {
    o.Reply? && o.turn.stop == stop
  }

  /** How the pass n ends: at a limit exactly when one is reached; otherwise by a call that raises, or as the
      reply's stop reason says. */
  predicate EndsAs(s: State, n: nat, env: Env, status: Status) {
    var over := s.toolCalls >= env.limits.maxToolCalls || env.elapsed(n) >= env.limits.maxDuration;
    var raises := SummaryRaises(s, n, env) || env.outcome(n).ApiError?;
    && (status == LimitReached <==> over)
    && (status == Aborted <==> !over && raises)
    && (status == Complete <==> !over && !raises && Stops(env.outcome(n), EndTurn))
    && (status == UnexpectedStop <==> !over && !raises && Stops(env.outcome(n), OtherStop))
    && (status == Running <==> !over && !raises && Stops(env.outcome(n), ToolUseStop))
  }

  lemma PassEndsAs(s: State, n: nat, env: Env)
    requires s.status == Running
    ensures EndsAs(s, n, env, Pass(s, n, env).status)
  {
    var c := if s.contextTokens > CONTEXT_LIMIT then Compress(s, env.summary(n)) else s;
    assert c.status == Aborted <==> SummaryRaises(s, n, env);
    if !OverLimit(s, env.limits, env.elapsed(n)) && c.status != Aborted {
      assert Pass(s, n, env).status == TakeTurn(c, env.outcome(n)).status;
    }
  }

  /** Every run goes on to a last state in which it is still running, and the pass it makes there ends it. */
  lemma {:induction false} RunEndsAs(s: State, n: nat, env: Env) returns (t: State, m: nat)
    requires WellBehaved(env) && s.status == Running
    ensures n <= m && Reaches(s, n, env, t, m) && t.status == Running
    ensures Run(s, n, env) == Pass(t, m, env) && Run(s, n, env).status != Running
    ensures EndsAs(t, m, env, Run(s, n, env).status)
    decreases 1 + Max(0, env.limits.maxToolCalls - s.toolCalls)
  {
    var p := Pass(s, n, env);
    assert Calling(env.outcome(n));
    PassEndsAs(s, n, env);
    if p.status == Running {
      PassSpendsBudget(s, n, env);
      t, m := RunEndsAs(p, n + 1, env);
    } else {
      t, m := s, n;
    }
  }

  /** The pass stops at these limits, and at no others. */
  predicate LimitsAre(s: State, n: nat, env: Env, calls: int, duration: int) {
    Pass(s, n, env).status == LimitReached <==> s.toolCalls >= calls || env.elapsed(n) >= duration
  }

  /** In numbers: each mode has its own limits; an override that is neither missing nor zero replaces one. */
  lemma LimitsInForce(s: State, n: nat, env: Env, mode: Mode, calls: Option<int>, duration: Option<int>)
    requires s.status == Running && env.limits == EffectiveLimits(mode, calls, duration)
    ensures var c := calls.Some? && calls.value != 0;
      var d := duration.Some? && duration.value != 0;
      match mode
      case Autonomous =>
        LimitsAre(s, n, env, if c then calls.value else 50, if d then duration.value else 600)
      case Chaos =>
        LimitsAre(s, n, env, if c then calls.value else 100, if d then duration.value else 1800)
      case Collaborative =>
        LimitsAre(s, n, env, if c then calls.value else 200, if d then duration.value else 3600)
      case Interactive =>
        LimitsAre(s, n, env, if c then calls.value else 200, if d then duration.value else 3600)
      case UnknownMode =>
        LimitsAre(s, n, env, if c then calls.value else 50, if d then duration.value else 600)
  {}

  // ---- What a run carries ----

  function TurnPairs(o: Outcome): seq<Pair> {
    if o.Reply? && Uses(o.turn.reply) != [] then
      var ms := NewMessages(o.turn);
      if |ms| == 2 then [Pair(ms[0], ms[1])] else []
    else []
  }

  ghost function PairsBetween(env: Env, n: nat, m: nat): seq<Pair>
    decreases m - n
  {
    if n >= m then [] else TurnPairs(env.outcome(n)) + PairsBetween(env, n + 1, m)
  }

  ghost function CallsBetween(env: Env, n: nat, m: nat): nat
    decreases m - n
  {
    if n >= m then 0
    else (if env.outcome(n).Reply? then |Uses(env.outcome(n).turn.reply)| else 0) + CallsBetween(env, n + 1, m)
  }

  /** A turn adds its pair, counts its calls, and takes the context size it reports. */
  predicate Carried(s: State, p: State, o: Outcome) {
    && o.Reply? && p.appended == s.appended + TurnPairs(o)
    && p.toolCalls == s.toolCalls + |Uses(o.turn.reply)| && p.contextTokens == o.turn.contextTokens
  }

  lemma PassCarries(s: State, n: nat, env: Env)
    requires s.status == Running && Pass(s, n, env).status !in {LimitReached, Aborted}
    ensures Carried(s, Pass(s, n, env), env.outcome(n))
  {
    CallsAreUses(env.outcome(n).turn.reply);
  }

  /** A run that has got to turn m has appended exactly the pairs of its turns, in order, and counted their
      calls; so every tool result of the run is live or in the input of a summary, with its output. */
  lemma {:induction false} ReachedCarries(s: State, n: nat, env: Env, t: State, m: nat)
    requires n <= m && WellBehaved(env) && Reaches(s, n, env, t, m) && t.status == Running
    ensures t.appended == s.appended + PairsBetween(env, n, m)
    ensures t.toolCalls == s.toolCalls + CallsBetween(env, n, m)
    decreases m - n
  {
    if n < m {
      var p := FirstCarries(s, n, env, t, m);
      ReachedCarries(p, n + 1, env, t, m);
    }
  }

  lemma FirstCarries(s: State, n: nat, env: Env, t: State, m: nat) returns (p: State)
    requires WellBehaved(env) && n < m && Reaches(s, n, env, t, m) && t.status == Running
    ensures Reaches(p, n + 1, env, t, m)
    ensures p.appended + PairsBetween(env, n + 1, m) == s.appended + PairsBetween(env, n, m)
    ensures p.toolCalls + CallsBetween(env, n + 1, m) == s.toolCalls + CallsBetween(env, n, m)
  {
    p := FirstTurn(s, n, env, t, m);
    var pairs, rest := TurnPairs(env.outcome(n)), PairsBetween(env, n + 1, m);
    assert s.appended + pairs + rest == s.appended + (pairs + rest);
  }

  /** The context size is the one that the last turn reported. */
  lemma {:induction false} ContextIsLast(s: State, n: nat, env: Env, t: State, m: nat)
    requires WellBehaved(env) && n < m && Reaches(s, n, env, t, m) && t.status == Running
    ensures env.outcome(m - 1).Reply? && t.contextTokens == env.outcome(m - 1).turn.contextTokens
    decreases m - n
  {
    var p := FirstTurn(s, n, env, t, m);
    if n + 1 < m { ContextIsLast(p, n + 1, env, t, m); }
  }

  /** A pass compresses exactly above the threshold, on more than six messages; it keeps the summary's text and
      the length of what was summarised. */
  lemma CompressesIff(s: State, n: nat, env: Env)
    requires s.status == Running && Pass(s, n, env).status != LimitReached && !SummaryRaises(s, n, env)
    ensures var p := Pass(s, n, env);
      if s.contextTokens > 160000 && |s.messages| > 6 then
        && p.summaries == s.summaries + [Summary(|s.messages| - 4, env.summary(n).value)]
        && p.inputs == s.inputs + [s.messages[..|s.messages| - 4]]
      else p.summaries == s.summaries && p.inputs == s.inputs
  {}

  /** The list begins with the opening message, or, after a compression, with the text of the last summary. */
  predicate HeadIs(s: State, opening: string, before: nat) {
    && s.messages != [] && s.messages[0].role == User && s.messages[0].content.Plain? && before <= |s.summaries|
    && if |s.summaries| == before then s.messages[0].content.text == opening
       else EndsWith(s.messages[0].content.text, s.summaries[|s.summaries| - 1].text)
  }

  /** It counts two fifths of the context from there on, rounded down. */
  lemma CompressKeepsHead(s: State, summary: Option<string>, opening: string, before: nat)
    requires HeadIs(s, opening, before)
    ensures HeadIs(Compress(s, summary), opening, before)
    ensures |s.messages| > 6 && summary.Some? ==>
      5 * Compress(s, summary).contextTokens <= 2 * s.contextTokens < 5 * Compress(s, summary).contextTokens + 5
  {
    if |s.messages| > 6 && summary.Some? { CompressedCarries(s.messages, summary.value); }
  }

  lemma TurnKeepsHead(s: State, o: Outcome, opening: string, before: nat)
    requires HeadIs(s, opening, before)
    ensures HeadIs(TakeTurn(s, o), opening, before)
  {
    var marked := Marked(s.messages);
    assert Unmark(s.messages)[0] == s.messages[0];
    assert marked[0] == s.messages[0];
    if o.Reply? { assert (marked + NewMessages(o.turn))[0] == marked[0]; }
  }

  lemma PassKeepsHead(s: State, n: nat, env: Env, opening: string, before: nat)
    requires s.status == Running && HeadIs(s, opening, before)
    ensures HeadIs(Pass(s, n, env), opening, before)
  {
    if s.contextTokens > CONTEXT_LIMIT {
      var c := Compress(s, env.summary(n));
      CompressKeepsHead(s, env.summary(n), opening, before);
      TurnKeepsHead(c, env.outcome(n), opening, before);
    } else {
      TurnKeepsHead(s, env.outcome(n), opening, before);
    }
  }

  lemma {:induction false} HeadIsKept(s: State, n: nat, env: Env, t: State, m: nat, opening: string, before: nat)
    requires n <= m && Reaches(s, n, env, t, m) && HeadIs(s, opening, before)
    ensures HeadIs(t, opening, before)
    decreases m - n
  {
    if n < m {
      PassKeepsHead(s, n, env, opening, before);
      HeadIsKept(Pass(s, n, env), n + 1, env, t, m, opening, before);
    }
  }

  /** A turn's messages come last, after what the list was or was compressed to. */
  lemma TurnComesLast(s: State, n: nat, env: Env)
    requires s.status == Running && Pass(s, n, env).status !in {LimitReached, Aborted}
    ensures var base := if s.contextTokens > 160000 && |s.messages| > 6
        then Compressed(s.messages, env.summary(n).value) else s.messages;
      Unmark(Pass(s, n, env).messages) == Unmark(base) + Unmark(NewMessages(env.outcome(n).turn))
  {
    var base := if s.contextTokens > CONTEXT_LIMIT && |s.messages| > 6
      then Compressed(s.messages, env.summary(n).value) else s.messages;
    UnmarkMarked(base);
    UnmarkConcat(Marked(base), NewMessages(env.outcome(n).turn));
  }

  /** Two states that differ in markers only. */
  predicate SameButMarkers(s: State, t: State) {
    && Unmark(s.messages) == Unmark(t.messages)
    && s.summaries == t.summaries && s.toolCalls == t.toolCalls && s.contextTokens == t.contextTokens
    && s.status == t.status
  }

  lemma CompressIgnoresMarkers(s: State, t: State, summary: Option<string>)
    requires SameButMarkers(s, t)
    ensures SameButMarkers(Compress(s, summary), Compress(t, summary))
  {
    assert |Unmark(s.messages)| == |s.messages| && |Unmark(t.messages)| == |t.messages|;
    if |s.messages| > 6 && summary.Some? {
      CompressedUnmark(s.messages, summary.value);
      CompressedUnmark(t.messages, summary.value);
    }
  }

  // ---- The run that never marks ----

  function PlainPass(s: State, n: nat, env: Env): State {
    if OverLimit(s, env.limits, env.elapsed(n)) then s.(status := LimitReached)
    else
      var c := if s.contextTokens > CONTEXT_LIMIT then Compress(s, env.summary(n)) else s;
      if c.status == Aborted then c else Answered(c, env.outcome(n))
  }

  /** The loop without its marking step. */
  ghost function PlainRun(s: State, n: nat, env: Env): State
    requires WellBehaved(env)
    decreases if s.status != Running then 0
              else 1 + Max(0, env.limits.maxToolCalls - s.toolCalls)
  {
    if s.status != Running then s
    else
      assert Calling(env.outcome(n));
      PlainRun(PlainPass(s, n, env), n + 1, env)
  }

  lemma TurnIgnoresMarkers(s: State, t: State, o: Outcome)
    requires SameButMarkers(s, t)
    ensures SameButMarkers(TakeTurn(s, o), Answered(t, o))
  {
    UnmarkMarked(s.messages);
    if o.Reply? {
      UnmarkConcat(Marked(s.messages), NewMessages(o.turn));
      UnmarkConcat(t.messages, NewMessages(o.turn));
    }
  }

  lemma PassIgnoresMarkers(s: State, t: State, n: nat, env: Env)
    requires SameButMarkers(s, t)
    ensures SameButMarkers(Pass(s, n, env), PlainPass(t, n, env))
  {
    CompressIgnoresMarkers(s, t, env.summary(n));
    var c := if s.contextTokens > CONTEXT_LIMIT then Compress(s, env.summary(n)) else s;
    var d := if t.contextTokens > CONTEXT_LIMIT then Compress(t, env.summary(n)) else t;
    TurnIgnoresMarkers(c, d, env.outcome(n));
  }

  lemma {:induction false} RunIgnoresPlain(s: State, t: State, n: nat, env: Env)
    requires WellBehaved(env) && SameButMarkers(s, t)
    ensures SameButMarkers(Run(s, n, env), PlainRun(t, n, env))
    decreases if s.status != Running then 0
              else 1 + Max(0, env.limits.maxToolCalls - s.toolCalls)
  {
    if s.status == Running {
      assert Calling(env.outcome(n));
      PassSpendsBudget(s, n, env);
      PassIgnoresMarkers(s, t, n, env);
      RunIgnoresPlain(Pass(s, n, env), PlainPass(t, n, env), n + 1, env);
    }
  }

  predicate Clear(ms: seq<Message>) {
    Unmark(ms) == ms
  }

  lemma PlainPassClear(s: State, n: nat, env: Env)
    requires Clear(s.messages)
    ensures Clear(PlainPass(s, n, env).messages)
  {
    if |s.messages| > 6 && env.summary(n).Some? { CompressedUnmark(s.messages, env.summary(n).value); }
    var c := if s.contextTokens > CONTEXT_LIMIT then Compress(s, env.summary(n)) else s;
    if env.outcome(n).Reply? {
      NewMessagesUnmarked(env.outcome(n).turn);
      UnmarkConcat(c.messages, NewMessages(env.outcome(n).turn));
    }
  }

  lemma {:induction false} PlainRunClear(s: State, n: nat, env: Env)
    requires WellBehaved(env) && Clear(s.messages)
    ensures Clear(PlainRun(s, n, env).messages)
    decreases if s.status != Running then 0
              else 1 + Max(0, env.limits.maxToolCalls - s.toolCalls)
  {
    if s.status == Running {
      assert Calling(env.outcome(n));
      PlainPassClear(s, n, env);
      PlainRunClear(PlainPass(s, n, env), n + 1, env);
    }
  }

  /** Through any mix of turns and compressions, marking changes nothing but markers: every run ends with the
      conversation of the run that never marks, up to markers, and the same transcript. */
  lemma {:induction false} RunIgnoresMarkers(opening: string, toolCalls: nat, contextTokens: nat,
      summaries: seq<Summary>, env: Env)
    requires WellBehaved(env)
    ensures
      var s := Start(opening, toolCalls, contextTokens, summaries);
      && Unmark(Run(s, 0, env).messages) == PlainRun(s, 0, env).messages
      && Transcript(Run(s, 0, env).messages) == Transcript(PlainRun(s, 0, env).messages)
      && Run(s, 0, env).toolCalls == PlainRun(s, 0, env).toolCalls
      && Run(s, 0, env).summaries == PlainRun(s, 0, env).summaries
  {
    var s := Start(opening, toolCalls, contextTokens, summaries);
    assert Clear(s.messages);
    RunIgnoresPlain(s, s, 0, env);
    PlainRunClear(s, 0, env);
    TranscriptIgnoresMarkers(Run(s, 0, env).messages);
  }
}
