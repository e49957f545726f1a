/** Voucher polling: which vouchers a poll returns, when it submits an epoch's claim by hand, and when the
    validator is restarted. Time is in seconds. */
module Vouchers {
  import opened Wrappers

  type Epoch = string
  type SandboxId = string

  const CLAIM_MANUAL_DELAY: real := 60.0
  const INPUTS_PROCESSED_RESTART_DELAY: real := 45.0
  const VALIDATOR_RESTART_COOLDOWN: real := 120.0

  datatype Status = Claimed | Computed | InputsProcessed | OtherStatus

  /** What becomes of a manual submission if one is tried: sent and accepted or not, given up before
      sending, or an exception before sending. */
  datatype Submission = SentOk | SentFailed | NotSent | Raises

  /** An output as one pass meets it: the epoch's status and the clock at that moment. */
  datatype Output = Output(index: nat, isVoucher: bool, epoch: Epoch, status: Status, now: real, submission: Submission)

  /** The arguments of a poll call. */
  datatype Asked = Asked(deadline: real, wanted: int, needClaim: bool, minIndex: int)

  /** One pass of the loop: the clock at its start, and what the node lists, if it answers properly. */
  datatype Poll = Poll(at: real, outputs: Option<seq<Output>>)

  datatype Seen = Seen(epoch: Epoch, at: real)

  /** The poll's local variables, and five histories: the epochs whose submission was accepted; every time an
      epoch was met as computed, and as having its inputs processed; every claim that was sent; every restart
      that was asked for. */
  datatype State = State(
    firstSeen: map<Epoch, real>, inputsSeen: map<Epoch, real>, submitted: set<Epoch>, accepted: set<Epoch>,
    computed: seq<Seen>, processed: seq<Seen>, sent: seq<Seen>, restartsAsked: seq<Seen>)

  const START := State(map[], map[], {}, {}, [], [], [], [])

  datatype Fate = Take | Skip | Abort

  /** `firstSeen` after meeting an epoch: an entry once made stays. */
  function Note(m: map<Epoch, real>, e: Epoch, now: real): map<Epoch, real> {
    if e in m then m else m[e := now]
  }

  /** One voucher of a pass that needs claimed epochs. */
  function Meet(s: State, v: Output): (State, Fate) {
    match v.status
    case Claimed => (s, Take)
    case Computed =>
      var noted := s.(firstSeen := Note(s.firstSeen, v.epoch, v.now), computed := s.computed + [Seen(v.epoch, v.now)]);
      if v.epoch in s.submitted then (noted, Take)
      else if v.now - noted.firstSeen[v.epoch] < CLAIM_MANUAL_DELAY then (noted, Skip)
      else if v.submission.Raises? then (noted, Abort)
      else
        (noted.(submitted := s.submitted + {v.epoch},
                accepted := if v.submission.SentOk? then s.accepted + {v.epoch} else s.accepted,
                sent := if v.submission.NotSent? then s.sent else s.sent + [Seen(v.epoch, v.now)]),
         if v.submission.SentOk? then Take else Skip)
    case InputsProcessed =>
      var noted := s.(inputsSeen := Note(s.inputsSeen, v.epoch, v.now),
        processed := s.processed + [Seen(v.epoch, v.now)]);
      (if v.now - noted.inputsSeen[v.epoch] < INPUTS_PROCESSED_RESTART_DELAY then noted
       else noted.(restartsAsked := s.restartsAsked + [Seen(v.epoch, v.now)]), Skip)
    case OtherStatus => (s, Skip)
  }

  predicate IsNew(v: Output, minIndex: int) {
    minIndex > 0 ==> v.index >= minIndex
  }

  /** The voucher-type outputs that are new. */
  function Candidates(outputs: seq<Output>, minIndex: int): (r: seq<Output>)
    ensures forall i :: 0 <= i < |r| ==> r[i] in outputs && r[i].isVoucher && IsNew(r[i], minIndex)
  {
    if outputs == [] then []
    else
      var rest := Candidates(outputs[..|outputs| - 1], minIndex);
      var last := outputs[|outputs| - 1];
      if last.isVoucher && IsNew(last, minIndex) then rest + [last] else rest
  }

  /** None of them is missed. */
  lemma {:induction false} CandidatesComplete(outputs: seq<Output>, minIndex: int, k: nat)
    requires k < |outputs| && outputs[k].isVoucher && IsNew(outputs[k], minIndex)
    ensures outputs[k] in Candidates(outputs, minIndex)
    decreases |outputs|
  {
    var n := |outputs| - 1;
    var rest := Candidates(outputs[..n], minIndex);
    if k < n {
      CandidatesComplete(outputs[..n], minIndex, k);
    }
  }

  datatype Pass = Pass(state: State, taken: seq<Output>, aborted: bool)

  /** The first n vouchers of a pass. */
  function Through(s: State, vs: seq<Output>, n: nat): Pass
    requires n <= |vs|
  {
    if n == 0 then Pass(s, [], false)
    else
      var p := Through(s, vs, n - 1);
      if p.aborted then p
      else
        var m := Meet(p.state, vs[n - 1]);
        Pass(m.0, if m.1.Take? then p.taken + [vs[n - 1]] else p.taken, m.1.Abort?)
  }

  function OnePass(s: State, outputs: Option<seq<Output>>, a: Asked): Pass {
    if outputs.None? then Pass(s, [], true)
    else
      var vs := Candidates(outputs.value, a.minIndex);
      if a.needClaim then Through(s, vs, |vs|) else Pass(s, vs, false)
  }

  /** The poll call: passes until one finds enough vouchers or the deadline is reached. The answer is None
      when it is. */
  function Polling(s: State, polls: seq<Poll>, n: nat, a: Asked)
    : (State, Option<seq<Output>>)
    requires n <= |polls|
  {
    if n == 0 then (s, None)
    else
      var before := Polling(s, polls, n - 1, a);
      if before.1.Some? then before
      else if polls[n - 1].at >= a.deadline then (before.0, Some([]))
      else
        var p := OnePass(before.0, polls[n - 1].outputs, a);
        (p.state, if !p.aborted && |p.taken| >= a.wanted then Some(p.taken) else None)
  }

  // ---- What the call keeps ----

  /** When the epoch was first met as computed, in the order of the history. */
  function FirstTime(log: seq<Seen>, e: Epoch): Option<real> {
    if log == [] then None
    else
      var before := FirstTime(log[..|log| - 1], e);
      if before.Some? then before
      else if log[|log| - 1].epoch == e then Some(log[|log| - 1].at) else None
  }


  predicate SentOnce(s: State) {
    && (forall i, j :: 0 <= i < j < |s.sent| ==> s.sent[i].epoch != s.sent[j].epoch)
    && (forall i :: 0 <= i < |s.sent| ==> s.sent[i].epoch in s.submitted)
  }

  predicate SentLate(s: State) {
    forall i :: 0 <= i < |s.sent| ==>
      s.sent[i].epoch in s.firstSeen && s.sent[i].at - s.firstSeen[s.sent[i].epoch] >= CLAIM_MANUAL_DELAY
  }

  predicate AskedLate(s: State) {
    forall i :: 0 <= i < |s.restartsAsked| ==>
      s.restartsAsked[i].epoch in s.inputsSeen
      && s.restartsAsked[i].at - s.inputsSeen[s.restartsAsked[i].epoch] >= INPUTS_PROCESSED_RESTART_DELAY
  }

  /** The map says when each epoch of the history was first met. */
  ghost predicate IsFirst(m: map<Epoch, real>, log: seq<Seen>) {
    forall e :: FirstTime(log, e) == if e in m then Some(m[e]) else None
  }

  ghost predicate Inv(s: State) {
    IsFirst(s.firstSeen, s.computed) && IsFirst(s.inputsSeen, s.processed) && SentOnce(s) && SentLate(s) && AskedLate(s)
  }

  lemma MeetSends(s: State, v: Output)
    requires Inv(s)
    ensures SentOnce(Meet(s, v).0) && SentLate(Meet(s, v).0)
  {}

  lemma MeetAsks(s: State, v: Output)
    requires Inv(s)
    ensures AskedLate(Meet(s, v).0)
  {}

  lemma MeetNotes(s: State, v: Output)
    requires IsFirst(s.firstSeen, s.computed) && IsFirst(s.inputsSeen, s.processed)
    ensures var t := Meet(s, v).0; IsFirst(t.firstSeen, t.computed) && IsFirst(t.inputsSeen, t.processed)
  {}

  lemma MeetKeeps(s: State, v: Output)
    requires Inv(s)
    ensures Inv(Meet(s, v).0)
  {
    MeetNotes(s, v);
    MeetSends(s, v);
    MeetAsks(s, v);
  }

  lemma {:induction false} ThroughKeeps(s: State, vs: seq<Output>, n: nat)
    requires Inv(s) && n <= |vs|
    ensures Inv(Through(s, vs, n).state)
    decreases n
  {
    if n != 0 {
      ThroughKeeps(s, vs, n - 1);
      MeetKeeps(Through(s, vs, n - 1).state, vs[n - 1]);
    }
  }

  lemma {:induction false} PollingKeeps(s: State, polls: seq<Poll>, n: nat, a: Asked)
    requires Inv(s) && n <= |polls|
    ensures Inv(Polling(s, polls, n, a).0)
    decreases n
  {
    if n != 0 {
      PollingKeeps(s, polls, n - 1, a);
      var before := Polling(s, polls, n - 1, a).0;
      if polls[n - 1].outputs.Some? {
        var vs := Candidates(polls[n - 1].outputs.value, a.minIndex);
        ThroughKeeps(before, vs, |vs|);
      }
    }
  }

  /** In one poll call, whatever the node and the clock do, at most one claim per epoch is sent by hand, and
      none sooner than the delay after the call first met that epoch as computed. */
  lemma {:induction false} OneLateClaimPerEpoch(polls: seq<Poll>, a: Asked, i: nat)
    requires i < |Polling(START, polls, |polls|, a).0.sent|
    ensures var s := Polling(START, polls, |polls|, a).0;
      && (forall j :: 0 <= j < |s.sent| && j != i ==> s.sent[j].epoch != s.sent[i].epoch)
      && FirstTime(s.computed, s.sent[i].epoch).Some?
      && s.sent[i].at - FirstTime(s.computed, s.sent[i].epoch).value >= CLAIM_MANUAL_DELAY
  {
    PollingKeeps(START, polls, |polls|, a);
  }

  /** In one poll call no restart of the validator is asked for sooner than the delay after the call first met
      the epoch as waiting for it. */
  lemma {:induction false} RestartsAskedLate(polls: seq<Poll>, a: Asked, i: nat)
    requires i < |Polling(START, polls, |polls|, a).0.restartsAsked|
    ensures var s := Polling(START, polls, |polls|, a).0;
      && FirstTime(s.processed, s.restartsAsked[i].epoch).Some?
      && s.restartsAsked[i].at - FirstTime(s.processed, s.restartsAsked[i].epoch).value
         >= INPUTS_PROCESSED_RESTART_DELAY
  {
    PollingKeeps(START, polls, |polls|, a);
  }

  /** Meeting a voucher sends a claim exactly when its epoch is computed, was not submitted before, and was
      first met at least the delay ago. */
  lemma SendsIff(s: State, v: Output)
    requires IsFirst(s.firstSeen, s.computed)
    ensures Meet(s, v).0.sent == s.sent + [Seen(v.epoch, v.now)] <==>
      v.status.Computed? && v.epoch !in s.submitted && (v.submission.SentOk? || v.submission.SentFailed?)
      && v.now - FirstTime(Meet(s, v).0.computed, v.epoch).value >= 60.0
  {}

  /** It asks for a restart exactly when the epoch has waited for the validator as long as its delay. */
  lemma AsksIff(s: State, v: Output)
    requires IsFirst(s.inputsSeen, s.processed)
    ensures Meet(s, v).0.restartsAsked == s.restartsAsked + [Seen(v.epoch, v.now)] <==>
      v.status.InputsProcessed?
      && v.now - FirstTime(Meet(s, v).0.processed, v.epoch).value >= 45.0
  {}

  // ---- What is returned ----

  predicate Justified(v: Output, s: State) {
    v.status.Claimed? || v.epoch in s.submitted
  }

  lemma {:induction false} ThroughTaken(s: State, vs: seq<Output>, n: nat)
    requires n <= |vs|
    ensures var p := Through(s, vs, n);
      s.submitted <= p.state.submitted && forall i :: 0 <= i < |p.taken| ==>
        p.taken[i] in vs && Justified(p.taken[i], p.state)
    decreases n
  {
    if n != 0 {
      ThroughTaken(s, vs, n - 1);
    }
  }

  /** What the call may return: enough vouchers, all listed by one pass before the deadline, new, and of an
      epoch that is claimed or had a submission tried. */
  predicate GoodAnswer(r: seq<Output>, s: State, outputs: seq<Output>, a: Asked) {
    && |r| >= a.wanted
    && forall i :: 0 <= i < |r| ==>
         r[i] in outputs && r[i].isVoucher && IsNew(r[i], a.minIndex) && (a.needClaim ==> Justified(r[i], s))
  }

  lemma PassAnswer(s: State, outputs: seq<Output>, a: Asked)
    ensures var p := OnePass(s, Some(outputs), a);
      |p.taken| >= a.wanted ==> GoodAnswer(p.taken, p.state, outputs, a)
  {
    var vs := Candidates(outputs, a.minIndex);
    ThroughTaken(s, vs, |vs|);
    var p := OnePass(s, Some(outputs), a);
    forall i | 0 <= i < |p.taken|
      ensures p.taken[i] in outputs && p.taken[i].isVoucher && IsNew(p.taken[i], a.minIndex)
    {
      var k :| 0 <= k < |vs| && vs[k] == p.taken[i];
    }
  }

  ghost predicate AnswerOf(polls: seq<Poll>, r: seq<Output>, s: State, a: Asked) {
    r == [] ||
    exists k :: 0 <= k < |polls| && polls[k].at < a.deadline && polls[k].outputs.Some?
      && GoodAnswer(r, s, polls[k].outputs.value, a)
  }

  lemma {:induction false} PollingAnswers(s: State, polls: seq<Poll>, n: nat, a: Asked)
    requires n <= |polls|
    ensures var r := Polling(s, polls, n, a);
      r.1.Some? ==> AnswerOf(polls, r.1.value, r.0, a)
    decreases n
  {
    if n != 0 {
      PollingAnswers(s, polls, n - 1, a);
      var before := Polling(s, polls, n - 1, a);
      if before.1.None? && polls[n - 1].at < a.deadline && polls[n - 1].outputs.Some? {
        PassAnswer(before.0, polls[n - 1].outputs.value, a);
      }
    }
  }

  /** The call goes on exactly as long as it should: before it answers, every pass was before the deadline
      and failed or found too few. */
  lemma {:induction false} NoPassMissed(s: State, polls: seq<Poll>, n: nat, a: Asked, k: nat)
    requires k < n <= |polls| && Polling(s, polls, n, a).1.None?
    ensures polls[k].at < a.deadline
    ensures var p := OnePass(Polling(s, polls, k, a).0, polls[k].outputs, a); p.aborted || |p.taken| < a.wanted
    decreases n
  {
    if k < n - 1 { NoPassMissed(s, polls, n - 1, a, k); }
  }

  // ---- What is returned, exactly ----

  /** Its epoch is claimed; or is computed and was submitted by hand before, or is so now and accepted. */
  predicate Ready(s: State, v: Output) {
    v.status.Claimed? ||
    (v.status.Computed? &&
      (v.epoch in s.submitted ||
       (v.submission.SentOk? && v.epoch in s.firstSeen && v.now - s.firstSeen[v.epoch] >= 60.0)))
  }

  /** The submission would be tried, and raises. */
  predicate Raising(s: State, v: Output) {
    v.status.Computed? && v.epoch !in s.submitted && v.submission.Raises?
    && v.epoch in s.firstSeen && v.now - s.firstSeen[v.epoch] >= 60.0
  }

  /** The vouchers among the first n of a pass that are ready when they are met, in order. */
  function ReadyOf(s: State, vs: seq<Output>, n: nat): seq<Output>
    requires n <= |vs|
  {
    if n == 0 then []
    else ReadyOf(s, vs, n - 1) + if Ready(Through(s, vs, n - 1).state, vs[n - 1]) then [vs[n - 1]] else []
  }

  /** A pass that is not aborted takes exactly the vouchers that are ready. */
  lemma {:induction false} PassTakesReady(s: State, vs: seq<Output>, n: nat)
    requires n <= |vs| && !Through(s, vs, n).aborted
    ensures Through(s, vs, n).taken == ReadyOf(s, vs, n)
    decreases n
  {
    if n != 0 { PassTakesReady(s, vs, n - 1); }
  }

  /** It is aborted exactly by a submission that raises. */
  lemma {:induction false} PassAbortsIff(s: State, vs: seq<Output>, n: nat)
    requires n <= |vs|
    ensures Through(s, vs, n).aborted <==> RaisesWithin(s, vs, n)
    decreases n
  {
    if n != 0 {
      var p := Through(s, vs, n - 1);
      PassAbortsIff(s, vs, n - 1);
      AbortsIff(p.state, vs[n - 1]);
      assert RaisesWithin(s, vs, n) <==> RaisesWithin(s, vs, n - 1) || RaisesAt(s, vs, n - 1) by {
        if RaisesWithin(s, vs, n - 1) {
          var k: nat :| k < n - 1 && RaisesAt(s, vs, k);
          assert k < n;
        }
      }
    }
  }

  lemma AbortsIff(s: State, v: Output)
    ensures Meet(s, v).1.Abort? <==> Raising(s, v)
  {}

  predicate RaisesAt(s: State, vs: seq<Output>, k: nat)
    requires k < |vs|
  {
    Raising(Through(s, vs, k).state, vs[k])
  }

  ghost predicate RaisesWithin(s: State, vs: seq<Output>, n: nat)
    requires n <= |vs|
  {
    exists k: nat :: k < n && RaisesAt(s, vs, k)
  }

  function Listed(poll: Poll, a: Asked): seq<Output> {
    if poll.outputs.None? then [] else Candidates(poll.outputs.value, a.minIndex)
  }

  function Found(polls: seq<Poll>, a: Asked, k: nat): seq<Output>
    requires k < |polls|
  {
    var vs := Listed(polls[k], a);
    if a.needClaim then ReadyOf(Polling(START, polls, k, a).0, vs, |vs|) else vs
  }

  /** Pass k is answered properly, raises nowhere, and finds as many vouchers as are wanted. */
  predicate Enough(polls: seq<Poll>, a: Asked, k: nat)
    requires k < |polls|
  {
    var vs := Listed(polls[k], a);
    && polls[k].outputs.Some? && |Found(polls, a, k)| >= a.wanted
    && (a.needClaim ==> !Through(Polling(START, polls, k, a).0, vs, |vs|).aborted)
  }

  predicate GoesOn(polls: seq<Poll>, a: Asked, k: nat)
    requires k < |polls|
  {
    polls[k].at < a.deadline && !Enough(polls, a, k)
  }

  lemma {:induction false} NoAnswerYet(polls: seq<Poll>, a: Asked, n: nat)
    requires n <= |polls| && forall k :: 0 <= k < n ==> GoesOn(polls, a, k)
    ensures Polling(START, polls, n, a).1 == None
    decreases n
  {
    if n != 0 {
      NoAnswerYet(polls, a, n - 1);
      assert GoesOn(polls, a, n - 1);
      PassFinds(polls, a, n - 1);
    }
  }

  lemma PassFinds(polls: seq<Poll>, a: Asked, k: nat)
    requires k < |polls|
    ensures var p := OnePass(Polling(START, polls, k, a).0, polls[k].outputs, a);
      && (Enough(polls, a, k) <==> !p.aborted && |p.taken| >= a.wanted)
      && (Enough(polls, a, k) ==> p.taken == Found(polls, a, k))
  {
    var s, vs := Polling(START, polls, k, a).0, Listed(polls[k], a);
    if a.needClaim && !Through(s, vs, |vs|).aborted { PassTakesReady(s, vs, |vs|); }
  }

  /** The call answers at the first pass that finds enough, with all that it finds, or with nothing at the first
      whose clock has reached the deadline. */
  lemma {:induction false} AnswerIs(polls: seq<Poll>, a: Asked, k: nat)
    requires k < |polls| && !GoesOn(polls, a, k) && forall j :: 0 <= j < k ==> GoesOn(polls, a, j)
    ensures Polling(START, polls, |polls|, a).1
         == Some(if polls[k].at >= a.deadline then [] else Found(polls, a, k))
  {
    NoAnswerYet(polls, a, k);
    PassFinds(polls, a, k);
    AnswerStays(START, polls, k + 1, |polls|, a);
  }

  /** The candidates of two lists are those of the first followed by those of the second; so nothing but the
      new voucher-type outputs is listed, and in the node's order. */
  lemma {:induction false} CandidatesConcat(xs: seq<Output>, ys: seq<Output>, minIndex: int)
    ensures Candidates(xs + ys, minIndex) == Candidates(xs, minIndex) + Candidates(ys, minIndex)
    ensures |ys| == 1 ==>
      Candidates(ys, minIndex) == if ys[0].isVoucher && (minIndex <= 0 || ys[0].index >= minIndex) then ys else []
    decreases |ys|
  {
    if ys == [] {
      assert xs + ys == xs;
    } else {
      var front := ys[..|ys| - 1];
      CandidatesConcat(xs, front, minIndex);
      assert (xs + ys)[..|xs + ys| - 1] == xs + front;
      assert Candidates([], minIndex) == [];
    }
  }

  // ---- Vouchers of epochs whose submission failed ----

  predicate Failed(s: State, e: Epoch) {
    e in s.submitted && e !in s.accepted
  }

  /** A voucher that the node does not report as claimed and whose epoch no submission was accepted for. */
  predicate Premature(v: Output, s: State) {
    !v.status.Claimed? && v.epoch !in s.accepted
  }

  /** Meeting v tries its epoch's submission, and that fails. */
  predicate Refused(s: State, v: Output) {
    && v.status.Computed? && v.epoch !in s.submitted
    && v.now - Note(s.firstSeen, v.epoch, v.now)[v.epoch] >= CLAIM_MANUAL_DELAY
    && (v.submission.SentFailed? || v.submission.NotSent?)
  }

  lemma MeetFails(s: State, v: Output, e: Epoch)
    requires s.accepted <= s.submitted
    ensures var t := Meet(s, v).0;
      t.accepted <= t.submitted && (Failed(t, e) <==> Failed(s, e) || (v.epoch == e && Refused(s, v)))
  {}

  /** Voucher m of the pass is met, as one whose submission for e is tried and fails. */
  predicate Fails(s: State, vs: seq<Output>, m: nat, e: Epoch) {
    m < |vs| && !Through(s, vs, m).aborted && vs[m].epoch == e && Refused(Through(s, vs, m).state, vs[m])
  }

  ghost predicate FailsWithin(s: State, vs: seq<Output>, n: nat, e: Epoch) {
    exists m: nat :: m < n && Fails(s, vs, m, e)
  }

  /** An epoch has failed exactly when it had before the pass or a submission for it failed in the pass. */
  lemma {:induction false} ThroughFails(s: State, vs: seq<Output>, n: nat, e: Epoch)
    requires n <= |vs| && s.accepted <= s.submitted
    ensures var t := Through(s, vs, n).state;
      t.accepted <= t.submitted && (Failed(t, e) <==> Failed(s, e) || FailsWithin(s, vs, n, e))
    decreases n
  {
    if n != 0 {
      var p := Through(s, vs, n - 1);
      ThroughFails(s, vs, n - 1, e);
      MeetFails(p.state, vs[n - 1], e);
      assert FailsWithin(s, vs, n, e) <==> FailsWithin(s, vs, n - 1, e) || Fails(s, vs, n - 1, e) by {
        if FailsWithin(s, vs, n - 1, e) {
          var m: nat :| m < n - 1 && Fails(s, vs, m, e);
          assert m < n;
        }
      }
    }
  }

  /** Voucher m of the pass is met as computed when its epoch has failed. */
  predicate ComesAfterFailure(s: State, vs: seq<Output>, m: nat) {
    m < |vs| && vs[m].status.Computed? && var p := Through(s, vs, m); !p.aborted && Failed(p.state, vs[m].epoch)
  }

  ghost predicate AnyPremature(vs: seq<Output>, s: State) {
    exists i :: 0 <= i < |vs| && Premature(vs[i], s)
  }

  /** What one step changes: a voucher taken is premature exactly when its epoch had failed, and what was
      premature among those taken stays so. */
  lemma MeetTakes(s: State, v: Output, taken: seq<Output>)
    requires s.accepted <= s.submitted
    requires forall i :: 0 <= i < |taken| ==> Justified(taken[i], s)
    ensures var m := Meet(s, v);
      && (AnyPremature(taken, m.0) <==> AnyPremature(taken, s))
      && (m.1.Take? ==> (Premature(v, m.0) <==> v.status.Computed? && Failed(s, v.epoch)))
      && (!m.1.Take? ==> !(v.status.Computed? && Failed(s, v.epoch)))
  {
    var m := Meet(s, v);
    forall i | 0 <= i < |taken| ensures Premature(taken[i], m.0) <==> Premature(taken[i], s) {}
  }

  lemma AnyOfMore(vs: seq<Output>, v: Output, s: State)
    ensures AnyPremature(vs + [v], s) <==> AnyPremature(vs, s) || Premature(v, s)
  {
    var more := vs + [v];
    assert more[|vs|] == v;
    if AnyPremature(vs, s) {
      var i :| 0 <= i < |vs| && Premature(vs[i], s);
      assert Premature(more[i], s);
    }
  }

  /** A pass takes a premature voucher exactly when it meets one as computed after its epoch has failed. */
  lemma {:induction false} PassTakesPrematureIff(s: State, vs: seq<Output>, n: nat)
    requires n <= |vs| && s.accepted <= s.submitted
    ensures var p := Through(s, vs, n);
      AnyPremature(p.taken, p.state) <==> exists m: nat :: m < n && ComesAfterFailure(s, vs, m)
    decreases n
  {
    if n != 0 {
      var p, v := Through(s, vs, n - 1), vs[n - 1];
      PassTakesPrematureIff(s, vs, n - 1);
      ThroughTaken(s, vs, n - 1);
      ThroughFails(s, vs, n - 1, v.epoch);
      MeetTakes(p.state, v, p.taken);
      AnyOfMore(p.taken, v, Meet(p.state, v).0);
      assert ComesAfterFailure(s, vs, n - 1) <==> !p.aborted && v.status.Computed? && Failed(p.state, v.epoch);
    }
  }

  // ---- And over a whole call ----

  /** Pass k of the call is made, and asks for claimed epochs. */
  predicate Made(polls: seq<Poll>, a: Asked, k: nat) {
    a.needClaim && k < |polls| && Polling(START, polls, k, a).1.None? && polls[k].at < a.deadline
  }

  /** In pass k the submission for e fails at voucher m. */
  predicate FailsAt(polls: seq<Poll>, a: Asked, k: nat, m: nat, e: Epoch) {
    Made(polls, a, k) && Fails(Polling(START, polls, k, a).0, Listed(polls[k], a), m, e)
  }

  /** A submission for e fails before voucher m of pass k. */
  ghost predicate FailsBefore(polls: seq<Poll>, a: Asked, k: nat, m: nat, e: Epoch) {
    exists q: nat, j: nat :: (q < k || (q == k && j < m)) && FailsAt(polls, a, q, j, e)
  }

  /** In a pass that is made, it fails before voucher m if it does in an earlier pass or in this one. */
  lemma FailsBeforeParts(polls: seq<Poll>, a: Asked, k: nat, m: nat, e: Epoch)
    requires Made(polls, a, k)
    ensures FailsBefore(polls, a, k, m, e) <==>
      FailsBefore(polls, a, k, 0, e) || FailsWithin(Polling(START, polls, k, a).0, Listed(polls[k], a), m, e)
  {
    var s, vs := Polling(START, polls, k, a).0, Listed(polls[k], a);
    if FailsBefore(polls, a, k, 0, e) {
      var q: nat, j: nat :| q < k && FailsAt(polls, a, q, j, e);
      assert q < k || (q == k && j < m);
    }
    if FailsWithin(s, vs, m, e) {
      var j: nat :| j < m && Fails(s, vs, j, e);
      assert FailsAt(polls, a, k, j, e);
    }
  }

  /** An epoch has failed exactly when a submission for it failed in one of the passes. */
  lemma {:induction false} PollingFails(polls: seq<Poll>, n: nat, a: Asked, e: Epoch)
    requires n <= |polls|
    ensures var s := Polling(START, polls, n, a).0;
      s.accepted <= s.submitted && (Failed(s, e) <==> FailsBefore(polls, a, n, 0, e))
    decreases n
  {
    if n != 0 {
      var before, k := Polling(START, polls, n - 1, a).0, n - 1;
      PollingFails(polls, k, a, e);
      if Made(polls, a, k) {
        var vs := Listed(polls[k], a);
        ThroughFails(before, vs, |vs|, e);
        FailsBeforeParts(polls, a, k, |vs|, e);
      }
      assert FailsBefore(polls, a, n, 0, e) <==>
        FailsBefore(polls, a, k, if Made(polls, a, k) then |Listed(polls[k], a)| else 0, e);
    }
  }

  /** Pass k gives the answer, and meets voucher m as computed after a submission for its epoch failed. */
  ghost predicate TakesFailed(polls: seq<Poll>, a: Asked, k: nat, m: nat) {
    && Made(polls, a, k) && Polling(START, polls, k + 1, a).1.Some?
    && m < |Listed(polls[k], a)| && Listed(polls[k], a)[m].status.Computed?
    && FailsBefore(polls, a, k, m, Listed(polls[k], a)[m].epoch)
  }

  ghost predicate PassTakesFailed(polls: seq<Poll>, a: Asked, k: nat) {
    exists m: nat :: TakesFailed(polls, a, k, m)
  }

  lemma TakesFailedIff(polls: seq<Poll>, a: Asked, k: nat, m: nat)
    requires Made(polls, a, k) && Polling(START, polls, k + 1, a).1.Some?
    ensures ComesAfterFailure(Polling(START, polls, k, a).0, Listed(polls[k], a), m) <==> TakesFailed(polls, a, k, m)
  {
    var s, vs := Polling(START, polls, k, a).0, Listed(polls[k], a);
    if m < |vs| {
      var e := vs[m].epoch;
      PollingFails(polls, k, a, e);
      ThroughFails(s, vs, m, e);
      FailsBeforeParts(polls, a, k, m, e);
      if Through(s, vs, m).aborted { AbortStays(s, vs, m, |vs|); }
    }
  }

  lemma LastPassIsPrematureIff(polls: seq<Poll>, k: nat, a: Asked)
    requires Made(polls, a, k) && Polling(START, polls, k + 1, a).1.Some?
    ensures var r := Polling(START, polls, k + 1, a);
      AnyPremature(r.1.value, r.0) <==> PassTakesFailed(polls, a, k)
  {
    var s, vs := Polling(START, polls, k, a).0, Listed(polls[k], a);
    PollingFails(polls, k, a, "");
    PassTakesPrematureIff(s, vs, |vs|);
    forall m: nat ensures ComesAfterFailure(s, vs, m) <==> TakesFailed(polls, a, k, m) {
      TakesFailedIff(polls, a, k, m);
    }
  }

  /** One of the first n passes answers so. */
  ghost predicate AnswersFailed(polls: seq<Poll>, a: Asked, n: nat)
    decreases n
  {
    n > 0 && (AnswersFailed(polls, a, n - 1) || PassTakesFailed(polls, a, n - 1))
  }

  lemma {:induction false} NoneYet(polls: seq<Poll>, a: Asked, n: nat)
    requires n <= |polls| && Polling(START, polls, n, a).1.None?
    ensures !AnswersFailed(polls, a, n)
    decreases n
  {
    if n != 0 { NoneYet(polls, a, n - 1); }
  }

  /** The answer holds a voucher that is neither claimed nor of an epoch whose submission was accepted exactly
      when the pass that answers meets a voucher as computed after a submission for its epoch failed, in that
      pass or an earlier one. */
  lemma {:induction false} AnswerIsPrematureIff(polls: seq<Poll>, n: nat, a: Asked)
    requires n <= |polls| && a.needClaim && Polling(START, polls, n, a).1.Some?
    ensures AnyPremature(Polling(START, polls, n, a).1.value, Polling(START, polls, n, a).0) <==>
      AnswersFailed(polls, a, n)
    decreases n
  {
    var k := n - 1;
    if Polling(START, polls, k, a).1.Some? {
      AnswerIsPrematureIff(polls, k, a);
    } else {
      NoneYet(polls, a, k);
      if Made(polls, a, k) { LastPassIsPrematureIff(polls, k, a); }
    }
  }

  /** Two passes suffice: the first meets an epoch as computed; a minute later its submission fails at one
      voucher, and the call returns the next voucher of that epoch. */
  lemma {:induction false} SecondOfFailedEpochIsTaken(v: Output, w: Output, a: Asked, late: real)
    requires v.status.Computed? && w.status.Computed? && v.epoch == w.epoch && v.isVoucher && w.isVoucher
    requires v.now == 0.0 && w.now == late >= CLAIM_MANUAL_DELAY && w.submission.SentFailed?
    requires a.needClaim && a.wanted == 1 && a.minIndex == 0 && a.deadline > late
    ensures var polls := [Poll(0.0, Some([v])), Poll(late, Some([w, w]))];
      var r := Polling(START, polls, 2, a);
      r.1 == Some([w]) && Premature(w, r.0)
  {
    var polls := [Poll(0.0, Some([v])), Poll(late, Some([w, w]))];
    NewestIsCandidate([], v);
    NewestIsCandidate([], w);
    NewestIsCandidate([w], w);
    assert [] + [v] == [v] && [] + [w] == [w] && [w] + [w] == [w, w];
    ThroughOneMore(START, [v], 0, Pass(START, [], false));
    var s := Meet(START, v).0;
    assert Polling(START, polls, 1, a) == (s, None) by { assert Polling(START, polls, 0, a) == (START, None); }
    ThroughOneMore(s, [w, w], 0, Pass(s, [], false));
    ThroughOneMore(s, [w, w], 1, Pass(Meet(s, w).0, [], false));
  }

  lemma {:induction false} NewestIsCandidate(vs: seq<Output>, v: Output)
    requires v.isVoucher
    ensures Candidates(vs + [v], 0) == Candidates(vs, 0) + [v]
  {
    assert (vs + [v])[..|vs|] == vs;
  }

  lemma ThroughOneMore(s: State, vs: seq<Output>, n: nat, p: Pass)
    requires n < |vs| && Through(s, vs, n) == p && !p.aborted
    ensures var m := Meet(p.state, vs[n]);
      Through(s, vs, n + 1) == Pass(m.0, if m.1.Take? then p.taken + [vs[n]] else p.taken, m.1.Abort?)
  {}

  // ---- The methods ----

  method FilterNew(outputs: seq<Output>, minIndex: int) returns (r: seq<Output>)
    ensures r == Candidates(outputs, minIndex)
  {
    r := [];
    for i := 0 to |outputs|
      invariant r == Candidates(outputs[..i], minIndex)
    {
      assert outputs[..i + 1][..i] == outputs[..i];
      if outputs[i].isVoucher && (minIndex <= 0 || outputs[i].index >= minIndex) { r := r + [outputs[i]]; }
    }
    assert outputs[..|outputs|] == outputs;
  }

  method ClaimedOf(s0: State, vs: seq<Output>) returns (s: State, claimed: seq<Output>, aborted: bool)
    ensures Pass(s, claimed, aborted) == Through(s0, vs, |vs|)
  {
    s, claimed, aborted := s0, [], false;
    for i := 0 to |vs|
      invariant !aborted && Pass(s, claimed, aborted) == Through(s0, vs, i)
    {
      var m := Meet(s, vs[i]);
      s := m.0;
      if m.1.Take? { claimed := claimed + [vs[i]]; }
      if m.1.Abort? {
        AbortStays(s0, vs, i + 1, |vs|);
        return s, claimed, true;
      }
    }
  }

  lemma {:induction false} AbortStays(s: State, vs: seq<Output>, i: nat, n: nat)
    requires i <= n <= |vs| && Through(s, vs, i).aborted
    ensures Through(s, vs, n) == Through(s, vs, i)
    decreases n
  {
    if i < n { AbortStays(s, vs, i, n - 1); }
  }

  lemma {:induction false} AnswerStays(s: State, polls: seq<Poll>, i: nat, n: nat, a: Asked)
    requires i <= n <= |polls| && Polling(s, polls, i, a).1.Some?
    ensures Polling(s, polls, n, a) == Polling(s, polls, i, a)
    decreases n
  {
    if i < n { AnswerStays(s, polls, i, n - 1, a); }
  }

  /** `_poll_vouchers`. The script of polls ends with the first whose clock has reached the deadline. */
  method PollVouchers(polls: seq<Poll>, a: Asked)
    returns (vouchers: seq<Output>, s: State)
    requires |polls| > 0 && polls[|polls| - 1].at >= a.deadline
    ensures (s, Some(vouchers)) == Polling(START, polls, |polls|, a)
    ensures AnswerOf(polls, vouchers, s, a)
  {
    PollingAnswers(START, polls, |polls|, a);
    s := START;
    var i := 0;
    while polls[i].at < a.deadline
      invariant 0 <= i < |polls|
      invariant (s, None) == Polling(START, polls, i, a)
      decreases |polls| - i
    {
      var aborted := polls[i].outputs.None?;
      vouchers := [];
      if !aborted {
        vouchers := FilterNew(polls[i].outputs.value, a.minIndex);
        if a.needClaim { s, vouchers, aborted := ClaimedOf(s, vouchers); }
      }
      i := i + 1;
      if !aborted && |vouchers| >= a.wanted {
        AnswerStays(START, polls, i, |polls|, a);
        return;
      }
    }
    vouchers := [];
    AnswerStays(START, polls, i + 1, |polls|, a);
  }

  // ---- Validator restarts, shared by all tests of a process ----

  datatype Request = Request(sandbox: SandboxId, now: real)

  function Last(m: map<SandboxId, real>, id: SandboxId): real {
    if id in m then m[id] else 0.0
  }

  /** The map after the requests, and which of them restarted. */
  function Restarts(m: map<SandboxId, real>, rs: seq<Request>): (map<SandboxId, real>, seq<Request>)
    decreases |rs|
  {
    if rs == [] then (m, [])
    else
      var r := rs[0];
      if r.now - Last(m, r.sandbox) < VALIDATOR_RESTART_COOLDOWN then Restarts(m, rs[1..])
      else
        var rest := Restarts(m[r.sandbox := r.now], rs[1..]);
        (rest.0, [r] + rest.1)
  }

  predicate Spaced(done: seq<Request>) {
    forall i, j :: 0 <= i < j < |done| && done[i].sandbox == done[j].sandbox ==>
      done[j].now - done[i].now >= VALIDATOR_RESTART_COOLDOWN
  }

  lemma {:induction false} RestartsAfterLast(m: map<SandboxId, real>, rs: seq<Request>, k: nat)
    requires k < |Restarts(m, rs).1|
    ensures var r := Restarts(m, rs).1[k]; r.now - Last(m, r.sandbox) >= VALIDATOR_RESTART_COOLDOWN
    decreases |rs|
  {
    if rs[0].now - Last(m, rs[0].sandbox) < VALIDATOR_RESTART_COOLDOWN {
      RestartsAfterLast(m, rs[1..], k);
    } else if k > 0 {
      var next := m[rs[0].sandbox := rs[0].now];
      RestartsAfterLast(next, rs[1..], k - 1);
      assert Restarts(m, rs).1[k] == Restarts(next, rs[1..]).1[k - 1];
    }
  }

  /** Whichever tests ask, in whatever order, the restarts of one sandbox are at least the cooldown apart. */
  lemma {:induction false} RestartsAreSpaced(m: map<SandboxId, real>, rs: seq<Request>)
    ensures Spaced(Restarts(m, rs).1)
    decreases |rs|
  {
    if rs != [] {
      var r := rs[0];
      if r.now - Last(m, r.sandbox) < VALIDATOR_RESTART_COOLDOWN {
        RestartsAreSpaced(m, rs[1..]);
      } else {
        var next := m[r.sandbox := r.now];
        RestartsAreSpaced(next, rs[1..]);
        var rest := Restarts(next, rs[1..]).1;
        var done := [r] + rest;
        forall i, j | 0 <= i < j < |done| && done[i].sandbox == done[j].sandbox
          ensures done[j].now - done[i].now >= VALIDATOR_RESTART_COOLDOWN
        {
          RestartsAfterLast(next, rs[1..], j - 1);
          assert done[j] == rest[j - 1];
          if i > 0 { assert done[i] == rest[i - 1]; }
        }
      }
    }
  }

  /** The first request of a sandbox restarts exactly when the clock has itself reached the cooldown: the
      missing entry counts as a restart at time zero. */
  lemma {:induction false} FirstRestartIff(m: map<SandboxId, real>, r: Request)
    requires r.sandbox !in m
    ensures Restarts(m, [r]).1 == [r] <==> r.now >= VALIDATOR_RESTART_COOLDOWN
  {
    assert [r][1..] == [];
  }

  /** When the sandbox last restarted among these, or else before them. */
  function LastDone(m: map<SandboxId, real>, done: seq<Request>, id: SandboxId): real {
    if done == [] then Last(m, id)
    else if done[|done| - 1].sandbox == id then done[|done| - 1].now
    else LastDone(m, done[..|done| - 1], id)
  }

  lemma {:induction false} LastDoneFirst(m: map<SandboxId, real>, r: Request, done: seq<Request>, id: SandboxId)
    ensures LastDone(m, [r] + done, id) == LastDone(m[r.sandbox := r.now], done, id)
    decreases |done|
  {
    var all := [r] + done;
    if done == [] {
      assert all == [r] && all[..0] == [];
    } else {
      LastDoneFirst(m, r, done[..|done| - 1], id);
      assert all[..|all| - 1] == [r] + done[..|done| - 1];
    }
  }

  /** After any requests, the next one restarts exactly when the cooldown since its sandbox's last restart is
      over. */
  lemma {:induction false} NextRestartIff(m: map<SandboxId, real>, rs: seq<Request>, r: Request)
    ensures var done := Restarts(m, rs).1;
      Restarts(m, rs + [r]).1 == if r.now - LastDone(m, done, r.sandbox) >= 120.0 then done + [r] else done
    decreases |rs|
  {
    if rs == [] {
      assert rs + [r] == [r];
      OneRequest(m, r);
    } else {
      var q := rs[0];
      assert (rs + [r])[0] == q && (rs + [r])[1..] == rs[1..] + [r];
      if q.now - Last(m, q.sandbox) < VALIDATOR_RESTART_COOLDOWN {
        NextRestartIff(m, rs[1..], r);
      } else {
        var next := m[q.sandbox := q.now];
        NextRestartIff(next, rs[1..], r);
        LastDoneFirst(m, q, Restarts(next, rs[1..]).1, r.sandbox);
        assert [q] + (Restarts(next, rs[1..]).1 + [r]) == [q] + Restarts(next, rs[1..]).1 + [r];
      }
    }
  }

  lemma {:induction false} OneRequest(m: map<SandboxId, real>, r: Request)
    ensures Restarts(m, [r])
         == if r.now - Last(m, r.sandbox) < VALIDATOR_RESTART_COOLDOWN then (m, []) else (m[r.sandbox := r.now], [r])
  {
    assert [r][1..] == [];
    var next := m[r.sandbox := r.now];
    assert Restarts(next, []) == (next, []);
    assert [r] + [] == [r];
  }

  class Restarter {
    var lastRestart: map<SandboxId, real>

    constructor ()
      ensures lastRestart == map[]
    {
      lastRestart := map[];
    }

    method MaybeRestart(id: SandboxId, now: real) returns (restarted: bool)
      modifies this
      ensures (lastRestart, if restarted then [Request(id, now)] else [])
        == Restarts(old(lastRestart), [Request(id, now)])
    {
      OneRequest(lastRestart, Request(id, now));
      var last := 0.0;
      if id in lastRestart { last := lastRestart[id]; }
      if now - last < VALIDATOR_RESTART_COOLDOWN { return false; }
      lastRestart := lastRestart[id := now];
      return true;
    }
  }
}
