/** The batching log buffer shared by appending threads and the timer. What a thread does under the lock is
    one step, and so is its call of the flush callback. */
module LogBuffer {
  import opened Collections

  datatype Entry = Entry(source: string, level: string, message: string, ts: string)

  function Clip(s: string, n: nat): (r: string)
    ensures |r| == Min(|s|, n) && r <= s
  {
    if |s| <= n then s else s[..n]
  }

  function MakeEntry(source: string, level: string, message: string, ts: string): (r: Entry)
    ensures r.source <= source && |r.source| == Min(|source|, 64)
    ensures r.message <= message && |r.message| == Min(|message|, 4096)
    ensures r.level == level && r.ts == ts
  {
    Entry(Clip(source, 64), level, Clip(message, 4096), ts)
  }

  type Batch = seq<Entry>
  type Tid = nat

  /** A thread inside the buffer: it owes a flush, or it holds the batch of that number for the callback. */
  datatype Phase = Owes | Delivering(batch: nat)

  /** history: all entries ever appended; drained: the batches in the order they left the buffer;
      delivered: their numbers in the order the callback was called. */
  datatype State = State(
    maxLines: int, lines: seq<Entry>, stopped: bool,
    threads: map<Tid, Phase>, history: seq<Entry>, drained: seq<Batch>, delivered: seq<nat>)

  function Initial(maxLines: int): State {
    State(maxLines, [], false, map[], [], [], [])
  }

  /** Flush stands for a call of flush and for a due tick of the timer. */
  datatype Event = Append(t: Tid, entry: Entry) | Flush(t: Tid) | Stop(t: Tid) | Drain(t: Tid) | Deliver(t: Tid)

  predicate Can(s: State, e: Event) {
    match e
    case Drain(t) => t in s.threads && s.threads[t].Owes?
    case Deliver(t) => t in s.threads && s.threads[t].Delivering?
    case _ => e.t !in s.threads
  }

  function Do(s: State, e: Event): State
    requires Can(s, e)
  {
    match e
    case Append(t, entry) =>
      var lines := s.lines + [entry];
      s.(lines := lines, history := s.history + [entry],
         threads := if |lines| >= s.maxLines then s.threads[t := Owes] else s.threads)
    case Flush(t) => s.(threads := s.threads[t := Owes])
    case Stop(t) => s.(threads := s.threads[t := Owes], stopped := true)
    case Drain(t) =>
      if s.lines == [] then s.(threads := s.threads - {t})
      else s.(lines := [], drained := s.drained + [s.lines], threads := s.threads[t := Delivering(|s.drained|)])
    case Deliver(t) => s.(delivered := s.delivered + [s.threads[t].batch], threads := s.threads - {t})
  }

  predicate Run(s: State, es: seq<Event>, t: State)
    decreases |es|
  {
    if es == [] then s == t else Can(s, es[0]) && Run(Do(s, es[0]), es[1..], t)
  }

  function Flatten(batches: seq<Batch>): seq<Entry> {
    if batches == [] then [] else Flatten(batches[..|batches| - 1]) + batches[|batches| - 1]
  }

  function Owing(threads: map<Tid, Phase>): set<Tid> {
    set t | t in threads && threads[t].Owes?
  }

  function Threshold(maxLines: int): nat {
    if maxLines < 1 then 1 else maxLines
  }

  // ---- The invariant ----

  predicate Complete(s: State) {
    Flatten(s.drained) + s.lines == s.history
  }

  predicate Short(s: State) {
    |s.lines| <= Threshold(s.maxLines) - 1 + |Owing(s.threads)|
  }

  /** Every batch number is with exactly one thread, or was handed to the callback exactly once. */
  predicate OneOwner(s: State) {
    && NoRepeats(s.delivered)
    && (forall i :: 0 <= i < |s.delivered| ==> s.delivered[i] < |s.drained|)
    && (forall t :: t in s.threads && s.threads[t].Delivering? ==>
          s.threads[t].batch < |s.drained| && s.threads[t].batch !in s.delivered)
    && (forall t, u :: t in s.threads && u in s.threads && t != u && s.threads[t].Delivering? ==>
         s.threads[t] != s.threads[u])
    && (forall b: nat :: b < |s.drained| ==> b in s.delivered || Delivering(b) in s.threads.Values)
  }

  ghost predicate Inv(s: State) {
    Complete(s) && Short(s) && OneOwner(s)
  }

  lemma OneMoreOwes(threads: map<Tid, Phase>, t: Tid)
    requires t !in threads
    ensures |Owing(threads[t := Owes])| == |Owing(threads)| + 1
  {
    assert Owing(threads[t := Owes]) == Owing(threads) + {t};
  }

  lemma ShortStep(s: State, e: Event)
    requires Short(s) && Can(s, e)
    ensures Short(Do(s, e))
  {
    if e.Append? || e.Flush? || e.Stop? { OneMoreOwes(s.threads, e.t); }
    if e.Deliver? { assert Owing(Do(s, e).threads) == Owing(s.threads); }
  }

  lemma OwnerEnter(s: State, e: Event)
    requires OneOwner(s) && Can(s, e) && (e.Append? || e.Flush? || e.Stop?)
    ensures OneOwner(Do(s, e))
  {
    forall b: nat | b < |s.drained| && Delivering(b) in s.threads.Values
      ensures Delivering(b) in Do(s, e).threads.Values
    {
      var u :| u in s.threads && s.threads[u] == Delivering(b);
      assert Do(s, e).threads[u] == Delivering(b);
    }
  }

  lemma OwnerDrain(s: State, t: Tid)
    requires OneOwner(s) && Can(s, Drain(t))
    ensures OneOwner(Do(s, Drain(t)))
  {
    var r := Do(s, Drain(t));
    forall b: nat | b < |s.drained| && Delivering(b) in s.threads.Values
      ensures Delivering(b) in r.threads.Values
    {
      var u :| u in s.threads && s.threads[u] == Delivering(b);
      assert r.threads[u] == Delivering(b);
    }
    if s.lines != [] {
      assert r.threads[t] == Delivering(|s.drained|);
    }
  }

  lemma OwnerDeliver(s: State, t: Tid)
    requires OneOwner(s) && Can(s, Deliver(t))
    ensures OneOwner(Do(s, Deliver(t)))
  {
    var r := Do(s, Deliver(t));
    forall b: nat | b < |s.drained| && b !in r.delivered
      ensures Delivering(b) in r.threads.Values
    {
      var u :| u in s.threads && s.threads[u] == Delivering(b);
      assert u != t;
      assert r.threads[u] == Delivering(b);
    }
  }

  lemma StepKeeps(s: State, e: Event)
    requires Inv(s) && Can(s, e)
    ensures Inv(Do(s, e))
  {
    ShortStep(s, e);
    if e.Drain? { OwnerDrain(s, e.t); } else if e.Deliver? { OwnerDeliver(s, e.t); } else { OwnerEnter(s, e); }
  }

  lemma {:induction false} RunKeeps(s: State, es: seq<Event>, t: State)
    requires Inv(s) && Run(s, es, t)
    ensures Inv(t) && t.maxLines == s.maxLines
    decreases |es|
  {
    if es != [] {
      StepKeeps(s, es[0]);
      RunKeeps(Do(s, es[0]), es[1..], t);
    }
  }

  // ---- The results ----

  /** Over every interleaving: the drained batches, in drain order, and then the buffer are the append
      history; and the buffer is shorter than the threshold but for one line per thread owing a flush. */
  lemma {:induction false} BatchesAreHistory(maxLines: int, es: seq<Event>, t: State)
    requires Run(Initial(maxLines), es, t)
    ensures Flatten(t.drained) + t.lines == t.history
    ensures |t.lines| <= Threshold(maxLines) - 1 + |Owing(t.threads)|
  {
    RunKeeps(Initial(maxLines), es, t);
  }

  /** Each batch goes to the callback at most once, and once no thread is inside, exactly once. */
  lemma {:induction false} EachBatchOnce(maxLines: int, es: seq<Event>, t: State, b: nat)
    requires Run(Initial(maxLines), es, t) && b < |t.drained|
    ensures multiset(t.delivered)[b] <= 1
    ensures t.threads == map[] ==> multiset(t.delivered)[b] == 1
  {
    RunKeeps(Initial(maxLines), es, t);
    AtMostOnce(t.delivered, b);
    if t.threads == map[] {
      assert Delivering(b) !in t.threads.Values;
      assert b in t.delivered;
    }
  }

  lemma {:induction false} AtMostOnce(xs: seq<nat>, b: nat)
    requires NoRepeats(xs)
    ensures multiset(xs)[b] <= 1
  {
    if xs != [] {
      var n := |xs| - 1;
      var rest := xs[..n];
      AtMostOnce(rest, b);
      assert xs == rest + [xs[n]];
      assert multiset(xs) == multiset(rest) + multiset{xs[n]};
      forall i | 0 <= i < n ensures rest[i] != xs[n] { assert xs[i] != xs[n]; }
    }
  }

  // ---- One thread's call ----

  /** An append adds its line at the end, and its thread goes on to flush exactly at the threshold. */
  lemma AppendFlushesIff(s: State, t: Tid, entry: Entry)
    requires Can(s, Append(t, entry))
    ensures var r := Do(s, Append(t, entry));
      && r.lines == s.lines + [entry] && r.history == s.history + [entry]
      && (Can(r, Drain(t)) <==> |s.lines| + 1 >= s.maxLines) && (t in r.threads <==> Can(r, Drain(t)))
  {}

  /** A thread that has to flush, as every call of flush and stop has, can do so at once: all that is in the
      buffer goes to the callback in one batch, if there is anything, and the thread is out again. */
  lemma {:induction false} FlushGoesThrough(s: State, t: Tid, e: Event)
    requires Can(s, e) && e in {Flush(t), Stop(t)}
    ensures (e.Stop? ==> Do(s, e).stopped) && Do(s, e).lines == s.lines
    ensures var es := if s.lines == [] then [e, Drain(t)] else [e, Drain(t), Deliver(t)];
      exists r :: Run(s, es, r) && r.threads == s.threads && r.lines == []
        && r.drained == (if s.lines == [] then s.drained else s.drained + [s.lines])
        && r.delivered == (if s.lines == [] then s.delivered else s.delivered + [|s.drained|])
  {
    var u := Do(s, e);
    var v := Do(u, Drain(t));
    if s.lines == [] {
      assert [e, Drain(t)][1..] == [Drain(t)] && [Drain(t)][1..] == [];
      assert v.threads == s.threads;
      assert Run(s, [e, Drain(t)], v);
    } else {
      var w := Do(v, Deliver(t));
      assert [e, Drain(t), Deliver(t)][1..] == [Drain(t), Deliver(t)];
      assert [Drain(t), Deliver(t)][1..] == [Deliver(t)] && [Deliver(t)][1..] == [];
      assert w.threads == s.threads;
      assert Run(v, [Deliver(t)], w) && Run(u, [Drain(t), Deliver(t)], w);
      assert Run(s, [e, Drain(t), Deliver(t)], w);
    }
  }

  predicate NoAppend(es: seq<Event>) {
    forall i :: 0 <= i < |es| ==> !es[i].Append?
  }

  lemma {:induction false} OwedOrEmpty(s: State, es: seq<Event>, t: State, caller: Tid)
    requires Run(s, es, t) && NoAppend(es)
    requires (caller in s.threads && s.threads[caller].Owes?) || s.lines == []
    ensures (caller in t.threads && t.threads[caller].Owes?) || t.lines == []
    decreases |es|
  {
    if es != [] {
      assert !es[0].Append?;
      OwedOrEmpty(Do(s, es[0]), es[1..], t, caller);
    }
  }

  /** After stop has drained, and with no append since it began, the buffer is empty; once every thread
      has left, each line ever appended was in a batch handed to the callback. */
  lemma {:induction false} StoppedIsEmpty(maxLines: int, before: seq<Event>, s: State, caller: Tid,
      after: seq<Event>, t: State)
    requires Run(Initial(maxLines), before, s) && Can(s, Stop(caller))
    requires Run(Do(s, Stop(caller)), after, t) && NoAppend(after)
    requires !(caller in t.threads && t.threads[caller].Owes?)
    ensures t.lines == [] && Flatten(t.drained) == t.history
    ensures t.threads == map[] ==> forall b: nat :: b < |t.drained| ==> b in t.delivered
  {
    var u := Do(s, Stop(caller));
    assert Inv(t) by {
      RunKeeps(Initial(maxLines), before, s);
      StepKeeps(s, Stop(caller));
      RunKeeps(u, after, t);
    }
    assert t.lines == [] by { OwedOrEmpty(u, after, t, caller); }
    EmptyIsDrained(t);
  }

  lemma EmptyIsDrained(t: State)
    requires Inv(t) && t.lines == []
    ensures Flatten(t.drained) == t.history
    ensures t.threads == map[] ==> forall b: nat :: b < |t.drained| ==> b in t.delivered
  {
    assert Flatten(t.drained) + [] == Flatten(t.drained);
  }

  // ---- The order of delivery ----

  predicate InOrder(xs: seq<nat>) {
    forall i :: 0 <= i < |xs| ==> xs[i] == i
  }

  predicate NoneDelivering(s: State) {
    forall t :: t in s.threads ==> s.threads[t].Owes?
  }

  /** No batch leaves the buffer while another is still with its thread; an empty buffer may be drained. */
  predicate OneDelivery(s: State, es: seq<Event>)
    decreases |es|
  {
    es != [] && Can(s, es[0]) ==>
      (es[0].Drain? ==> s.lines == [] || NoneDelivering(s)) && OneDelivery(Do(s, es[0]), es[1..])
  }

  /** What one delivery at a time keeps. */
  predicate Serial(s: State) {
    && InOrder(s.delivered)
    && (NoneDelivering(s) ==> |s.delivered| == |s.drained|)
    && (forall t :: t in s.threads && s.threads[t].Delivering? ==>
          s.threads[t].batch == |s.delivered| && |s.drained| == |s.delivered| + 1)
    && (forall t, u :: t in s.threads && u in s.threads && s.threads[t].Delivering? && s.threads[u].Delivering? ==>
         t == u)
  }

  lemma SerialStep(s: State, e: Event)
    requires Serial(s) && Can(s, e) && (e.Drain? ==> s.lines == [] || NoneDelivering(s))
    ensures Serial(Do(s, e))
  {
    var r := Do(s, e);
    if e.Append? || e.Flush? || e.Stop? {
      if NoneDelivering(r) {
        forall t | t in s.threads ensures s.threads[t].Owes? { assert r.threads[t] == s.threads[t]; }
      }
    } else if e.Deliver? {
      assert NoneDelivering(r);
    } else if s.lines != [] {
      assert r.threads[e.t].Delivering?;
    } else if NoneDelivering(r) {
      forall t | t in s.threads ensures s.threads[t].Owes? { if t != e.t { assert r.threads[t] == s.threads[t]; } }
    }
  }

  /** Batches reach the callback in the order they were drained as long as none is drained while another
      is being delivered. */
  lemma {:induction false} SerialIsInOrder(s: State, es: seq<Event>, t: State)
    requires Serial(s) && Run(s, es, t) && OneDelivery(s, es)
    ensures Serial(t) && InOrder(t.delivered)
    decreases |es|
  {
    if es != [] {
      SerialStep(s, es[0]);
      SerialIsInOrder(Do(s, es[0]), es[1..], t);
    }
  }

  /** They stay in order however the run goes on, as long as no further drain overlaps a delivery. */
  ghost predicate StaysInOrder(s: State) {
    forall es, t :: Run(s, es, t) && OneDelivery(s, es) ==> InOrder(t.delivered)
  }

  /** After one delivery at a time, a further drain leaves the batches in order whatever follows exactly when
      it finds the buffer empty or no other batch being delivered. */
  lemma {:induction false} DrainIff(maxLines: int, es: seq<Event>, s: State, t: Tid)
    requires Run(Initial(maxLines), es, s) && OneDelivery(Initial(maxLines), es) && Can(s, Drain(t))
    ensures StaysInOrder(Do(s, Drain(t))) <==> s.lines == [] || NoneDelivering(s)
  {
    SerialIsInOrder(Initial(maxLines), es, s);
    var r := Do(s, Drain(t));
    if s.lines == [] || NoneDelivering(s) {
      SerialStep(s, Drain(t));
      forall fs, u | Run(r, fs, u) && OneDelivery(r, fs) ensures InOrder(u.delivered) { SerialIsInOrder(r, fs, u); }
    } else {
      assert [Deliver(t)][1..] == [];
      var u := Do(r, Deliver(t));
      assert Run(r, [Deliver(t)], u) && OneDelivery(r, [Deliver(t)]);
      var n := |s.delivered|;
      assert u.delivered[n] == |s.drained| == n + 1;
      assert !InOrder(u.delivered);
    }
  }

  /** A thread that has drained can be overtaken before its callback. */
  lemma DeliveryCanOvertake(a: Entry, b: Entry)
    ensures
      var s := Do(Do(Initial(1), Append(0, a)), Drain(0));
      var u := Do(Do(s, Append(1, b)), Drain(1));
      var t := Do(Do(u, Deliver(1)), Deliver(0));
      t.drained == [[a], [b]] && t.delivered == [1, 0]
  {
    var s0 := Do(Initial(1), Append(0, a));
    assert s0.lines == [a];
    var s := Do(s0, Drain(0));
    assert s.drained == [[a]];
    var u0 := Do(s, Append(1, b));
    assert u0.lines == [b];
    var u := Do(u0, Drain(1));
    assert u.drained == [[a], [b]];
    var t := Do(Do(u, Deliver(1)), Deliver(0));
    assert t.delivered == [1, 0];
  }
}

/** The buffer as the object it is. Each locked region and each call of the callback is a method; the
    public methods compose them as one thread does that no other disturbs. */
module LogBatchBuffers {
  import opened LogBuffer

  class LogBatchBuffer {
    const maxLines: int
    var lines: seq<Entry>
    var stopped: bool
    var drained: seq<Batch>
    var delivered: seq<nat>
    var threads: map<Tid, Phase>
    ghost var history: seq<Entry>

    constructor (maxLines: int)
      ensures View() == Initial(maxLines)
    {
      this.maxLines := maxLines;
      lines, stopped, drained, delivered, threads, history := [], false, [], [], map[], [];
    }

    ghost function View(): State
      reads this
    {
      State(maxLines, lines, stopped, threads, history, drained, delivered)
    }

    method LockedAppend(t: Tid, entry: Entry)
      requires Can(View(), LogBuffer.Append(t, entry))
      modifies this
      ensures View() == Do(old(View()), LogBuffer.Append(t, entry))
    {
      lines := lines + [entry];
      history := history + [entry];
      if |lines| >= maxLines { threads := threads[t := Owes]; }
    }

    method LockedDrain(t: Tid) returns (batch: Batch)
      requires Can(View(), Drain(t))
      modifies this
      ensures View() == Do(old(View()), Drain(t))
      ensures batch == old(lines)
    {
      batch := lines;
      if lines == [] {
        threads := threads - {t};
        return;
      }
      threads := threads[t := Delivering(|drained|)];
      drained := drained + [lines];
      lines := [];
    }

    method CallBack(t: Tid)
      requires Can(View(), Deliver(t))
      modifies this
      ensures View() == Do(old(View()), Deliver(t))
    {
      delivered := delivered + [threads[t].batch];
      threads := threads - {t};
    }

    /** `_do_flush` by the thread t that owes it. */
    method DoFlush(t: Tid)
      requires Can(View(), Drain(t))
      modifies this
      ensures lines == [] && history == old(history) && stopped == old(stopped) && threads == old(threads) - {t}
      ensures drained == old(drained) + if old(lines) == [] then [] else [old(lines)]
      ensures delivered == old(delivered) + if old(lines) == [] then [] else [|old(drained)|]
    {
      var batch := LockedDrain(t);
      if batch != [] { CallBack(t); }
      assert threads == old(threads) - {t};
    }

    method Append(t: Tid, source: string, level: string, message: string, ts: string)
      requires t !in threads
      modifies this
      ensures history == old(history) + [MakeEntry(source, level, message, ts)] && threads == old(threads)
      ensures |old(lines)| + 1 < maxLines ==>
        lines == old(lines) + [MakeEntry(source, level, message, ts)]
        && drained == old(drained) && delivered == old(delivered)
      ensures |old(lines)| + 1 >= maxLines ==>
        lines == [] && drained == old(drained) + [old(lines) + [MakeEntry(source, level, message, ts)]]
        && delivered == old(delivered) + [|old(drained)|]
    {
      LockedAppend(t, MakeEntry(source, level, message, ts));
      if t in threads { DoFlush(t); }
      assert threads == old(threads);
    }

    method Stop(t: Tid)
      requires t !in threads
      modifies this
      ensures stopped && lines == [] && history == old(history) && threads == old(threads)
      ensures drained == old(drained) + if old(lines) == [] then [] else [old(lines)]
      ensures delivered == old(delivered) + if old(lines) == [] then [] else [|old(drained)|]
    {
      stopped := true;
      threads := threads[t := Owes];
      DoFlush(t);
      assert threads == old(threads);
    }
  }
}
