/** The sandbox pool: slots, the capacity event, and the tasks that wait for a slot. Code between two
    suspension points of the event loop is one atomic step. */
module Pool {
  type SandboxId = nat
  type TaskId = nat

  /** A waiting task is parked on the event, or has been woken and not run yet. */
  datatype Waiter = Parked | Woken

  datatype State = State(maxSandboxes: int, active: set<SandboxId>, slotAvailable: bool, waiters: map<TaskId, Waiter>)

  function Initial(maxSandboxes: int): State {
    State(maxSandboxes, {}, true, map[])
  }

  predicate HasCapacity(s: State) {
    |s.active| < s.maxSandboxes
  }

  function WakeAll(waiters: map<TaskId, Waiter>): (r: map<TaskId, Waiter>)
    ensures r.Keys == waiters.Keys && forall t :: t in r ==> r[t] == Woken
  {
    map t | t in waiters :: Woken
  }

  /** `acquire`: refused at capacity; taking the last slot clears the event. */
  function Acquire(s: State, id: SandboxId): State {
    if !HasCapacity(s) then s
    else
      var taken := s.(active := s.active + {id});
      if HasCapacity(taken) then taken else taken.(slotAvailable := false)
  }

  /** `release`: a missing entry is no error; the event is set and every waiter woken. */
  function Release(s: State, id: SandboxId): State {
    s.(active := s.active - {id}, slotAvailable := true, waiters := WakeAll(s.waiters))
  }

  /** One pass of the loop of `wait_for_slot` by task t: it returns, or clears the event and parks. */
  function TryWait(s: State, t: TaskId): State {
    if HasCapacity(s) then s.(waiters := s.waiters - {t})
    else s.(slotAvailable := false, waiters := s.waiters[t := Parked])
  }

  datatype Event = DoAcquire(id: SandboxId) | DoRelease(id: SandboxId) | DoWait(t: TaskId)

  /** A parked task does not run; every other step is possible at any time. */
  predicate Can(s: State, e: Event) {
    e.DoWait? && e.t in s.waiters ==> s.waiters[e.t] == Woken
  }

  function Do(s: State, e: Event): State {
    match e
    case DoAcquire(id) => Acquire(s, id)
    case DoRelease(id) => Release(s, id)
    case DoWait(t) => TryWait(s, t)
  }

  /** t is reached from s by the steps es. */
  predicate Run(s: State, es: seq<Event>, t: State)
    decreases |es|
  {
    if es == [] then s == t else Can(s, es[0]) && Run(Do(s, es[0]), es[1..], t)
  }

  function Slots(maxSandboxes: int): nat {
    if maxSandboxes < 0 then 0 else maxSandboxes
  }

  predicate Inv(s: State) {
    && |s.active| <= Slots(s.maxSandboxes)
    && (!s.slotAvailable ==> !HasCapacity(s))
    && (forall t :: t in s.waiters && s.waiters[t] == Parked ==> !s.slotAvailable)
  }

  lemma AddOne(active: set<SandboxId>, id: SandboxId)
    ensures |active + {id}| <= |active| + 1
    ensures |active| <= |active + {id}|
    ensures |active - {id}| <= |active|
  {
    if id in active { assert active + {id} == active; }
    assert active - {id} <= active;
    if id !in active { assert active - {id} == active; }
  }

  lemma StepKeeps(s: State, e: Event)
    requires Inv(s) && Can(s, e)
    ensures Inv(Do(s, e))
  {
    if e.DoAcquire? || e.DoRelease? { AddOne(s.active, e.id); }
  }

  lemma {:induction false} RunKeeps(s: State, es: seq<Event>, t: State)
    requires Inv(s) && Run(s, es, t)
    ensures Inv(t) && t.maxSandboxes == s.maxSandboxes
    decreases |es|
  {
    if es != [] {
      StepKeeps(s, es[0]);
      RunKeeps(Do(s, es[0]), es[1..], t);
    }
  }

  /** Over every interleaving: the slots never exceed the maximum, a cleared event means a full pool,
      and so does a parked task. */
  lemma {:induction false} EveryInterleaving(maxSandboxes: int, es: seq<Event>, t: State)
    requires Run(Initial(maxSandboxes), es, t)
    ensures |t.active| <= Slots(maxSandboxes)
    ensures !t.slotAvailable ==> |t.active| >= maxSandboxes
    ensures (exists w :: w in t.waiters && t.waiters[w] == Parked) ==> |t.active| >= maxSandboxes
  {
    RunKeeps(Initial(maxSandboxes), es, t);
  }

  /** Event i of the run takes a slot for id. */
  ghost predicate Grants(maxSandboxes: int, es: seq<Event>, i: nat, id: SandboxId) {
    i < |es| && es[i] == DoAcquire(id) && |StateAt(maxSandboxes, es, i).active| < maxSandboxes
  }

  /** The state before event i of a run. */
  function StateAt(maxSandboxes: int, es: seq<Event>, i: nat): State
    requires i <= |es|
  {
    if i == 0 then Initial(maxSandboxes) else Do(StateAt(maxSandboxes, es, i - 1), es[i - 1])
  }

  ghost predicate HasSlot(maxSandboxes: int, es: seq<Event>, n: nat, id: SandboxId)
    requires n <= |es|
  {
    exists i: nat :: i < n && Grants(maxSandboxes, es, i, id) && forall j: nat :: i < j < n ==> es[j] != DoRelease(id)
  }

  /** After any events the slots are exactly those that were granted, each to an acquire that found room, and
      not released since. */
  lemma {:induction false} SlotsAreGrants(maxSandboxes: int, es: seq<Event>, n: nat, id: SandboxId)
    requires n <= |es|
    ensures id in StateAt(maxSandboxes, es, n).active <==> HasSlot(maxSandboxes, es, n, id)
    ensures StateAt(maxSandboxes, es, n).maxSandboxes == maxSandboxes
    decreases n
  {
    if n != 0 {
      var s, e := StateAt(maxSandboxes, es, n - 1), es[n - 1];
      SlotsAreGrants(maxSandboxes, es, n - 1, id);
      assert id in Do(s, e).active <==>
        (e == DoAcquire(id) && |s.active| < maxSandboxes) || (id in s.active && e != DoRelease(id));
      HasSlotStep(maxSandboxes, es, n, id);
    }
  }

  lemma HasSlotStep(maxSandboxes: int, es: seq<Event>, n: nat, id: SandboxId)
    requires 0 < n <= |es|
    ensures HasSlot(maxSandboxes, es, n, id) <==>
      Grants(maxSandboxes, es, n - 1, id) || (HasSlot(maxSandboxes, es, n - 1, id) && es[n - 1] != DoRelease(id))
  {
    if HasSlot(maxSandboxes, es, n - 1, id) && es[n - 1] != DoRelease(id) {
      var i: nat :| i < n - 1 && Grants(maxSandboxes, es, i, id)
        && forall j: nat :: i < j < n - 1 ==> es[j] != DoRelease(id);
      assert i < n && forall j: nat :: i < j < n ==> es[j] != DoRelease(id);
    }
    if HasSlot(maxSandboxes, es, n, id) && !Grants(maxSandboxes, es, n - 1, id) {
      var i: nat :| i < n && Grants(maxSandboxes, es, i, id) && forall j: nat :: i < j < n ==> es[j] != DoRelease(id);
      assert i < n - 1 && forall j: nat :: i < j < n - 1 ==> es[j] != DoRelease(id);
    }
    if Grants(maxSandboxes, es, n - 1, id) { assert n - 1 < n; }
  }

  /** A waiting task that finds room returns and leaves the event alone; one that finds none clears it and parks. */
  lemma WaitParksIff(s: State, w: TaskId)
    requires Can(s, DoWait(w))
    ensures var t := Do(s, DoWait(w));
      if |s.active| < s.maxSandboxes then w !in t.waiters && t.slotAvailable == s.slotAvailable
      else t.waiters == s.waiters[w := Parked] && !t.slotAvailable
  {}

  /** Taking the last slot clears the event; a release sets it. */
  lemma EventFollows(s: State, id: SandboxId)
    requires |s.active| < s.maxSandboxes
    ensures var t := Do(s, DoAcquire(id));
      t.slotAvailable == (s.slotAvailable && |t.active| < s.maxSandboxes) && Do(s, DoRelease(id)).slotAvailable
  {}

  /** No wakeup is lost: whenever a slot is free, every waiting task can run, and returns if it does. */
  lemma {:induction false} NoLostWakeup(maxSandboxes: int, es: seq<Event>, t: State, w: TaskId)
    requires Run(Initial(maxSandboxes), es, t) && w in t.waiters && HasCapacity(t)
    ensures Can(t, DoWait(w)) && w !in Do(t, DoWait(w)).waiters
  {
    RunKeeps(Initial(maxSandboxes), es, t);
  }

  /** A parked task cannot run until a release; the release of a slot that was taken frees it and wakes
      the task. */
  lemma ReleaseWakes(s: State, w: TaskId, id: SandboxId)
    requires Inv(s) && w in s.waiters && s.waiters[w] == Parked && id in s.active
    ensures !Can(s, DoWait(w)) && Can(Release(s, id), DoWait(w))
    ensures HasCapacity(Release(s, id))
    ensures w !in Do(Release(s, id), DoWait(w)).waiters
  {
    assert |s.active - {id}| == |s.active| - 1;
  }
}

/** The pool as the object it is. */
module SandboxPools {
  import Pool

  class SandboxPool {
    const maxSandboxes: int
    var active: map<Pool.SandboxId, nat>
    var slotAvailable: bool
    var waiters: map<Pool.TaskId, Pool.Waiter>

    constructor (maxSandboxes: int)
      ensures View() == Pool.Initial(maxSandboxes) && active == map[]
    {
      this.maxSandboxes := maxSandboxes;
      active, slotAvailable, waiters := map[], true, map[];
    }

    function View(): Pool.State
      reads this
    {
      Pool.State(maxSandboxes, active.Keys, slotAvailable, waiters)
    }

    predicate HasCapacity()
      reads this
      ensures HasCapacity() == Pool.HasCapacity(View())
    {
      assert |active| == |active.Keys|;
      |active| < maxSandboxes
    }

    method Acquire(sandboxId: Pool.SandboxId, runId: nat) returns (acquired: bool)
      modifies this
      ensures acquired == old(HasCapacity())
      ensures View() == Pool.Acquire(old(View()), sandboxId)
      ensures active == if acquired then old(active)[sandboxId := runId] else old(active)
    {
      if !HasCapacity() { return false; }
      active := active[sandboxId := runId];
      assert active.Keys == old(active).Keys + {sandboxId};
      if !HasCapacity() {
        slotAvailable := false;
      }
      return true;
    }

    method Release(sandboxId: Pool.SandboxId)
      modifies this
      ensures View() == Pool.Release(old(View()), sandboxId)
      ensures active == old(active) - {sandboxId}
    {
      active := active - {sandboxId};
      slotAvailable := true;
      waiters := Pool.WakeAll(waiters);
    }

    /** One pass of the waiting loop of a task that runs. */
    method TryWait(task: Pool.TaskId) returns (returned: bool)
      requires Pool.Can(View(), Pool.DoWait(task))
      modifies this
      ensures returned == old(HasCapacity())
      ensures View() == Pool.TryWait(old(View()), task)
    {
      if HasCapacity() {
        waiters := waiters - {task};
        return true;
      }
      slotAvailable := false;
      waiters := waiters[task := Pool.Parked];
      return false;
    }
  }
}
