/** The life of the queue consumer's handlers around the pool: admission of a message, acquire,
    provisioning, teardown and release, in every interleaving. */
module Admission {
  import opened Wrappers
  import opened Collections

  type Sid = string

  /** Where a handler stands.
      - Admitted: its message passed the capacity check and is acknowledged; `overtaken` counts the other
        handlers that acquired a slot since then.
      - Started .. Serving: inside the try block; the sandbox is provisioned from Provisioned on.
      - Closing: in the finally block; Releasing: teardown has returned.
      - Done: released; Dropped: acquire was refused; Abandoned: cancelled before acquire;
        Stuck: teardown raised, so release was never reached. */
  datatype Stage =
    | Admitted(overtaken: nat)
    | Started | Building | Provisioned | Serving
    | Closing(provisioned: bool) | Releasing
    | Done | Dropped(overtakers: nat) | Abandoned | Stuck

  datatype State = State(maxSandboxes: int, handlers: map<Sid, Stage>, active: set<Sid>, releases: seq<Sid>)

  function Initial(maxSandboxes: int): State {
    State(maxSandboxes, map[], {}, [])
  }

  datatype Event =
    | Admit(h: Sid) | Acquire(h: Sid) | Abandon(h: Sid)
    | CancelBefore(h: Sid) | MarkProvisioning(h: Sid) | BuildDone(h: Sid) | BuildFailed(h: Sid)
    | CancelAfter(h: Sid) | MarkReady(h: Sid) | Finish(h: Sid) | Raise(h: Sid)
    | Teardown(h: Sid, ok: bool) | Release(h: Sid)

  predicate HasCapacity(s: State) {
    |s.active| < s.maxSandboxes
  }

  /** Between a successful acquire and the end of the finally block. */
  predicate Holding(g: Stage) {
    g.Started? || g.Building? || g.Provisioned? || g.Serving? || g.Closing? || g.Releasing?
  }

  predicate At(s: State, h: Sid, g: Stage) {
    h in s.handlers && s.handlers[h] == g
  }

  predicate Can(s: State, e: Event) {
    match e
    case Admit(h) => h !in s.handlers && HasCapacity(s)
    case Acquire(h) => h in s.handlers && s.handlers[h].Admitted?
    case Abandon(h) => h in s.handlers && s.handlers[h].Admitted?
    case CancelBefore(h) => At(s, h, Started)
    case MarkProvisioning(h) => At(s, h, Started)
    case BuildDone(h) => At(s, h, Building)
    case BuildFailed(h) => At(s, h, Building)
    case CancelAfter(h) => At(s, h, Provisioned)
    case MarkReady(h) => At(s, h, Provisioned)
    case Finish(h) => At(s, h, Serving)
    case Raise(h) =>
      h in s.handlers &&
      (s.handlers[h].Started? || s.handlers[h].Building? || s.handlers[h].Provisioned? || s.handlers[h].Serving?)
    case Teardown(h, _) => At(s, h, Closing(true))
    case Release(h) => At(s, h, Closing(false)) || At(s, h, Releasing)
  }

  /** Every other admitted handler has been overtaken once more. */
  function Overtake(handlers: map<Sid, Stage>, h: Sid): (r: map<Sid, Stage>)
    ensures r.Keys == handlers.Keys
  {
    map k | k in handlers ::
      if k != h && handlers[k].Admitted? then Admitted(handlers[k].overtaken + 1) else handlers[k]
  }

  function Move(s: State, h: Sid, g: Stage): State {
    s.(handlers := s.handlers[h := g])
  }

  function Do(s: State, e: Event): State
    requires Can(s, e)
  {
    match e
    case Admit(h) => Move(s, h, Admitted(0))
    case Acquire(h) =>
      if HasCapacity(s) then s.(active := s.active + {h}, handlers := Overtake(s.handlers, h)[h := Started])
      else Move(s, h, Dropped(s.handlers[h].overtaken))
    case Abandon(h) => Move(s, h, Abandoned)
    case CancelBefore(h) => Move(s, h, Closing(false))
    case MarkProvisioning(h) => Move(s, h, Building)
    case BuildDone(h) => Move(s, h, Provisioned)
    case BuildFailed(h) => Move(s, h, Closing(false))
    case CancelAfter(h) => Move(s, h, Closing(true))
    case MarkReady(h) => Move(s, h, Serving)
    case Finish(h) => Move(s, h, Closing(true))
    case Raise(h) => Move(s, h, Closing(s.handlers[h].Provisioned? || s.handlers[h].Serving?))
    case Teardown(h, ok) => Move(s, h, if ok then Releasing else Stuck)
    case Release(h) =>
      s.(active := s.active - {h}, handlers := s.handlers[h := Done], releases := s.releases + [h])
  }

  function After(s: State, es: seq<Event>): Option<State>
    decreases |es|
  {
    if es == [] then Some(s)
    else if Can(s, es[0]) then After(Do(s, es[0]), es[1..])
    else None
  }

  predicate Run(s: State, es: seq<Event>, t: State) {
    After(s, es) == Some(t)
  }

  // ---- The invariant ----

  /** The active entries are exactly the handlers that hold a slot, and those that lost it for good. */
  predicate ActiveIsHolding(s: State) {
    && s.active <= s.handlers.Keys
    && forall h :: h in s.handlers ==> (h in s.active <==> Holding(s.handlers[h]) || s.handlers[h].Stuck?)
  }

  /** Each handler was released once if it is done, and never otherwise. */
  predicate ReleasedOnce(s: State) {
    && (forall h :: h in s.releases ==> h in s.handlers)
    && forall h :: h in s.handlers ==> multiset(s.releases)[h] == if s.handlers[h].Done? then 1 else 0
  }

  predicate Bounded(s: State) {
    && |s.active| <= (if s.maxSandboxes < 0 then 0 else s.maxSandboxes)
    && (forall h :: h in s.handlers && s.handlers[h].Admitted? ==>
          |s.active| <= s.maxSandboxes - 1 + s.handlers[h].overtaken)
    && (forall h :: h in s.handlers && s.handlers[h].Dropped? ==> s.handlers[h].overtakers > 0)
  }

  predicate Inv(s: State) {
    ActiveIsHolding(s) && ReleasedOnce(s) && Bounded(s)
  }

  /** A step that only moves one handler between stages that agree on holding a slot. */
  lemma MoveKeeps(s: State, h: Sid, g: Stage)
    requires Inv(s) && h in s.handlers
    requires !g.Admitted? && !g.Dropped? && !g.Done? && !s.handlers[h].Done?
    requires (Holding(g) || g.Stuck?) == (Holding(s.handlers[h]) || s.handlers[h].Stuck?)
    ensures Inv(Move(s, h, g))
  {}

  lemma GrantedKeeps(s: State, h: Sid)
    requires Inv(s) && Can(s, Acquire(h)) && HasCapacity(s)
    ensures Inv(Do(s, Acquire(h)))
  {
    var t := Do(s, Acquire(h));
    assert |s.active + {h}| == |s.active| + 1;
    assert ActiveIsHolding(t);
    assert ReleasedOnce(t);
  }

  lemma AcquireKeeps(s: State, h: Sid)
    requires Inv(s) && Can(s, Acquire(h))
    ensures Inv(Do(s, Acquire(h)))
  {
    if HasCapacity(s) { GrantedKeeps(s, h); }
  }

  lemma ReleaseKeeps(s: State, h: Sid)
    requires Inv(s) && Can(s, Release(h))
    ensures Inv(Do(s, Release(h)))
  {
    assert |s.active - {h}| == |s.active| - 1;
    assert multiset(s.releases + [h]) == multiset(s.releases) + multiset{h};
  }

  lemma StepKeeps(s: State, e: Event)
    requires Inv(s) && Can(s, e)
    ensures Inv(Do(s, e))
  {
    match e
    case Admit(h) =>
    case Acquire(h) => AcquireKeeps(s, h);
    case Release(h) => ReleaseKeeps(s, h);
    case _ => MoveKeeps(s, e.h, Do(s, e).handlers[e.h]);
  }

  lemma {:induction false} RunKeeps(s: State, es: seq<Event>, t: State)
    requires Inv(s) && Run(s, es, t)
    ensures Inv(t) && t.maxSandboxes == s.maxSandboxes
    decreases |es|
  {
    if es != [] {
      StepKeeps(s, es[0]);
      RunKeeps(Do(s, es[0]), es[1..], t);
    }
  }

  // ---- Teardown ----

  /** The sandbox is provisioned, and its teardown is still to come. */
  predicate Owes(g: Stage) {
    g.Provisioned? || g.Serving? || g == Closing(true)
  }

  predicate TornDownFirst(es: seq<Event>, h: Sid) {
    exists i, j :: 0 <= i < j < |es| && es[i] == Teardown(h, true) && es[j] == Release(h)
  }

  lemma TornDownLater(e: Event, es: seq<Event>, h: Sid)
    ensures TornDownFirst(es, h) ==> TornDownFirst([e] + es, h)
    ensures e == Teardown(h, true) && Release(h) in es ==> TornDownFirst([e] + es, h)
  {
    var all := [e] + es;
    if TornDownFirst(es, h) {
      var i, j :| 0 <= i < j < |es| && es[i] == Teardown(h, true) && es[j] == Release(h);
      assert all[i + 1] == es[i] && all[j + 1] == es[j];
    }
    if e == Teardown(h, true) && Release(h) in es {
      var j :| 0 <= j < |es| && es[j] == Release(h);
      assert all[0] == e && all[j + 1] == es[j];
    }
  }

  lemma {:induction false} ReleasingIsReleased(s: State, es: seq<Event>, t: State, h: Sid)
    requires Run(s, es, t) && At(s, h, Releasing) && At(t, h, Done)
    ensures Release(h) in es && BuildDone(h) !in es
    decreases |es|
  {
    if es[0] != Release(h) { ReleasingIsReleased(Do(s, es[0]), es[1..], t, h); } else { FinalStays(s, es, t, h); }
  }

  /** Nothing happens to a handler that is done, but its release brought it there. */
  lemma {:induction false} FinalStays(s: State, es: seq<Event>, t: State, h: Sid)
    requires Run(s, es, t) && h in s.handlers && (s.handlers[h].Done? || (es != [] && es[0] == Release(h)))
    ensures BuildDone(h) !in es && forall ok :: Teardown(h, ok) !in es
    decreases |es|
  {
    if es != [] { FinalStays(Do(s, es[0]), es[1..], t, h); }
  }

  lemma {:induction false} OwingIsTornDown(s: State, es: seq<Event>, t: State, h: Sid)
    requires Run(s, es, t) && h in s.handlers && Owes(s.handlers[h]) && At(t, h, Done)
    ensures TornDownFirst(es, h)
    decreases |es|
  {
    var r := Do(s, es[0]);
    assert es == [es[0]] + es[1..];
    TornDownLater(es[0], es[1..], h);
    if es[0] == Teardown(h, true) {
      ReleasingIsReleased(r, es[1..], t, h);
    } else {
      assert es[0] != Teardown(h, false) by { if es[0] == Teardown(h, false) { StuckStays(r, es[1..], t, h); } }
      OwingIsTornDown(r, es[1..], t, h);
    }
  }

  lemma {:induction false} StuckStays(s: State, es: seq<Event>, t: State, h: Sid)
    requires Run(s, es, t) && At(s, h, Stuck)
    ensures At(t, h, Stuck)
    decreases |es|
  {
    if es != [] { StuckStays(Do(s, es[0]), es[1..], t, h); }
  }

  lemma {:induction false} UnprovisionedIsNot(s: State, es: seq<Event>, t: State, h: Sid)
    requires Run(s, es, t) && At(s, h, Closing(false)) && At(t, h, Done)
    ensures BuildDone(h) !in es && forall ok :: Teardown(h, ok) !in es
    decreases |es|
  {
    if es[0] == Release(h) { FinalStays(s, es, t, h); } else { UnprovisionedIsNot(Do(s, es[0]), es[1..], t, h); }
  }

  /** The stages before a build has finished. */
  predicate Early(s: State, h: Sid) {
    h !in s.handlers || s.handlers[h].Admitted? || s.handlers[h].Started? || s.handlers[h].Building?
  }

  lemma {:induction false} EarlyIsTornDownIff(s: State, es: seq<Event>, t: State, h: Sid)
    requires Run(s, es, t) && Early(s, h) && At(t, h, Done)
    ensures BuildDone(h) in es ==> TornDownFirst(es, h)
    ensures BuildDone(h) !in es ==> forall ok :: Teardown(h, ok) !in es
    decreases |es|
  {
    var r := Do(s, es[0]);
    assert es == [es[0]] + es[1..];
    TornDownLater(es[0], es[1..], h);
    AfterEarly(s, es[0], h);
    if Early(r, h) {
      EarlyIsTornDownIff(r, es[1..], t, h);
    } else if At(r, h, Closing(false)) {
      UnprovisionedIsNot(r, es[1..], t, h);
    } else if Owes(r.handlers[h]) {
      OwingIsTornDown(r, es[1..], t, h);
    } else {
      LostStays(r, es[1..], t, h);
    }
  }

  lemma AfterEarly(s: State, e: Event, h: Sid)
    requires Can(s, e) && Early(s, h)
    ensures var r := Do(s, e);
      && (forall ok :: e != Teardown(h, ok))
      && (e == BuildDone(h) <==> h in r.handlers && Owes(r.handlers[h]))
      && (Early(r, h) || At(r, h, Closing(false)) || Owes(r.handlers[h]) || Lost(r.handlers[h]))
  {}

  predicate Lost(g: Stage) {
    g.Dropped? || g.Abandoned?
  }

  lemma {:induction false} LostStays(s: State, es: seq<Event>, t: State, h: Sid)
    requires Run(s, es, t) && h in s.handlers && Lost(s.handlers[h])
    ensures At(t, h, s.handlers[h])
    decreases |es|
  {
    if es != [] { LostStays(Do(s, es[0]), es[1..], t, h); }
  }

  /** A handler that is done tore its sandbox down, and before it released its slot, exactly when the sandbox had
      been provisioned. */
  lemma {:induction false} TornDownIff(maxSandboxes: int, es: seq<Event>, t: State, h: Sid)
    requires Run(Initial(maxSandboxes), es, t) && At(t, h, Done)
    ensures TornDownFirst(es, h) <==> BuildDone(h) in es
    ensures (exists ok :: Teardown(h, ok) in es) <==> BuildDone(h) in es
  {
    EarlyIsTornDownIff(Initial(maxSandboxes), es, t, h);
    if TornDownFirst(es, h) {
      var i, j :| 0 <= i < j < |es| && es[i] == Teardown(h, true) && es[j] == Release(h);
      assert es[i] in es;
    }
  }

  /** The path leads a handler to the end, and its slot is free again. */
  predicate Exits(s: State, path: seq<Event>, h: Sid) {
    After(s, path).Some? && var t := After(s, path).value; At(t, h, Done) && h !in t.active && h in t.releases
  }

  /** An admitted handler may be granted a slot, refused one or abandoned. */
  lemma {:induction false} AdmittedLeaves(s: State, h: Sid)
    requires AdmittedAt(s, h)
    ensures After(s, [Abandon(h)]).Some? && After(s, [Acquire(h)]).Some?
    ensures var t := After(s, [Abandon(h)]).value; At(t, h, Abandoned) && t.active == s.active
    ensures var t := After(s, [Acquire(h)]).value;
      if HasCapacity(s) then At(t, h, Started) && t.active == s.active + {h}
      else DroppedAt(t, h) && t.active == s.active
  {
    assert [Abandon(h)][1..] == [] && [Acquire(h)][1..] == [];
  }

  /** Every way out of a handler that was granted a slot is open: before its sandbox is provisioned it may be
      cancelled, raise, or fail to build. */
  lemma {:induction false} EarlyExits(s: State, h: Sid)
    requires At(s, h, Started)
    ensures Exits(s, [CancelBefore(h), Release(h)], h)
    ensures Exits(s, [Raise(h), Release(h)], h)
    ensures Exits(s, [MarkProvisioning(h), Raise(h), Release(h)], h)
    ensures Exits(s, [MarkProvisioning(h), BuildFailed(h), Release(h)], h)
  {
    var building := Do(s, MarkProvisioning(h));
    ShortExit(s, CancelBefore(h), h);
    ShortExit(s, Raise(h), h);
    ShortExit(building, Raise(h), h);
    ShortExit(building, BuildFailed(h), h);
    StepIn(s, MarkProvisioning(h), [Raise(h), Release(h)], h);
    StepIn(s, MarkProvisioning(h), [BuildFailed(h), Release(h)], h);
  }

  /** After that it may be cancelled or raise, and once its sandbox serves, raise or finish; always past a
      teardown. */
  lemma {:induction false} LateExits(s: State, h: Sid)
    requires At(s, h, Building)
    ensures Exits(s, [BuildDone(h), Raise(h), Teardown(h, true), Release(h)], h)
    ensures Exits(s, [BuildDone(h), CancelAfter(h), Teardown(h, true), Release(h)], h)
    ensures Exits(s, [BuildDone(h), MarkReady(h), Raise(h), Teardown(h, true), Release(h)], h)
    ensures Exits(s, [BuildDone(h), MarkReady(h), Finish(h), Teardown(h, true), Release(h)], h)
  {
    var provisioned := Do(s, BuildDone(h));
    var serving := Do(provisioned, MarkReady(h));
    LongExit(provisioned, Raise(h), h);
    LongExit(provisioned, CancelAfter(h), h);
    LongExit(serving, Raise(h), h);
    LongExit(serving, Finish(h), h);
    StepIn(s, BuildDone(h), [Raise(h), Teardown(h, true), Release(h)], h);
    StepIn(s, BuildDone(h), [CancelAfter(h), Teardown(h, true), Release(h)], h);
    StepIn(provisioned, MarkReady(h), [Raise(h), Teardown(h, true), Release(h)], h);
    StepIn(provisioned, MarkReady(h), [Finish(h), Teardown(h, true), Release(h)], h);
    StepIn(s, BuildDone(h), [MarkReady(h), Raise(h), Teardown(h, true), Release(h)], h);
    StepIn(s, BuildDone(h), [MarkReady(h), Finish(h), Teardown(h, true), Release(h)], h);
  }

  lemma StepIn(s: State, e: Event, rest: seq<Event>, h: Sid)
    requires Can(s, e) && Exits(Do(s, e), rest, h)
    ensures Exits(s, [e] + rest, h)
  {
    assert ([e] + rest)[1..] == rest;
  }

  lemma ReleaseExits(s: State, h: Sid)
    requires Can(s, Release(h))
    ensures Exits(s, [Release(h)], h)
  {
    assert [Release(h)][1..] == [];
    assert Do(s, Release(h)).releases[|s.releases|] == h;
  }

  lemma ShortExit(s: State, e: Event, h: Sid)
    requires Can(s, e) && At(Do(s, e), h, Closing(false))
    ensures Exits(s, [e, Release(h)], h)
  {
    ReleaseExits(Do(s, e), h);
    StepIn(s, e, [Release(h)], h);
    assert [e] + [Release(h)] == [e, Release(h)];
  }

  lemma LongExit(s: State, e: Event, h: Sid)
    requires Can(s, e) && At(Do(s, e), h, Closing(true))
    ensures Exits(s, [e, Teardown(h, true), Release(h)], h)
  {
    var r := Do(s, e);
    ReleaseExits(Do(r, Teardown(h, true)), h);
    StepIn(r, Teardown(h, true), [Release(h)], h);
    StepIn(s, e, [Teardown(h, true), Release(h)], h);
    assert [Teardown(h, true)] + [Release(h)] == [Teardown(h, true), Release(h)];
    assert [e] + [Teardown(h, true), Release(h)] == [e, Teardown(h, true), Release(h)];
  }

  // ---- Slots ----

  /** Every teardown of the run returned. */
  predicate TeardownsReturn(es: seq<Event>) {
    forall i :: 0 <= i < |es| && es[i].Teardown? ==> es[i].ok
  }

  lemma {:induction false} NoneStuck(s: State, es: seq<Event>, t: State)
    requires Run(s, es, t) && TeardownsReturn(es)
    requires forall h :: h in s.handlers ==> !s.handlers[h].Stuck?
    ensures forall h :: h in t.handlers ==> !t.handlers[h].Stuck?
    decreases |es|
  {
    if es != [] {
      assert es[0].Teardown? ==> es[0].ok;
      NoneStuck(Do(s, es[0]), es[1..], t);
    }
  }

  /** If every teardown returns, the pool's entries are exactly the handlers between acquire and the end
      of finally, and every handler is released exactly once, on every exit path. */
  lemma {:induction false} SlotsAreHandlers(maxSandboxes: int, es: seq<Event>, t: State)
    requires Run(Initial(maxSandboxes), es, t) && TeardownsReturn(es)
    ensures t.active == set h | h in t.handlers && Holding(t.handlers[h])
    ensures forall h :: h in t.handlers ==> multiset(t.releases)[h] == if t.handlers[h].Done? then 1 else 0
    ensures |t.active| <= if maxSandboxes < 0 then 0 else maxSandboxes
  {
    RunKeeps(Initial(maxSandboxes), es, t);
    NoneStuck(Initial(maxSandboxes), es, t);
  }

  /** A handler is stuck exactly when it was stuck before or its teardown raised. */
  lemma {:induction false} StuckIff(s: State, es: seq<Event>, t: State, h: Sid)
    requires Run(s, es, t)
    ensures At(t, h, Stuck) <==> At(s, h, Stuck) || Teardown(h, false) in es
    decreases |es|
  {
    if es != [] {
      StuckIff(Do(s, es[0]), es[1..], t, h);
    }
  }

  /** A slot is lost for good exactly by a teardown that raises: in every run the entries of the pool are the
      handlers between acquire and the end of finally, and those whose teardown raised. */
  lemma {:induction false} SlotLostIff(maxSandboxes: int, es: seq<Event>, t: State, h: Sid)
    requires Run(Initial(maxSandboxes), es, t)
    ensures h in t.active <==> (h in t.handlers && Holding(t.handlers[h])) || Teardown(h, false) in es
    ensures Teardown(h, false) in es ==> h !in t.releases
  {
    RunKeeps(Initial(maxSandboxes), es, t);
    StuckIff(Initial(maxSandboxes), es, t, h);
    if At(t, h, Stuck) { assert multiset(t.releases)[h] == 0; }
  }

  // ---- Dropped requests ----

  function Pending(s: State): (p: set<Sid>) {
    set h | h in s.handlers && s.handlers[h].Admitted?
  }

  /** The state of the run before its event number k. */
  function StateAt(s: State, es: seq<Event>, t: State, k: nat): State
    requires Run(s, es, t) && k <= |es|
    decreases |es|
  {
    if k == 0 then s else StateAt(Do(s, es[0]), es[1..], t, k - 1)
  }

  lemma {:induction false} NextState(s: State, es: seq<Event>, t: State, k: nat)
    requires Run(s, es, t) && k < |es|
    ensures Can(StateAt(s, es, t, k), es[k]) && StateAt(s, es, t, k + 1) == Do(StateAt(s, es, t, k), es[k])
    decreases |es|
  {
    if k > 0 { NextState(Do(s, es[0]), es[1..], t, k - 1); }
  }

  lemma {:induction false} LastState(s: State, es: seq<Event>, t: State)
    requires Run(s, es, t)
    ensures StateAt(s, es, t, |es|) == t
    decreases |es|
  {
    if es != [] { LastState(Do(s, es[0]), es[1..], t); }
  }

  lemma {:induction false} StateKeeps(s: State, es: seq<Event>, t: State, k: nat)
    requires Inv(s) && Run(s, es, t) && k <= |es|
    ensures Inv(StateAt(s, es, t, k))
    decreases |es|
  {
    if k > 0 {
      StepKeeps(s, es[0]);
      StateKeeps(Do(s, es[0]), es[1..], t, k - 1);
    }
  }

  predicate AdmittedAt(s: State, h: Sid) {
    h in s.handlers && s.handlers[h].Admitted?
  }

  predicate DroppedAt(s: State, h: Sid) {
    h in s.handlers && s.handlers[h].Dropped?
  }

  lemma {:induction false} FindAdmission(s: State, es: seq<Event>, t: State, n: nat, h: Sid) returns (i: nat)
    requires Run(s, es, t) && n <= |es| && h !in s.handlers && AdmittedAt(StateAt(s, es, t, n), h)
    ensures i < n && es[i] == Admit(h)
    decreases n
  {
    i := n - 1;
    NextState(s, es, t, i);
    if AdmittedAt(StateAt(s, es, t, i), h) { i := FindAdmission(s, es, t, i, h); }
  }

  /** The event grants a slot to another handler than h. */
  predicate Overtakes(s: State, e: Event, h: Sid) {
    e.Acquire? && e.h != h && HasCapacity(s)
  }

  lemma {:induction false} FindOvertaking(s: State, es: seq<Event>, t: State, n: nat, h: Sid) returns (i: nat, j: nat)
    requires Run(s, es, t) && n <= |es| && h !in s.handlers
    requires AdmittedAt(StateAt(s, es, t, n), h) && StateAt(s, es, t, n).handlers[h].overtaken > 0
    ensures i < j < n && es[i] == Admit(h) && Overtakes(StateAt(s, es, t, j), es[j], h)
    decreases n
  {
    j := n - 1;
    NextState(s, es, t, j);
    var before := StateAt(s, es, t, j);
    if before.handlers[h].overtaken > 0 {
      i, j := FindOvertaking(s, es, t, j, h);
    } else {
      i := FindAdmission(s, es, t, j, h);
    }
  }

  lemma {:induction false} FindDrop(s: State, es: seq<Event>, t: State, n: nat, h: Sid) returns (k: nat)
    requires Run(s, es, t) && n <= |es| && h !in s.handlers && DroppedAt(StateAt(s, es, t, n), h)
    ensures k < n && es[k] == Acquire(h) && AdmittedAt(StateAt(s, es, t, k), h) && !HasCapacity(StateAt(s, es, t, k))
    decreases n
  {
    k := n - 1;
    NextState(s, es, t, k);
    if DroppedAt(StateAt(s, es, t, k), h) { k := FindDrop(s, es, t, k, h); }
  }

  /** A dropped request was overtaken: between the event that admitted it and its own refused acquire, the run
      grants a slot to another handler. */
  lemma DroppedWasOvertaken(maxSandboxes: int, es: seq<Event>, t: State, h: Sid)
    returns (i: nat, j: nat, k: nat)
    requires Run(Initial(maxSandboxes), es, t) && DroppedAt(t, h)
    ensures i < j < k < |es| && es[i] == Admit(h) && es[k] == Acquire(h)
    ensures !HasCapacity(StateAt(Initial(maxSandboxes), es, t, k))
    ensures Overtakes(StateAt(Initial(maxSandboxes), es, t, j), es[j], h)
  {
    var s := Initial(maxSandboxes);
    LastState(s, es, t);
    k := FindDrop(s, es, t, |es|, h);
    StateKeeps(s, es, t, k);
    i, j := FindOvertaking(s, es, t, k, h);
  }

  /** No admitted request can be refused as long as all admitted handlers together still fit. */
  predicate Fits(s: State) {
    |s.active| + |Pending(s)| <= s.maxSandboxes
  }

  lemma PendingAfter(s: State, e: Event)
    requires Inv(s) && Can(s, e)
    ensures Pending(Do(s, e))
         == if e.Admit? then Pending(s) + {e.h}
            else if e.Acquire? || e.Abandon? then Pending(s) - {e.h} else Pending(s)
  {}

  /** Steps other than an admission keep the admitted handlers fitting, and refuse none of them. */
  lemma FitsStep(s: State, e: Event)
    requires Inv(s) && Fits(s) && Can(s, e)
    requires e.Admit? ==> |s.active| + |Pending(s)| < s.maxSandboxes
    ensures Fits(Do(s, e))
    ensures e.Acquire? ==> Do(s, e).handlers[e.h] == Started
  {
    PendingAfter(s, e);
    if e.Admit? {
      assert |Pending(s) + {e.h}| == |Pending(s)| + 1;
    } else if e.Acquire? {
      assert e.h in Pending(s);
      assert |Pending(s) - {e.h}| == |Pending(s)| - 1;
      assert |s.active + {e.h}| == |s.active| + 1;
    } else if e.Abandon? {
      assert |Pending(s) - {e.h}| <= |Pending(s)|;
    } else if e.Release? {
      assert |s.active - {e.h}| <= |s.active|;
    }
  }

  /** In the run es from s, every admission happens while the admitted handlers and one more fit. */
  predicate RoomyAdmissions(s: State, es: seq<Event>)
    decreases |es|
  {
    es != [] && Can(s, es[0]) ==>
      (es[0].Admit? ==> |s.active| + |Pending(s)| < s.maxSandboxes) && RoomyAdmissions(Do(s, es[0]), es[1..])
  }

  predicate NoneDropped(s: State) {
    forall h :: h in s.handlers ==> !s.handlers[h].Dropped?
  }

  lemma NoneDroppedStep(s: State, e: Event)
    requires NoneDropped(s) && Can(s, e) && (e.Acquire? ==> HasCapacity(s))
    ensures NoneDropped(Do(s, e))
  {}

  lemma FitsHasRoom(s: State, h: Sid)
    requires Inv(s) && Fits(s) && h in s.handlers && s.handlers[h].Admitted?
    ensures HasCapacity(s)
  {
    assert Pending(s) >= {h};
    assert |Pending(s) - {h}| == |Pending(s)| - 1;
  }

  /** If no message is admitted beyond what the pool can still hold, no request is ever dropped. */
  lemma {:induction false} RoomyRunsDropNone(s: State, es: seq<Event>, t: State)
    requires Inv(s) && Fits(s) && NoneDropped(s) && Run(s, es, t) && RoomyAdmissions(s, es)
    ensures NoneDropped(t) && Fits(t)
    decreases |es|
  {
    if es != [] {
      var e := es[0];
      StepKeeps(s, e);
      FitsStep(s, e);
      if e.Acquire? { FitsHasRoom(s, e.h); }
      NoneDroppedStep(s, e);
      RoomyRunsDropNone(Do(s, es[0]), es[1..], t);
    }
  }

  /** In the run es from s, a message is admitted only when no admitted handler is still on its way to
      acquire. */
  predicate OneAtATime(s: State, es: seq<Event>)
    decreases |es|
  {
    es != [] && Can(s, es[0]) ==> (es[0].Admit? ==> Pending(s) == {}) && OneAtATime(Do(s, es[0]), es[1..])
  }

  lemma {:induction false} OneAtATimeIsRoomy(s: State, es: seq<Event>, t: State)
    requires Run(s, es, t) && OneAtATime(s, es)
    ensures RoomyAdmissions(s, es)
    decreases |es|
  {
    if es != [] { OneAtATimeIsRoomy(Do(s, es[0]), es[1..], t); }
  }

  /** With at most one pending admission at any time no acknowledged request is dropped. */
  lemma {:induction false} OnePendingDropsNone(maxSandboxes: nat, es: seq<Event>, t: State)
    requires Run(Initial(maxSandboxes), es, t) && OneAtATime(Initial(maxSandboxes), es)
    ensures NoneDropped(t)
  {
    OneAtATimeIsRoomy(Initial(maxSandboxes), es, t);
    RoomyRunsDropNone(Initial(maxSandboxes), es, t);
  }

  // ---- How many are dropped ----

  function DroppedSet(s: State): set<Sid> {
    set h | h in s.handlers && s.handlers[h].Dropped?
  }

  /** The handlers of order are all pending, and distinct. */
  predicate Arriving(s: State, order: seq<Sid>) {
    && (forall i :: 0 <= i < |order| ==> order[i] in s.handlers && s.handlers[order[i]].Admitted?)
    && NoRepeats(order)
  }

  /** All pending handlers reach acquire, in the order given, before any release. */
  function AcquireAll(s: State, order: seq<Sid>): State
    requires Arriving(s, order)
    decreases |order|
  {
    if order == [] then s
    else
      AcquireAll(Do(s, Acquire(order[0])), order[1..])
  }

  lemma GrantDropsNone(s: State, h: Sid)
    requires AdmittedAt(s, h) && HasCapacity(s)
    ensures DroppedSet(Do(s, Acquire(h))) == DroppedSet(s)
  {
    var t := Do(s, Acquire(h));
    forall k ensures k in DroppedSet(t) <==> k in DroppedSet(s) {
      assert k in t.handlers <==> k in s.handlers;
    }
  }

  lemma RefusalDropsOne(s: State, h: Sid)
    requires AdmittedAt(s, h) && !HasCapacity(s)
    ensures |DroppedSet(Do(s, Acquire(h)))| == |DroppedSet(s)| + 1
  {
    assert h !in DroppedSet(s);
    assert DroppedSet(Do(s, Acquire(h))) == DroppedSet(s) + {h};
  }

  lemma OneAcquire(s: State, h: Sid)
    requires ActiveIsHolding(s) && AdmittedAt(s, h)
    ensures var t := Do(s, Acquire(h));
      if HasCapacity(s) then |t.active| == |s.active| + 1 && |DroppedSet(t)| == |DroppedSet(s)|
      else t.active == s.active && |DroppedSet(t)| == |DroppedSet(s)| + 1
  {
    if HasCapacity(s) {
      assert |s.active + {h}| == |s.active| + 1;
      GrantDropsNone(s, h);
    } else {
      RefusalDropsOne(s, h);
    }
  }

  lemma {:induction false} AcquireAllDrops(s: State, order: seq<Sid>)
    requires Inv(s) && 0 <= s.maxSandboxes && Arriving(s, order)
    ensures |DroppedSet(AcquireAll(s, order))| == |DroppedSet(s)| + Max(0, |s.active| + |order| - s.maxSandboxes)
    decreases |order|
  {
    if order != [] {
      var h := order[0];
      AcquireKeeps(s, h);
      OneAcquire(s, h);
      AcquireAllDrops(Do(s, Acquire(h)), order[1..]);
    }
  }

  /** The exact condition: with no release in between, the pending handlers lose exactly the requests
      by which active and pending together exceed the pool; so one of them is dropped exactly when they
      do exceed it. */
  lemma {:induction false} DropIff(s: State, order: seq<Sid>)
    requires Inv(s) && NoneDropped(s) && 0 <= s.maxSandboxes
    requires Arriving(s, order)
    requires Pending(s) == Elements(order)
    ensures |DroppedSet(AcquireAll(s, order))| == Max(0, |s.active| + |Pending(s)| - s.maxSandboxes)
    ensures NoneDropped(AcquireAll(s, order)) <==> Fits(s)
  {
    NoRepeatsIff(order);
    assert DroppedSet(s) == {};
    AcquireAllDrops(s, order);
    var t := AcquireAll(s, order);
    if NoneDropped(t) {
      assert DroppedSet(t) == {};
    } else {
      var h :| h in t.handlers && t.handlers[h].Dropped?;
      assert h in DroppedSet(t);
    }
  }

  lemma {:induction false} AcquireAllRuns(s: State, order: seq<Sid>) returns (es: seq<Event>)
    requires Arriving(s, order)
    ensures Run(s, es, AcquireAll(s, order)) && RoomyAdmissions(s, es)
    decreases |order|
  {
    if order == [] {
      es := [];
    } else {
      var e := Acquire(order[0]);
      var rest := AcquireAllRuns(Do(s, e), order[1..]);
      es := [e] + rest;
      assert es[1..] == rest;
    }
  }

  /** No request is dropped however the run goes on, as long as each further admission finds room. */
  ghost predicate StaysUndropped(s: State) {
    forall es, t :: Run(s, es, t) && RoomyAdmissions(s, es) ==> NoneDropped(t)
  }

  /** After admissions that found room, one more is safe exactly when it finds room too: when active and
      admitted handlers together leave a slot. */
  lemma {:induction false} AdmitIff(maxSandboxes: nat, es: seq<Event>, s: State, h: Sid)
    requires Run(Initial(maxSandboxes), es, s) && RoomyAdmissions(Initial(maxSandboxes), es) && Can(s, Admit(h))
    ensures StaysUndropped(Do(s, Admit(h))) <==> |s.active| + |Pending(s)| < maxSandboxes
  {
    RunKeeps(Initial(maxSandboxes), es, s);
    RoomyRunsDropNone(Initial(maxSandboxes), es, s);
    var u := Do(s, Admit(h));
    StepKeeps(s, Admit(h));
    NoneDroppedStep(s, Admit(h));
    if |s.active| + |Pending(s)| < maxSandboxes {
      FitsStep(s, Admit(h));
      forall fs, t | Run(u, fs, t) && RoomyAdmissions(u, fs) ensures NoneDropped(t) { RoomyRunsDropNone(u, fs, t); }
    } else {
      PendingAfter(s, Admit(h));
      assert |Pending(u)| == |Pending(s)| + 1;
      var order := Listing(Pending(u));
      PendingArrive(u, order);
      DropIff(u, order);
      var fs := AcquireAllRuns(u, order);
    }
  }

  lemma PendingArrive(s: State, order: seq<Sid>)
    requires NoRepeats(order) && Elements(order) == Pending(s)
    ensures Arriving(s, order)
  {
    forall i | 0 <= i < |order| ensures order[i] in s.handlers && s.handlers[order[i]].Admitted? {
      assert order[i] in Elements(order);
    }
  }

  /** The drop does happen: with one slot, a second message admitted while the first handler is still
      on its way to acquire is acknowledged and lost. */
  lemma SecondAdmissionLost(a: Sid, b: Sid)
    requires a != b
    ensures
      var s := Do(Do(Initial(1), Admit(a)), Admit(b));
      var t := Do(Do(s, Acquire(a)), Acquire(b));
      Run(Initial(1), [Admit(a), Admit(b), Acquire(a), Acquire(b)], t) && t.handlers[b] == Dropped(1)
  {
    var s := Do(Do(Initial(1), Admit(a)), Admit(b));
    var u := Do(s, Acquire(a));
    var t := Do(u, Acquire(b));
    assert Run(t, [], t);
    assert [Acquire(b)][1..] == [];
    assert Run(u, [Acquire(b)], t);
    assert [Acquire(a), Acquire(b)][1..] == [Acquire(b)];
    assert Run(s, [Acquire(a), Acquire(b)], t);
    assert [Admit(b), Acquire(a), Acquire(b)][1..] == [Acquire(a), Acquire(b)];
    assert [Admit(a), Admit(b), Acquire(a), Acquire(b)][1..] == [Admit(b), Acquire(a), Acquire(b)];
  }
}
