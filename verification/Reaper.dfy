/** The garbage collector's passes among handlers, provisioning threads, teardowns and the startup sweep,
    in every interleaving: each removal of a pass is a step of its own. */
module Reaper {
  import opened Wrappers
  import opened Docker

  datatype Status = Provisioning | Ready | Failed | Closed
  datatype Row = Row(status: Status, containerIds: set<string>, network: string, volume: Option<string>)

  datatype Phase = Idle | Begun | Containers(todo: set<string>) | Networks(todo: set<string>) | Finished

  /** A pass of the collector: the snapshot of active rows it took, the sandboxes it found orphaned, the
      rows inserted since it began, and whether some listing or removal of it failed. */
  datatype Gc = Gc(phase: Phase, snapshot: set<Sid>, orphans: set<Sid>, marked: set<Sid>, missed: bool)

  /** used: every container id and network ever created. toSweep: what a restart still has to sweep. */
  datatype State = State(
    rows: map<Sid, Row>, building: set<Sid>, docker: Resources, used: set<string>, toSweep: set<Sid>, gc: Gc)

  const NO_PASS := Gc(Idle, {}, {}, {}, false)

  function Initial(): State {
    State(map[], {}, Resources(map[], map[], {}, {}, {}), {}, {}, NO_PASS)
  }

  datatype Event =
    | Mark(h: Sid)
    | CreateContainer(h: Sid, name: string) | CreateNetwork(h: Sid, name: string) | CreateVolume(h: Sid)
    | BuildDone(h: Sid) | BuildFailed(h: Sid, record: Row, faults: Faults)
    | Store(h: Sid, record: Row) | Fail(h: Sid) | Teardown(h: Sid, faults: Faults)
    | Restart | Sweep(h: Sid, faults: Faults) | SweepGivesUp
    | GcStart | GcList(ok: bool) | GcRemove(name: string, ok: bool)
    | GcListNetworks(ok: bool) | GcRemoveNetwork(name: string, ok: bool) | GcEnd(stuck: set<string>)

  predicate Active(r: Row) {
    r.status.Provisioning? || r.status.Ready?
  }

  function ActiveIds(rows: map<Sid, Row>): set<Sid> {
    set h | h in rows && Active(rows[h])
  }

  predicate Can(s: State, e: Event) {
    && (e.Sweep? || e.SweepGivesUp? || e.Restart? || s.toSweep == {})
    && match e
       case Mark(h) => h !in s.rows
       case CreateContainer(h, name) => h in s.building && name !in s.used
       case CreateNetwork(h, name) => h in s.building && name !in s.used
       case CreateVolume(h) => h in s.building
       case BuildDone(h) => h in s.building
       case BuildFailed(h, _, _) => h in s.building && h in s.rows
       case Store(h, _) => h in s.rows && h !in s.building && s.rows[h].status.Provisioning?
       case Fail(h) => h in s.rows && h !in s.building && Active(s.rows[h])
       case Teardown(h, _) => h in s.rows && h !in s.building
       case Restart => true
       case Sweep(h, _) => h in s.toSweep && h in s.rows
       case SweepGivesUp => true
       case GcStart => s.gc.phase.Idle? || s.gc.phase.Finished?
       case GcList(_) => s.gc.phase.Begun?
       case GcRemove(name, _) => s.gc.phase.Containers? && name in s.gc.phase.todo
       case GcListNetworks(_) => s.gc.phase == Containers({})
       case GcRemoveNetwork(name, _) => s.gc.phase.Networks? && name in s.gc.phase.todo
       case GcEnd(_) => s.gc.phase == Networks({})
  }

  function TearRow(r: Resources, h: Sid, row: Row, f: Faults): Resources {
    TornDown(r, h, row.containerIds, row.network, row.volume, f)
  }

  /** The network a sandbox's record names, or else the one its prefix gives. */
  function SweptNetwork(h: Sid, row: Row): string {
    if row.network == "" then "rvp-sbx-" + Short(h) else row.network
  }

  function OrphanKeys(m: map<string, Label>, active: set<Sid>): set<string> {
    set k | k in m && Orphaned(m[k], active)
  }

  function SetStatus(s: State, h: Sid, status: Status): map<Sid, Row>
    requires h in s.rows
  {
    s.rows[h := s.rows[h].(status := status)]
  }

  function Do(s: State, e: Event): State
    requires Can(s, e)
  {
    match e
    case Mark(h) =>
      s.(rows := s.rows[h := Row(Provisioning, {}, "", None)], building := s.building + {h},
         gc := s.gc.(marked := s.gc.marked + {h}))
    case CreateContainer(h, name) =>
      s.(docker := s.docker.(containers := s.docker.containers[name := Some(h)]), used := s.used + {name})
    case CreateNetwork(h, name) =>
      s.(docker := s.docker.(networks := s.docker.networks[name := Some(h)]), used := s.used + {name})
    case CreateVolume(h) => s.(docker := s.docker.(volumes := s.docker.volumes + {SnapshotVolume(h)}))
    case BuildDone(h) => s.(building := s.building - {h})
    case BuildFailed(h, record, f) =>
      s.(docker := TearRow(s.docker, h, record, f), rows := SetStatus(s, h, Failed), building := s.building - {h})
    case Store(h, record) => s.(rows := s.rows[h := record.(status := Ready)])
    case Fail(h) => s.(rows := SetStatus(s, h, Failed))
    case Teardown(h, f) =>
      s.(docker := if s.rows[h].containerIds == {} then s.docker else TearRow(s.docker, h, s.rows[h], f),
         rows := SetStatus(s, h, Closed))
    case Restart => s.(building := {}, toSweep := ActiveIds(s.rows), gc := NO_PASS)
    case Sweep(h, f) =>
      s.(docker := TearRow(s.docker, h, s.rows[h].(network := SweptNetwork(h, s.rows[h])), f),
         rows := SetStatus(s, h, Closed), toSweep := s.toSweep - {h})
    case SweepGivesUp => s.(toSweep := {})
    case GcStart => s.(gc := Gc(Begun, ActiveIds(s.rows), {}, {}, false))
    case GcList(ok) =>
      if ok then
        s.(gc := s.gc.(phase := Containers(OrphanKeys(s.docker.containers, s.gc.snapshot)),
                       orphans := Orphans(s.docker, s.gc.snapshot, NO_FAULTS)))
      else s.(gc := s.gc.(phase := Containers({}), missed := true))
    case GcRemove(name, ok) =>
      s.(docker := if ok then s.docker.(containers := s.docker.containers - {name}) else s.docker,
         gc := s.gc.(phase := Containers(s.gc.phase.todo - {name}), missed := s.gc.missed || !ok))
    case GcListNetworks(ok) =>
      if ok then s.(gc := s.gc.(phase := Networks(OrphanKeys(s.docker.networks, s.gc.snapshot))))
      else s.(gc := s.gc.(phase := Networks({}), missed := true))
    case GcRemoveNetwork(name, ok) =>
      s.(docker := if ok then s.docker.(networks := s.docker.networks - {name}) else s.docker,
         gc := s.gc.(phase := Networks(s.gc.phase.todo - {name}), missed := s.gc.missed || !ok))
    case GcEnd(stuck) =>
      s.(docker := s.docker.(volumes := s.docker.volumes - (Volumes(s.gc.orphans) - stuck),
                             buildDirs := s.docker.buildDirs - (BuildDirs(s.gc.orphans) - stuck)),
         gc := s.gc.(phase := Finished))
  }

  function After(s: State, es: seq<Event>): Option<State>
    decreases |es|
  {
    if es == [] then Some(s)
    else if Can(s, es[0]) then After(Do(s, es[0]), es[1..])
    else None
  }

  predicate Run(s: State, es: seq<Event>, t: State) {
    After(s, es) == Some(t)
  }

  // ---- The invariant ----

  /** Whatever is orphaned, even counting the rows inserted since the pass began, is still to be removed. */
  predicate Covered(m: map<string, Label>, g: Gc, todo: set<string>) {
    forall k :: k in m && Orphaned(m[k], g.snapshot + g.marked) ==> k in todo || g.missed
  }

  /** Only what is outside the snapshot is to be removed. */
  predicate Targets(m: map<string, Label>, g: Gc, todo: set<string>) {
    forall k :: k in m && k in todo ==> Orphaned(m[k], g.snapshot)
  }

  predicate BuildersActive(s: State) {
    && (s.toSweep != {} ==> s.building == {})
    && forall h :: h in s.building ==> h in s.rows && s.rows[h].status.Provisioning?
  }

  predicate ActiveKnown(s: State) {
    s.gc.phase.Idle? || ActiveIds(s.rows) <= s.gc.snapshot + s.gc.marked
  }

  predicate AllUsed(s: State) {
    && s.docker.containers.Keys <= s.used
    && s.docker.networks.Keys <= s.used
    && (s.gc.phase.Containers? || s.gc.phase.Networks? ==> s.gc.phase.todo <= s.used)
  }

  predicate ContainersSound(c: map<string, Label>, g: Gc) {
    match g.phase
    case Containers(todo) => Covered(c, g, todo) && Targets(c, g, todo)
    case Networks(_) => Covered(c, g, {})
    case Finished => Covered(c, g, {})
    case _ => true
  }

  predicate NetworksSound(n: map<string, Label>, g: Gc) {
    match g.phase
    case Networks(todo) => Covered(n, g, todo) && Targets(n, g, todo)
    case Finished => Covered(n, g, {})
    case _ => true
  }

  /** The snapshot was taken of rows that were there, and the rows inserted since are others. */
  predicate MarkedAreLater(s: State) {
    && s.gc.snapshot <= s.rows.Keys && s.gc.marked <= s.rows.Keys
    && forall h :: h in s.gc.marked ==> h !in s.gc.snapshot
  }

  predicate Inv(s: State) {
    && BuildersActive(s)
    && MarkedAreLater(s)
    && ActiveKnown(s)
    && AllUsed(s)
    && ContainersSound(s.docker.containers, s.gc)
    && NetworksSound(s.docker.networks, s.gc)
  }

  predicate IsGc(e: Event) {
    e.GcStart? || e.GcList? || e.GcRemove? || e.GcListNetworks? || e.GcRemoveNetwork? || e.GcEnd?
  }

  predicate Creates(e: Event) {
    e.CreateContainer? || e.CreateNetwork?
  }

  lemma CreateStep(s: State, e: Event)
    requires Inv(s) && Can(s, e) && Creates(e)
    ensures Inv(Do(s, e))
  {
    if !s.gc.phase.Idle? {
      assert e.h in ActiveIds(s.rows);
    }
  }

  lemma GcStep(s: State, e: Event)
    requires Inv(s) && Can(s, e) && IsGc(e)
    ensures Inv(Do(s, e))
  {}

  lemma StepKeeps(s: State, e: Event)
    requires Inv(s) && Can(s, e)
    ensures Inv(Do(s, e))
  {
    if IsGc(e) { GcStep(s, e); }
    else if Creates(e) { CreateStep(s, e); }
  }

  lemma {:induction false} RunKeeps(s: State, es: seq<Event>, t: State)
    requires Inv(s) && Run(s, es, t)
    ensures Inv(t)
    decreases |es|
  {
    if es != [] {
      StepKeeps(s, es[0]);
      RunKeeps(Do(s, es[0]), es[1..], t);
    }
  }

  // ---- What a pass does ----

  /** Every container or network a pass removes belongs to a sandbox outside its snapshot; if that
      sandbox's row is active all the same, it was inserted after the snapshot was taken. */
  lemma {:induction false} RemovesOnlyOrphans(es: seq<Event>, s: State, e: Event)
    requires Run(Initial(), es, s) && Can(s, e)
    requires (e.GcRemove? && e.name in s.docker.containers) || (e.GcRemoveNetwork? && e.name in s.docker.networks)
    ensures var owner := if e.GcRemove? then s.docker.containers[e.name] else s.docker.networks[e.name];
      && owner.Some? && owner.value !in s.gc.snapshot
      && (owner.value in s.rows && Active(s.rows[owner.value]) ==> owner.value in s.gc.marked)
  {
    RunKeeps(Initial(), es, s);
    var owner := if e.GcRemove? then s.docker.containers[e.name] else s.docker.networks[e.name];
    if owner.value in s.rows && Active(s.rows[owner.value]) {
      assert owner.value in ActiveIds(s.rows);
    }
  }

  predicate OnlyOf(m: map<string, Label>, sids: set<Sid>) {
    forall k :: k in m ==> !Orphaned(m[k], sids)
  }

  /** Whatever ran before and during it, a pass whose listings and removals succeed leaves only containers
      and networks of sandboxes in its snapshot or inserted since it began. */
  lemma {:induction false} PassLeavesOnlyActive(es: seq<Event>, t: State)
    requires Run(Initial(), es, t) && t.gc.phase.Finished? && !t.gc.missed
    ensures OnlyOf(t.docker.containers, t.gc.snapshot + t.gc.marked)
    ensures OnlyOf(t.docker.networks, t.gc.snapshot + t.gc.marked)
  {
    RunKeeps(Initial(), es, t);
  }

  predicate OnePass(es: seq<Event>) {
    forall i :: 0 <= i < |es| ==> !es[i].GcStart? && !es[i].Restart?
  }

  lemma {:induction false} StaysOrphan(s: State, es: seq<Event>, t: State, h: Sid)
    requires Run(s, es, t) && OnePass(es)
    requires h in s.rows && h !in s.gc.snapshot && h !in s.gc.marked
    ensures h !in t.gc.snapshot && h !in t.gc.marked
    decreases |es|
  {
    if es != [] {
      var e := es[0];
      assert !e.GcStart? && !e.Restart?;
      StaysOrphan(Do(s, e), es[1..], t, h);
    }
  }

  predicate NothingOf(r: Resources, h: Sid) {
    && (forall c :: c in r.containers ==> r.containers[c] != Some(h))
    && (forall n :: n in r.networks ==> r.networks[n] != Some(h))
  }

  /** A sandbox whose row is closed or failed when a pass begins has no container and no network left when
      the pass ends, whatever its own teardown did. */
  lemma {:induction false} NothingLeaksPastAPass(before: seq<Event>, s: State, during: seq<Event>, t: State, h: Sid)
    requires Run(Initial(), before, s) && Can(s, GcStart)
    requires h in s.rows && !Active(s.rows[h]) && h != ""
    requires Run(Do(s, GcStart), during, t) && OnePass(during) && t.gc.phase.Finished? && !t.gc.missed
    ensures NothingOf(t.docker, h)
  {
    var u := Do(s, GcStart);
    RunKeeps(Initial(), before, s);
    StepKeeps(s, GcStart);
    RunKeeps(u, during, t);
    StaysOrphan(u, during, t, h);
  }

  lemma {:induction false} InactiveStays(s: State, es: seq<Event>, t: State, h: Sid)
    requires Run(s, es, t) && h in s.rows && !Active(s.rows[h])
    ensures h in t.rows && !Active(t.rows[h])
    decreases |es|
  {
    if es != [] {
      InactiveStays(Do(s, es[0]), es[1..], t, h);
    }
  }

  lemma {:induction false} RunsCompose(r: State, es: seq<Event>, s: State, fs: seq<Event>, t: State)
    requires Run(r, es, s) && Run(s, fs, t)
    ensures Run(r, es + fs, t)
    decreases |es|
  {
    if es == [] {
      assert es + fs == fs;
    } else {
      assert (es + fs)[1..] == es[1..] + fs;
      RunsCompose(Do(r, es[0]), es[1..], s, fs, t);
    }
  }

  /** The cancel after provisioning: no container ids were stored, so the handler's teardown leaves Docker as
      it is; yet after any further run, the next pass whose listings and removals succeed leaves nothing of
      the sandbox. */
  lemma {:induction false} CancelledIsCleaned(before: seq<Event>, s: State, h: Sid, f: Faults,
                                             between: seq<Event>, v: State, during: seq<Event>, t: State)
    requires Run(Initial(), before, s) && Can(s, Teardown(h, f)) && s.rows[h].containerIds == {} && h != ""
    requires Run(Do(s, Teardown(h, f)), between, v) && Can(v, GcStart)
    requires Run(Do(v, GcStart), during, t) && OnePass(during) && t.gc.phase.Finished? && !t.gc.missed
    ensures Do(s, Teardown(h, f)).docker == s.docker && NothingOf(t.docker, h)
  {
    var u := Do(s, Teardown(h, f));
    RunsCompose(Initial(), before, s, [Teardown(h, f)], u);
    RunsCompose(Initial(), before + [Teardown(h, f)], u, between, v);
    InactiveStays(u, between, v, h);
    NothingLeaksPastAPass(before + [Teardown(h, f)] + between, v, during, t, h);
  }

  /** When a pass lists the containers, those of an active sandbox that it will remove are exactly those of
      a sandbox whose row was inserted after the pass read the table; all of that sandbox's. */
  lemma {:induction false} ActiveIsHitIff(es: seq<Event>, s: State, c: string, h: Sid)
    requires Run(Initial(), es, s) && Can(s, GcList(true))
    requires c in s.docker.containers && s.docker.containers[c] == Some(h)
    requires h != "" && h in s.rows && Active(s.rows[h])
    ensures c in Do(s, GcList(true)).gc.phase.todo <==> h in s.gc.marked
  {
    RunKeeps(Initial(), es, s);
    assert h in ActiveIds(s.rows);
  }

  /** So with the networks. */
  lemma {:induction false} ActiveNetworkIsHitIff(es: seq<Event>, s: State, n: string, h: Sid)
    requires Run(Initial(), es, s) && Can(s, GcListNetworks(true))
    requires n in s.docker.networks && s.docker.networks[n] == Some(h)
    requires h != "" && h in s.rows && Active(s.rows[h])
    ensures n in Do(s, GcListNetworks(true)).gc.phase.todo <==> h in s.gc.marked
  {
    RunKeeps(Initial(), es, s);
    assert h in ActiveIds(s.rows);
  }

  /** It does happen: a sandbox marked between the snapshot and the listing loses its container while it is
      being provisioned. */
  lemma LateSandboxIsHit(h: Sid, c: string) returns (es: seq<Event>, s: State, t: State)
    requires h != ""
    ensures Run(Initial(), es, s) && Can(s, GcRemove(c, true)) && t == Do(s, GcRemove(c, true))
    ensures c in s.docker.containers && s.docker.containers[c] == Some(h) && c !in t.docker.containers
    ensures h in t.rows && Active(t.rows[h]) && h in t.building
  {
    var s1 := Do(Initial(), GcStart);
    var s2 := Do(s1, Mark(h));
    var s3 := Do(s2, CreateContainer(h, c));
    assert c in OrphanKeys(s3.docker.containers, {});
    s := Do(s3, GcList(true));
    t := Do(s, GcRemove(c, true));
    RunsCompose(Initial(), [GcStart], s1, [Mark(h)], s2);
    RunsCompose(Initial(), [GcStart] + [Mark(h)], s2, [CreateContainer(h, c)], s3);
    es := [GcStart] + [Mark(h)] + [CreateContainer(h, c)] + [GcList(true)];
    RunsCompose(Initial(), [GcStart] + [Mark(h)] + [CreateContainer(h, c)], s3, [GcList(true)], s);
  }

  // ---- An undisturbed pass ----

  /** A step of a pass that succeeds. */
  predicate Succeeds(e: Event) {
    match e
    case GcList(ok) => ok
    case GcRemove(_, ok) => ok
    case GcListNetworks(ok) => ok
    case GcRemoveNetwork(_, ok) => ok
    case GcEnd(stuck) => stuck == {}
    case _ => false
  }

  predicate AllSucceed(es: seq<Event>) {
    forall i :: 0 <= i < |es| ==> Succeeds(es[i])
  }

  /** How far a pass that began with the resources r has come. */
  predicate PartWay(s: State, r: Resources, active: set<Sid>) {
    && s.gc.snapshot == active
    && match s.gc.phase
       case Idle => false
       case Begun => s.docker == r
       case Containers(todo) =>
         && s.docker == r.(containers := r.containers - (OrphanKeys(r.containers, active) - todo))
         && s.gc.orphans == Orphans(r, active, NO_FAULTS)
       case Networks(todo) =>
         && s.docker == r.(containers := r.containers - OrphanKeys(r.containers, active),
                           networks := r.networks - (OrphanKeys(r.networks, active) - todo))
         && s.gc.orphans == Orphans(r, active, NO_FAULTS)
       case Finished => s.docker == Collected(r, active, NO_FAULTS)
  }

  lemma RemoveOne(m: map<string, Label>, all: set<string>, todo: set<string>, k: string)
    requires k in todo && k in all
    ensures (m - (all - todo)) - {k} == m - (all - (todo - {k}))
  {}

  predicate TodoIsOrphaned(s: State, r: Resources, active: set<Sid>) {
    && (s.gc.phase.Containers? ==> s.gc.phase.todo <= OrphanKeys(r.containers, active))
    && (s.gc.phase.Networks? ==> s.gc.phase.todo <= OrphanKeys(r.networks, active))
  }

  lemma RemoveStep(s: State, e: Event, r: Resources, active: set<Sid>)
    requires Can(s, e) && Succeeds(e) && PartWay(s, r, active) && TodoIsOrphaned(s, r, active)
    requires e.GcRemove? || e.GcRemoveNetwork?
    ensures PartWay(Do(s, e), r, active)
  {
    if e.GcRemove? {
      RemoveOne(r.containers, OrphanKeys(r.containers, active), s.gc.phase.todo, e.name);
    } else {
      RemoveOne(r.networks, OrphanKeys(r.networks, active), s.gc.phase.todo, e.name);
    }
  }

  lemma EndStep(s: State, r: Resources, active: set<Sid>)
    requires Can(s, GcEnd({})) && PartWay(s, r, active)
    ensures PartWay(Do(s, GcEnd({})), r, active)
  {}

  lemma {:induction false} PassProceeds(s: State, es: seq<Event>, t: State, r: Resources, active: set<Sid>)
    requires PartWay(s, r, active) && TodoIsOrphaned(s, r, active) && Run(s, es, t) && AllSucceed(es)
    ensures PartWay(t, r, active)
    decreases |es|
  {
    if es != [] {
      var e := es[0];
      if e.GcEnd? { EndStep(s, r, active); }
      else if e.GcRemove? || e.GcRemoveNetwork? { RemoveStep(s, e, r, active); }
      PassProceeds(Do(s, e), es[1..], t, r, active);
    }
  }

  /** A pass that nothing disturbs, in whatever order it removes, does what the collector's specification
      says of the active rows. */
  lemma {:induction false} UndisturbedPass(s: State, es: seq<Event>, t: State)
    requires Can(s, GcStart) && Run(Do(s, GcStart), es, t) && AllSucceed(es) && t.gc.phase.Finished?
    ensures t.docker == Collected(s.docker, ActiveIds(s.rows), NO_FAULTS)
  {
    PassProceeds(Do(s, GcStart), es, t, s.docker, ActiveIds(s.rows));
  }

  // ---- The status of a row over a run ----

  /** The event takes the sandbox out of the active ones. */
  predicate Ends(e: Event, h: Sid) {
    (e.BuildFailed? || e.Fail? || e.Teardown? || e.Sweep?) && e.h == h
  }

  lemma {:induction false} ActiveStays(s: State, es: seq<Event>, t: State, h: Sid)
    requires Run(s, es, t) && h in s.rows
    ensures h in t.rows && (Active(t.rows[h]) <==> Active(s.rows[h]) && forall e :: e in es ==> !Ends(e, h))
    decreases |es|
  {
    if es != [] {
      var u := Do(s, es[0]);
      ActiveStays(u, es[1..], t, h);
      assert Active(u.rows[h]) <==> Active(s.rows[h]) && !Ends(es[0], h);
      assert forall e :: e in es <==> e == es[0] || e in es[1..] by { assert es == [es[0]] + es[1..]; }
    }
  }

  lemma {:induction false} ActiveFrom(s: State, es: seq<Event>, t: State, h: Sid)
    requires Run(s, es, t) && h !in s.rows && h !in s.building && h !in s.toSweep
    ensures h in t.rows <==> Mark(h) in es
    ensures h in t.rows ==> (Active(t.rows[h]) <==> forall e :: e in es ==> !Ends(e, h))
    decreases |es|
  {
    if es != [] {
      assert forall e :: e in es <==> e == es[0] || e in es[1..] by { assert es == [es[0]] + es[1..]; }
      var u := Do(s, es[0]);
      assert !Ends(es[0], h);
      if es[0] == Mark(h) {
        ActiveStays(u, es[1..], t, h);
        assert Active(u.rows[h]);
      } else {
        ActiveFrom(u, es[1..], t, h);
      }
    }
  }

  /** In every run a sandbox is active exactly from its mark on, until its build fails, its handler fails it or
      tears it down, or a sweep takes it. */
  lemma {:induction false} ActiveIff(es: seq<Event>, t: State, h: Sid)
    requires Run(Initial(), es, t)
    ensures h in ActiveIds(t.rows) <==> Mark(h) in es && forall e :: e in es ==> !Ends(e, h)
  {
    ActiveFrom(Initial(), es, t, h);
  }

  // ---- Whole lives ----

  /** The sandbox is new, and so are its names. */
  predicate Fresh(s: State, h: Sid, c: string, n: string) {
    && s.toSweep == {} && h !in s.rows && h !in s.building && c != n && c !in s.used && n !in s.used
    && c !in s.docker.containers && n !in s.docker.networks && SnapshotVolume(h) !in s.docker.volumes
    && Short(h) !in s.docker.buildDirs && ComposeDir(h) !in s.docker.composeDirs
  }

  /** Docker with the sandbox's container, network and volume besides what was there. */
  function Built(r: Resources, h: Sid, c: string, n: string): Resources {
    Resources(r.containers[c := Some(h)], r.networks[n := Some(h)], r.volumes + {SnapshotVolume(h)},
              r.buildDirs, r.composeDirs)
  }

  /** Marking and building give it a row and its three resources. */
  lemma {:induction false} BuildMakes(s: State, h: Sid, c: string, n: string) returns (t: State)
    requires Fresh(s, h, c, n)
    ensures Run(s, [Mark(h), CreateContainer(h, c), CreateNetwork(h, n), CreateVolume(h)], t)
    ensures t.docker == Built(s.docker, h, c, n) && h in t.building && t.toSweep == {}
    ensures t.rows == s.rows[h := Row(Provisioning, {}, "", None)] && t.used == s.used + {c, n}
  {
    var a := Do(s, Mark(h));
    var b := Do(a, CreateContainer(h, c));
    var d := Do(b, CreateNetwork(h, n));
    t := Do(d, CreateVolume(h));
    assert [CreateVolume(h)][1..] == [];
    assert Run(d, [CreateVolume(h)], t);
    assert [CreateNetwork(h, n), CreateVolume(h)][1..] == [CreateVolume(h)];
    assert Run(b, [CreateNetwork(h, n), CreateVolume(h)], t);
    assert [CreateContainer(h, c), CreateNetwork(h, n), CreateVolume(h)][1..] == [CreateNetwork(h, n), CreateVolume(h)];
    assert Run(a, [CreateContainer(h, c), CreateNetwork(h, n), CreateVolume(h)], t);
    var es := [Mark(h), CreateContainer(h, c), CreateNetwork(h, n), CreateVolume(h)];
    assert es[1..] == [CreateContainer(h, c), CreateNetwork(h, n), CreateVolume(h)];
  }

  lemma TearsDown(r: Resources, h: Sid, c: string, n: string, row: Row)
    requires c !in r.containers && n !in r.networks && SnapshotVolume(h) !in r.volumes
    requires Short(h) !in r.buildDirs && ComposeDir(h) !in r.composeDirs
    requires row.containerIds == {c} && row.network == n && row.volume == Some(SnapshotVolume(h))
    ensures TearRow(Built(r, h, c, n), h, row, NO_FAULTS) == r
  {
    var t := TearRow(Built(r, h, c, n), h, row, NO_FAULTS);
    assert t.containers == r.containers && t.networks == r.networks;
    assert t.volumes == r.volumes && t.buildDirs == r.buildDirs && t.composeDirs == r.composeDirs;
  }

  /** A build that fails takes away what it made, and its row is failed. */
  lemma {:induction false} FailedBuildLeavesNothing(s: State, h: Sid, c: string, n: string, status: Status)
      returns (t: State, u: State)
    requires Fresh(s, h, c, n)
    ensures Run(s, [Mark(h), CreateContainer(h, c), CreateNetwork(h, n), CreateVolume(h)], t)
    ensures Run(t, [BuildFailed(h, Row(status, {c}, n, Some(SnapshotVolume(h))), NO_FAULTS)], u)
    ensures u.docker == s.docker && u.rows.Keys == s.rows.Keys + {h} && u.rows[h].status == Failed && h !in u.building
  {
    t := BuildMakes(s, h, c, n);
    var e := BuildFailed(h, Row(status, {c}, n, Some(SnapshotVolume(h))), NO_FAULTS);
    TearsDown(s.docker, h, c, n, e.record);
    u := Do(t, e);
    assert [e][1..] == [];
  }

  /** The sandbox is built, and its record stored: it serves. */
  lemma {:induction false} BuildServes(s: State, h: Sid, c: string, n: string, record: Row) returns (m: State, t: State)
    requires Fresh(s, h, c, n)
    ensures Run(s, [Mark(h), CreateContainer(h, c), CreateNetwork(h, n), CreateVolume(h)], m)
    ensures Run(m, [BuildDone(h), Store(h, record)], t)
    ensures t.docker == Built(s.docker, h, c, n) && t.rows == s.rows[h := record.(status := Ready)]
    ensures h !in t.building && t.toSweep == {}
  {
    m := BuildMakes(s, h, c, n);
    var d := Do(m, BuildDone(h));
    t := Do(d, Store(h, record));
    assert [Store(h, record)][1..] == [] && [BuildDone(h), Store(h, record)][1..] == [Store(h, record)];
    assert Run(d, [Store(h, record)], t);
  }

  /** A sandbox that served leaves Docker as it found it, and its row closed: by its handler's teardown, whether or
      not the handler failed it first; or, after a restart, by the sweep, even where its record names no network. */
  lemma {:induction false} ServedLeavesNothing(s: State, h: Sid, c: string, n: string, record: Row, swept: bool)
      returns (m: State, t: State, u: State)
    requires Fresh(s, h, c, n) && record.containerIds == {c} && record.volume == Some(SnapshotVolume(h))
    requires record.network == n || (swept && record.network == "" && n == "rvp-sbx-" + Short(h))
    requires swept ==> n != ""
    ensures Run(s, [Mark(h), CreateContainer(h, c), CreateNetwork(h, n), CreateVolume(h)], m)
    ensures Run(m, [BuildDone(h), Store(h, record)], t) && t.docker == Built(s.docker, h, c, n)
    ensures Run(t, if swept then [Restart, Sweep(h, NO_FAULTS)] else [Fail(h), Teardown(h, NO_FAULTS)], u)
    ensures u.docker == s.docker && u.rows.Keys == s.rows.Keys + {h} && u.rows[h].status == Closed
    ensures u.toSweep == if swept then ActiveIds(s.rows) else {}
  {
    m, t := BuildServes(s, h, c, n, record);
    if swept {
      var f, e := Do(t, Restart), Sweep(h, NO_FAULTS);
      TearsDown(s.docker, h, c, n, f.rows[h].(network := n));
      u := Do(f, e);
      assert ActiveIds(t.rows) == ActiveIds(s.rows) + {h};
      assert [e][1..] == [] && [Restart, e][1..] == [e];
      assert Run(f, [e], u);
    } else {
      var f, e := Do(t, Fail(h)), Teardown(h, NO_FAULTS);
      TearsDown(s.docker, h, c, n, f.rows[h]);
      u := Do(f, e);
      assert [e][1..] == [] && [Fail(h), e][1..] == [e];
      assert Run(f, [e], u);
    }
  }

  /** A teardown without container ids leaves Docker alone, and every teardown closes the row; a restart forgets the
      pass and the builds under way, and a sweep that gives up lets everything go on. */
  lemma HandlersEnd(s: State, h: Sid, f: Faults)
    requires Can(s, Teardown(h, f))
    ensures var t := Do(s, Teardown(h, f));
      t.rows == SetStatus(s, h, Closed) && (s.rows[h].containerIds == {} ==> t.docker == s.docker)
    ensures var r := Do(s, Restart); r.gc.phase.Idle? && r.building == {} && r.docker == s.docker && r.rows == s.rows
    ensures Do(Do(s, Restart), SweepGivesUp).toSweep == {}
  {}

  // ---- A whole pass ----

  /** What fails is left where it is, and remembered. */
  lemma FailuresAreMissed(s: State, e: Event)
    requires Can(s, e) && (e.GcList? || e.GcRemove? || e.GcListNetworks? || e.GcRemoveNetwork?) && !e.ok
    ensures Do(s, e).docker == s.docker && Do(s, e).gc.missed
    ensures e.GcList? ==> Do(s, e).gc.phase == Containers({})
    ensures e.GcListNetworks? ==> Do(s, e).gc.phase == Networks({})
    ensures e.GcRemove? || e.GcRemoveNetwork? ==> Do(s, e).gc.phase.todo == s.gc.phase.todo - {e.name}
  {}

  /** At its end a pass takes the volumes and directories of the sandboxes it found orphaned, but those whose
      removal is refused. */
  lemma EndTakes(s: State, stuck: set<string>)
    requires Can(s, GcEnd(stuck))
    ensures var t := Do(s, GcEnd(stuck));
      && t.gc.phase.Finished? && t.docker.containers == s.docker.containers && t.docker.networks == s.docker.networks
      && (forall v :: v in t.docker.volumes <==>
           v in s.docker.volumes && (v in stuck || forall o :: o in s.gc.orphans ==> v != SnapshotVolume(o)))
      && (forall d :: d in t.docker.buildDirs <==>
           d in s.docker.buildDirs && (d in stuck || forall o :: o in s.gc.orphans ==> d != Short(o)))
  {}

  lemma RunOneMore(s: State, e: Event, es: seq<Event>, t: State)
    requires Can(s, e) && Run(Do(s, e), es, t)
    ensures Run(s, [e] + es, t)
    ensures Succeeds(e) && AllSucceed(es) ==> AllSucceed([e] + es)
  {
    assert ([e] + es)[1..] == es;
  }

  lemma {:induction false} NetworksGo(s: State, todo: set<string>) returns (es: seq<Event>, t: State)
    requires s.toSweep == {} && s.gc.phase == Networks(todo)
    ensures Run(s, es, t) && AllSucceed(es) && t.gc.phase.Finished? && t.gc.missed == s.gc.missed
    decreases |todo|
  {
    if todo == {} {
      t := Do(s, GcEnd({}));
      RunOneMore(s, GcEnd({}), [], t);
      es := [GcEnd({})] + [];
    } else {
      var n :| n in todo;
      var rest;
      rest, t := NetworksGo(Do(s, GcRemoveNetwork(n, true)), todo - {n});
      RunOneMore(s, GcRemoveNetwork(n, true), rest, t);
      es := [GcRemoveNetwork(n, true)] + rest;
    }
  }

  lemma {:induction false} ContainersGo(s: State, todo: set<string>) returns (es: seq<Event>, t: State)
    requires s.toSweep == {} && s.gc.phase == Containers(todo)
    ensures Run(s, es, t) && AllSucceed(es) && t.gc.phase.Finished? && t.gc.missed == s.gc.missed
    decreases |todo|
  {
    var rest;
    if todo == {} {
      var u := Do(s, GcListNetworks(true));
      rest, t := NetworksGo(u, u.gc.phase.todo);
      RunOneMore(s, GcListNetworks(true), rest, t);
      es := [GcListNetworks(true)] + rest;
    } else {
      var c :| c in todo;
      rest, t := ContainersGo(Do(s, GcRemove(c, true)), todo - {c});
      RunOneMore(s, GcRemove(c, true), rest, t);
      es := [GcRemove(c, true)] + rest;
    }
  }

  /** A pass can always be begun and brought to its end, and then Docker is as the collector's specification says. */
  lemma PassCanFinish(s: State) returns (es: seq<Event>, t: State)
    requires Can(s, GcStart)
    ensures Run(Do(s, GcStart), es, t) && AllSucceed(es) && t.gc.phase.Finished? && !t.gc.missed
    ensures t.docker == Collected(s.docker, ActiveIds(s.rows), NO_FAULTS)
  {
    var a := Do(s, GcStart);
    var b := Do(a, GcList(true));
    es, t := ContainersGo(b, b.gc.phase.todo);
    RunOneMore(a, GcList(true), es, t);
    es := [GcList(true)] + es;
    UndisturbedPass(s, es, t);
  }
}
