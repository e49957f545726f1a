/** When exactly a hit and the fallback are right, and runs that show what each assumption is for. */
module BuildCacheRuns {
  import opened Wrappers
  import opened BuildCache

  // ---- Which volumes are complete, when every copy into them succeeds ----

  predicate Filling(s: State, t: Tid, k: string) {
    t in s.jobs && s.jobs[t].Saving? && KeyOf(s.jobs[t]) == k
  }

  predicate BeingFilled(s: State, k: string) {
    exists t :: t in s.jobs && Filling(s, t, k)
  }

  /** The step saves into the volume k. */
  predicate SavesInto(s: State, e: Event, k: string)
    requires Can(s, e)
  {
    (e.SaveBegin? || e.SaveEnd?) && KeyOf(s.jobs[e.t]) == k
  }

  /** Every copy into the volume k that the run reaches succeeds. */
  predicate CopiesSucceed(s: State, es: seq<Event>, k: string)
    decreases |es|
  {
    es != [] && Can(s, es[0]) ==>
      (es[0].SaveEnd? && SavesInto(s, es[0], k) ==> es[0].how.Copied?) && CopiesSucceed(Do(s, es[0]), es[1..], k)
  }

  /** The volume k is partial only while it is being filled, and never complete then. */
  predicate PartialIsFilling(s: State, k: string) {
    k in s.store ==>
      && (s.store[k].content.Partial? ==> BeingFilled(s, k))
      && (s.store[k].content.Full? ==> !BeingFilled(s, k))
  }

  /** A step that leaves the jobs filling k as they are. */
  lemma StillFilled(s: State, r: State, k: string)
    requires forall t :: Filling(s, t, k) <==> Filling(r, t, k)
    ensures BeingFilled(s, k) <==> BeingFilled(r, k)
  {
    if t :| t in s.jobs && Filling(s, t, k) { assert t in r.jobs && Filling(r, t, k); }
    if t :| t in r.jobs && Filling(r, t, k) { assert t in s.jobs && Filling(s, t, k); }
  }

  lemma SaveFills(s: State, e: Event, k: string)
    requires Inv(s) && Can(s, e) && SavesInto(s, e, k) && (e.SaveEnd? ==> e.how.Copied?)
    ensures PartialIsFilling(Do(s, e), k)
  {
    var r := Do(s, e);
    assert StageSound(s.jobs[e.t], s.pushed);
    forall u | u in r.jobs && u != e.t ensures !Filling(r, u, k) {
      assert r.jobs[u] == s.jobs[u] && Holds(s.jobs[e.t]);
    }
    if e.SaveBegin? && e.ok { assert e.t in r.jobs && Filling(r, e.t, k); }
  }

  lemma OtherFills(s: State, e: Event, k: string)
    requires PartialIsFilling(s, k) && Can(s, e) && !SavesInto(s, e, k)
    ensures PartialIsFilling(Do(s, e), k)
  {
    StillFilled(s, Do(s, e), k);
  }

  lemma FillsStep(s: State, e: Event, k: string)
    requires Inv(s) && PartialIsFilling(s, k) && Can(s, e) && Settled(s, e)
    requires e.SaveEnd? && SavesInto(s, e, k) ==> e.how.Copied?
    ensures Inv(Do(s, e)) && PartialIsFilling(Do(s, e), k)
  {
    StepKeeps(s, e);
    if SavesInto(s, e, k) { SaveFills(s, e, k); } else { OtherFills(s, e, k); }
  }

  lemma {:induction false} FillsKeep(s: State, es: seq<Event>, r: State, k: string)
    requires Inv(s) && PartialIsFilling(s, k) && Run(s, es, r) && SettledRun(s, es) && CopiesSucceed(s, es, k)
    ensures Inv(r) && PartialIsFilling(r, k)
    decreases |es|
  {
    if es != [] {
      FillsStep(s, es[0], k);
      FillsKeep(Do(s, es[0]), es[1..], r, k);
    }
  }

  /** When the copies into its volume succeed, a hit is right exactly when the volume is there and is not the
      empty one that Docker creates in place of an evicted volume. */
  lemma {:induction false} HitIff(es: seq<Event>, s: State, t: Tid)
    requires Run(INITIAL, es, s) && SettledRun(INITIAL, es) && Can(s, Restore(t, Copied))
    requires CopiesSucceed(INITIAL, es, KeyOf(s.jobs[t]))
    ensures var g := s.jobs[t];
      Copy(s.store, KeyOf(g)) == Full(g.url, g.cli, g.sha) <==>
        KeyOf(g) in s.store && s.store[KeyOf(g)].content != Empty
  {
    FillsKeep(INITIAL, es, s, KeyOf(s.jobs[t]));
    RestoreIff(es, s, t);
  }

  /** And the fallback is right exactly when its volume is there, is not empty, and is not being filled at
      that moment by another request. */
  lemma {:induction false} UnlockedFallbackIff(es: seq<Event>, s: State, t: Tid)
    requires Run(INITIAL, es, s) && SettledRun(INITIAL, es) && Can(s, RestoreFallback(t, Copied))
    requires CopiesSucceed(INITIAL, es, s.jobs[t].from)
    ensures var g := s.jobs[t];
      Copy(s.store, g.from) == Full(g.url, g.cli, g.sha) && Commit(g.url, g.sha) in s.pushed <==>
      g.from in s.store && s.store[g.from].content != Empty && !BeingFilled(s, g.from)
  {
    FillsKeep(INITIAL, es, s, s.jobs[t].from);
    FallbackIff(es, s, t);
  }

  // ---- Keys that are never evicted ----

  /** The step does not evict the volume k, and is no failing save into it. */
  predicate Undisturbing(s: State, e: Event, k: string)
    requires Can(s, e)
  {
    && (e.Evict? ==> k !in e.names)
    && (SavesInto(s, e, k) ==> (e.SaveBegin? ==> e.ok) && (e.SaveEnd? ==> e.how.Copied?))
  }

  predicate Untouched(s: State, es: seq<Event>, k: string)
    decreases |es|
  {
    es != [] && Can(s, es[0]) ==> Undisturbing(s, es[0], k) && Untouched(Do(s, es[0]), es[1..], k)
  }

  predicate NotEmpty(s: State, k: string) {
    k in s.store ==> s.store[k].content != Empty
  }

  /** The volume k is there for every job that will copy out of it. */
  predicate Awaited(s: State, k: string) {
    && (forall t :: t in s.jobs && s.jobs[t].Restoring? && KeyOf(s.jobs[t]) == k ==> k in s.store)
    && (forall t :: t in s.jobs && s.jobs[t].Falling? && s.jobs[t].from == k ==> k in s.store)
  }

  predicate ServedOf(g: Stage, k: string) {
    g.Returned? && g.wanted.Some? && RawKey(g.url, g.cli, g.wanted.value) == k
  }

  /** No request for the key k got an empty snapshot, and no build is empty. */
  predicate Served(s: State, k: string) {
    && (forall t :: t in s.jobs && ServedOf(s.jobs[t], k) ==> s.jobs[t].content != Empty)
    && (forall t :: t in s.jobs && (s.jobs[t].Built? || s.jobs[t].Saving?) ==> s.jobs[t].content.Full?)
  }

  predicate Steady(s: State, k: string) {
    NotEmpty(s, k) && Awaited(s, k) && Served(s, k)
  }

  lemma NotEmptyStep(s: State, e: Event, k: string)
    requires Steady(s, k) && Can(s, e) && Undisturbing(s, e, k)
    ensures NotEmpty(Do(s, e), k)
  {}

  lemma KeyKept(s: State, e: Event, k: string)
    requires k in s.store && Can(s, e) && Undisturbing(s, e, k)
    ensures k in Do(s, e).store
  {}

  lemma AwaitedStep(s: State, e: Event, k: string)
    requires Awaited(s, k) && Can(s, e) && Undisturbing(s, e, k)
    ensures Awaited(Do(s, e), k)
  {
    if k in s.store {
      KeyKept(s, e, k);
    } else if !e.Push? && !e.Evict? {
      var r := Do(s, e);
      forall u | u in r.jobs && u != e.t ensures r.jobs[u] == s.jobs[u] {}
    }
  }

  lemma ServedStep(s: State, e: Event, k: string)
    requires Steady(s, k) && Can(s, e) && Undisturbing(s, e, k)
    ensures Served(Do(s, e), k)
  {
    if !e.Push? && !e.Evict? {
      var r := Do(s, e);
      forall u | u in r.jobs && u != e.t ensures r.jobs[u] == s.jobs[u] {}
    }
  }

  lemma SteadyStep(s: State, e: Event, k: string)
    requires Steady(s, k) && Can(s, e) && Undisturbing(s, e, k)
    ensures Steady(Do(s, e), k)
  {
    NotEmptyStep(s, e, k);
    AwaitedStep(s, e, k);
    ServedStep(s, e, k);
  }

  lemma {:induction false} SteadyRun(s: State, es: seq<Event>, r: State, k: string)
    requires Steady(s, k) && Run(s, es, r) && Untouched(s, es, k)
    ensures Steady(r, k)
    decreases |es|
  {
    if es != [] {
      SteadyStep(s, es[0], k);
      SteadyRun(Do(s, es[0]), es[1..], r, k);
    }
  }

  /** No request for the key k got a partial snapshot. */
  predicate NonePartial(s: State, k: string) {
    forall t :: t in s.jobs && ServedOf(s.jobs[t], k) ==> !s.jobs[t].content.Partial?
  }

  lemma NonePartialStep(s: State, e: Event, k: string)
    requires Inv(s) && PartialIsFilling(s, k) && NonePartial(s, k) && Can(s, e)
    ensures NonePartial(Do(s, e), k)
  {
    if !e.Push? && !e.Evict? {
      var r := Do(s, e);
      if e.t in s.jobs { assert StageSound(s.jobs[e.t], s.pushed); }
      forall u | u in r.jobs && u != e.t ensures r.jobs[u] == s.jobs[u] {}
    }
  }

  lemma {:induction false} NonePartialRun(s: State, es: seq<Event>, r: State, k: string)
    requires Inv(s) && PartialIsFilling(s, k) && NonePartial(s, k) && Run(s, es, r) && SettledRun(s, es)
      && Untouched(s, es, k)
    ensures NonePartial(r, k)
    decreases |es|
  {
    if es != [] {
      FillsStep(s, es[0], k);
      NonePartialStep(s, es[0], k);
      NonePartialRun(Do(s, es[0]), es[1..], r, k);
    }
  }

  /** A resolved request whose key is never evicted, and whose own saves succeed, always gets the fresh build,
      whatever happens to other keys and to the fallback. */
  lemma {:induction false} KeptKeysAreFresh(es: seq<Event>, r: State, t: Tid)
    requires Run(INITIAL, es, r) && SettledRun(INITIAL, es)
    requires t in r.jobs && r.jobs[t].Returned? && r.jobs[t].wanted.Some?
    requires Untouched(INITIAL, es, RawKey(r.jobs[t].url, r.jobs[t].cli, r.jobs[t].wanted.value))
    ensures r.jobs[t].content == Full(r.jobs[t].url, r.jobs[t].cli, r.jobs[t].wanted.value)
  {
    var k := RawKey(r.jobs[t].url, r.jobs[t].cli, r.jobs[t].wanted.value);
    SteadyRun(INITIAL, es, r, k);
    NonePartialRun(INITIAL, es, r, k);
    CacheIsTransparent(es, r, t);
  }

  // ---- After a save that failed ----

  lemma {:induction false} KeyStays(s: State, t: Tid, es: seq<Event>, u: State, k: string)
    requires LocksExclude(s) && Run(s, es, u) && k in s.store
    requires Filling(s, t, k) && Filling(u, t, k)
    requires forall i :: 0 <= i < |es| && es[i].Evict? ==> k !in es[i].names
    ensures k in u.store
    decreases |es|
  {
    if es != [] {
      var e := es[0];
      assert e.Evict? ==> k !in e.names;
      LockStep(s, e);
      FillerStays(s, t, e, es[1..], u, k);
      KeyStays(Do(s, e), t, es[1..], u, k);
    }
  }

  /** A job that has returned stays so; so a job that is filling now and later was filling all along, and no
      step meanwhile removed its volume but an eviction. */
  lemma {:induction false} FillerStays(s: State, t: Tid, e: Event, rest: seq<Event>, u: State, k: string)
    requires LocksExclude(s) && Can(s, e) && Run(Do(s, e), rest, u) && k in s.store
    requires Filling(s, t, k) && Filling(u, t, k) && (e.Evict? ==> k !in e.names)
    ensures Filling(Do(s, e), t, k) && k in Do(s, e).store
  {
    if e.SaveEnd? && e.t == t {
      EndStays(Do(s, e), rest, u, t);
    }
  }

  lemma {:induction false} EndStays(s: State, es: seq<Event>, u: State, t: Tid)
    requires Run(s, es, u) && t in s.jobs && s.jobs[t].Returned?
    ensures t in u.jobs && u.jobs[t].Returned?
    decreases |es|
  {
    if es != [] { EndStays(Do(s, es[0]), es[1..], u, t); }
  }

  /** "The next run will rebuild", exactly: after a save that failed, with no eviction of the key meanwhile, the
      next request for it builds if and only if not even the cache volume was created. A volume that was
      created stays, and is hit. */
  lemma {:induction false} RebuildIff(s: State, t: Tid, created: bool, now: int, es: seq<Event>, u: State,
      how: Copying, n: Tid)
    requires LocksExclude(s) && Can(s, SaveBegin(t, created, now)) && !how.Copied?
    requires created ==> Run(Do(s, SaveBegin(t, true, now)), es, u) && Can(u, SaveEnd(t, how))
    requires forall i :: 0 <= i < |es| && es[i].Evict? ==> KeyOf(s.jobs[t]) !in es[i].names
    ensures
      var v := if created then Do(u, SaveEnd(t, how)) else Do(s, SaveBegin(t, false, now));
      && (KeyOf(s.jobs[t]) in v.store <==> created)
      && (Can(v, Lock(n)) && KeyOf(v.jobs[n]) == KeyOf(s.jobs[t]) ==> (Do(v, Lock(n)).jobs[n].Building? <==> !created))
  {
    if created {
      var k := KeyOf(s.jobs[t]);
      var m := Do(s, SaveBegin(t, true, now));
      LockStep(s, SaveBegin(t, true, now));
      SameKey(m, es, u, t, k);
      KeyStays(m, t, es, u, k);
    }
  }

  lemma {:induction false} SameKey(s: State, es: seq<Event>, u: State, t: Tid, k: string)
    requires Run(s, es, u) && t in s.jobs && (Filling(s, t, k) || s.jobs[t].Returned?) && t in u.jobs
      && u.jobs[t].Saving?
    ensures Filling(u, t, k)
    decreases |es|
  {
    if es != [] { SameKey(Do(s, es[0]), es[1..], u, t, k); }
  }

  // ---- When a build may be kept ----

  /** Every complete snapshot that was handed out is the right build. */
  predicate Transparent(s: State) {
    forall t :: t in s.jobs && s.jobs[t].Returned? && s.jobs[t].content.Full? ==>
      var g := s.jobs[t];
      && (g.wanted.Some? ==> g.content == Full(g.url, g.cli, g.wanted.value))
      && g.content.url == g.url && g.content.cli == g.cli && Commit(g.url, g.content.sha) in s.pushed
  }

  ghost predicate StaysTransparent(s: State) {
    forall es, r :: Run(s, es, r) && SettledRun(s, es) ==> Transparent(r)
  }

  lemma SoundIsTransparent(s: State)
    requires Inv(s)
    ensures Transparent(s)
  {
    forall t | t in s.jobs && s.jobs[t].Returned? ensures StageSound(s.jobs[t], s.pushed) {}
  }

  /** A clone leaves the cache transparent whatever follows exactly when the repository's head is still the
      commit that ls-remote saw. */
  lemma {:induction false} CloneIff(es: seq<Event>, s: State, t: Tid)
    requires Run(INITIAL, es, s) && SettledRun(INITIAL, es) && Can(s, Clone(t, true))
    ensures StaysTransparent(Do(s, Clone(t, true))) <==> s.heads[s.jobs[t].url] == s.jobs[t].sha
  {
    RunKeeps(INITIAL, es, s);
    var u := Do(s, Clone(t, true));
    if s.heads[s.jobs[t].url] == s.jobs[t].sha {
      StepKeeps(s, Clone(t, true));
      forall fs, r | Run(u, fs, r) && SettledRun(u, fs) ensures Transparent(r) {
        RunKeeps(u, fs, r);
        SoundIsTransparent(r);
      }
    } else {
      var e := SaveBegin(t, false, 0);
      var r := Do(u, e);
      assert [e][1..] == [];
      assert Run(u, [e], r) && SettledRun(u, [e]);
      assert !Transparent(r) by { assert r.jobs[t].Returned?; }
    }
  }

  // ---- Runs from the empty cache ----

  lemma {:induction false} Extend(s: State, es: seq<Event>, r: State, e: Event)
    requires Run(s, es, r) && Can(r, e)
    ensures Run(s, es + [e], Do(r, e))
    decreases |es|
  {
    if es == [] {
      assert [e][1..] == [];
    } else {
      assert (es + [e])[1..] == es[1..] + [e];
      Extend(Do(s, es[0]), es[1..], r, e);
    }
  }

  /** A commit is pushed, and the first request for it locks its key and misses. */
  lemma ToBuilding(url: Url, cli: Cli, sha: Sha) returns (es: seq<Event>, s: State)
    requires |sha| == 40
    ensures Run(INITIAL, es, s)
    ensures s == State(map[], map[url := sha], {Commit(url, sha)}, map[0 := Building(url, cli, sha)])
  {
    s := Do(INITIAL, Push(url, sha));
    Extend(INITIAL, [], INITIAL, Push(url, sha));
    es := [] + [Push(url, sha)];
    Extend(INITIAL, es, s, Ask(0, url, cli));
    es, s := es + [Ask(0, url, cli)], Do(s, Ask(0, url, cli));
    Extend(INITIAL, es, s, Resolve(0, true));
    es, s := es + [Resolve(0, true)], Do(s, Resolve(0, true));
    Extend(INITIAL, es, s, Lock(0));
    es, s := es + [Lock(0)], Do(s, Lock(0));
  }

  /** It builds, and begins to save. */
  lemma ToSaving(url: Url, cli: Cli, sha: Sha, now: int) returns (es: seq<Event>, s: State)
    requires |sha| == 40
    ensures Run(INITIAL, es, s)
    ensures s == State(map[RawKey(url, cli, sha) := Volume(Partial, Some(Label(url, cli, sha, now)))], map[url := sha],
                       {Commit(url, sha)}, map[0 := Saving(url, cli, sha, Full(url, cli, sha))])
  {
    es, s := ToBuilding(url, cli, sha);
    Extend(INITIAL, es, s, Clone(0, true));
    es, s := es + [Clone(0, true)], Do(s, Clone(0, true));
    Extend(INITIAL, es, s, SaveBegin(0, true, now));
    es, s := es + [SaveBegin(0, true, now)], Do(s, SaveBegin(0, true, now));
  }

  /** The next request, with a new number, asks and resolves the commit. */
  lemma NextWaits(es: seq<Event>, s: State, t: Tid, url: Url, cli: Cli) returns (fs: seq<Event>, r: State)
    requires Run(INITIAL, es, s) && t !in s.jobs && url in s.heads
    ensures Run(INITIAL, fs, r) && r == s.(jobs := s.jobs[t := Waiting(url, cli, s.heads[url])])
  {
    var asked := Do(s, Ask(t, url, cli));
    Extend(INITIAL, es, s, Ask(t, url, cli));
    Extend(INITIAL, es + [Ask(t, url, cli)], asked, Resolve(t, true));
    fs, r := es + [Ask(t, url, cli)] + [Resolve(t, true)], Do(asked, Resolve(t, true));
  }

  /** It then hits a volume that is there, when every earlier job has ended. */
  lemma NextHits(es: seq<Event>, s: State, t: Tid, url: Url, cli: Cli) returns (fs: seq<Event>, r: State)
    requires Run(INITIAL, es, s) && t !in s.jobs && url in s.heads && RawKey(url, cli, s.heads[url]) in s.store
    requires forall u :: u in s.jobs ==> s.jobs[u].Returned?
    ensures Run(INITIAL, fs, r) && r == s.(jobs := s.jobs[t := Restoring(url, cli, s.heads[url])])
  {
    var es1, s1 := NextWaits(es, s, t, url, cli);
    Extend(INITIAL, es1, s1, Lock(t));
    fs, r := es1 + [Lock(t)], Do(s1, Lock(t));
  }

  /** A copy into the cache that breaks off leaves its labelled volume behind: the next request for the same
      commit hits it and gets a partial snapshot. It does not rebuild. */
  lemma FailedCopyPoisons(url: Url, cli: Cli, sha: Sha, now: int) returns (es: seq<Event>, r: State)
    requires |sha| == 40
    ensures Run(INITIAL, es, r) && 1 in r.jobs && r.jobs[1] == Returned(url, cli, Some(sha), false, Partial)
  {
    var s: State;
    es, s := ToSaving(url, cli, sha, now);
    Extend(INITIAL, es, s, SaveEnd(0, Broken));
    es, s := es + [SaveEnd(0, Broken)], Do(s, SaveEnd(0, Broken));
    es, s := NextHits(es, s, 1, url, cli);
    Extend(INITIAL, es, s, Restore(1, Copied));
    es, r := es + [Restore(1, Copied)], Do(s, Restore(1, Copied));
  }

  /** A repository that moves between ls-remote and clone stores the new commit's build under the old
      commit's key. */
  lemma MovedHeadIsStoredUnderOldKey(url: Url, cli: Cli, first: Sha, next: Sha, now: int)
    returns (es: seq<Event>, r: State)
    requires |first| == 40 && |next| == 40
    ensures Run(INITIAL, es, r) && RawKey(url, cli, first) in r.store
    ensures r.store[RawKey(url, cli, first)].content == Full(url, cli, next)
  {
    var s: State;
    es, s := ToBuilding(url, cli, first);
    Extend(INITIAL, es, s, Push(url, next));
    es, s := es + [Push(url, next)], Do(s, Push(url, next));
    Extend(INITIAL, es, s, Clone(0, true));
    es, s := es + [Clone(0, true)], Do(s, Clone(0, true));
    Extend(INITIAL, es, s, SaveBegin(0, true, now));
    es, s := es + [SaveBegin(0, true, now)], Do(s, SaveBegin(0, true, now));
    Extend(INITIAL, es, s, SaveEnd(0, Copied));
    es, r := es + [SaveEnd(0, Copied)], Do(s, SaveEnd(0, Copied));
  }

  /** A volume evicted between the lookup and the copy is restored as an empty snapshot, and the empty volume
      that Docker leaves under its name is the next request's hit. */
  lemma EvictedHitIsEmpty(url: Url, cli: Cli, sha: Sha, now: int) returns (es: seq<Event>, r: State)
    requires |sha| == 40
    ensures Run(INITIAL, es, r) && 1 in r.jobs && r.jobs[1] == Returned(url, cli, Some(sha), false, Empty)
    ensures 2 in r.jobs && r.jobs[2] == Returned(url, cli, Some(sha), false, Empty)
  {
    var k := RawKey(url, cli, sha);
    var s: State;
    es, s := ToSaving(url, cli, sha, now);
    Extend(INITIAL, es, s, SaveEnd(0, Copied));
    es, s := es + [SaveEnd(0, Copied)], Do(s, SaveEnd(0, Copied));
    es, s := NextHits(es, s, 1, url, cli);
    Extend(INITIAL, es, s, Evict({k}));
    es, s := es + [Evict({k})], Do(s, Evict({k}));
    Extend(INITIAL, es, s, Restore(1, Copied));
    es, s := es + [Restore(1, Copied)], Do(s, Restore(1, Copied));
    es, s := NextHits(es, s, 2, url, cli);
    Extend(INITIAL, es, s, Restore(2, Copied));
    es, r := es + [Restore(2, Copied)], Do(s, Restore(2, Copied));
  }

  /** The fallback takes no lock, so it can copy a volume that another request is still filling. */
  lemma FallbackMeetsUnfinishedCopy(url: Url, cli: Cli, sha: Sha, now: int) returns (es: seq<Event>, r: State)
    requires |sha| == 40
    ensures Run(INITIAL, es, r) && 1 in r.jobs && r.jobs[1] == Returned(url, cli, None, true, Partial)
  {
    var k := RawKey(url, cli, sha);
    var s: State;
    es, s := ToSaving(url, cli, sha, now);
    Extend(INITIAL, es, s, Ask(1, url, cli));
    es, s := es + [Ask(1, url, cli)], Do(s, Ask(1, url, cli));
    Extend(INITIAL, es, s, Resolve(1, false));
    es, s := es + [Resolve(1, false)], Do(s, Resolve(1, false));
    assert Latest(s.store, url, cli, k);
    Extend(INITIAL, es, s, PickFallback(1, Some(k), true, true));
    es, s := es + [PickFallback(1, Some(k), true, true)], Do(s, PickFallback(1, Some(k), true, true));
    Extend(INITIAL, es, s, RestoreFallback(1, Copied));
    es, r := es + [RestoreFallback(1, Copied)], Do(s, RestoreFallback(1, Copied));
  }
}
