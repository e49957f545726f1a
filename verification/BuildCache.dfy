/** The application build cache: concurrent requests, per-key locks and cache volumes named by key. */
module BuildCache {
  import opened Wrappers

  type Url = string
  type Cli = string
  type Sha = string
  type Tid = nat

  /** What a volume or a snapshot holds. A build is determined by repository, CLI version and commit. */
  datatype Content = Full(url: Url, cli: Cli, sha: Sha) | Partial | Empty

  datatype Label = Label(url: Url, cli: Cli, sha: Sha, builtAt: int)

  /** A cache volume. Docker itself creates one without labels when a copy names a volume that is gone. */
  datatype Volume = Volume(content: Content, tag: Option<Label>)

  type Store = map<string, Volume>

  /** The name of a cache volume is the hash of its key. The hash is taken as injective, so the key stands for
      the name. */
  function RawKey(url: Url, cli: Cli, sha: Sha): string {
    url + ":" + cli + ":" + sha
  }

  /** How a copy between volumes goes: to the end, broken off, or never begun. */
  datatype Copying = Copied | Broken | NotRun

  /** Where a request stands. It holds the lock of its key from Building and Restoring on. */
  datatype Stage =
    | Asked(url: Url, cli: Cli)
    | Waiting(url: Url, cli: Cli, sha: Sha)
    | Building(url: Url, cli: Cli, sha: Sha)
    | Built(url: Url, cli: Cli, sha: Sha, content: Content)
    | Saving(url: Url, cli: Cli, sha: Sha, content: Content)
    | Restoring(url: Url, cli: Cli, sha: Sha)
    | Unresolved(url: Url, cli: Cli)
    | Falling(url: Url, cli: Cli, sha: Sha, from: string)
    | Returned(url: Url, cli: Cli, wanted: Option<Sha>, fellBack: bool, content: Content)
    | Failed

  datatype Commit = Commit(url: Url, sha: Sha)

  /** heads: each repository's current commit; pushed: every commit that ever was one. */
  datatype State = State(store: Store, heads: map<Url, Sha>, pushed: set<Commit>, jobs: map<Tid, Stage>)

  const INITIAL := State(map[], map[], {}, map[])

  datatype Event =
    | Push(url: Url, sha: Sha)
    | Ask(t: Tid, url: Url, cli: Cli)
    | Resolve(t: Tid, ok: bool)
    | Lock(t: Tid)
    | Clone(t: Tid, ok: bool)
    | SaveBegin(t: Tid, ok: bool, now: int)
    | SaveEnd(t: Tid, how: Copying)
    | Restore(t: Tid, how: Copying)
    | RestoreNotFound(t: Tid)
    | PickFallback(t: Tid, from: Option<string>, listed: bool, built: bool)
    | RestoreFallback(t: Tid, how: Copying)
    | Evict(names: set<string>)

  function KeyOf(g: Stage): string
    requires g.Waiting? || g.Building? || g.Built? || g.Saving? || g.Restoring?
  {
    RawKey(g.url, g.cli, g.sha)
  }

  predicate Holds(g: Stage) {
    g.Building? || g.Built? || g.Saving? || g.Restoring?
  }

  predicate Free(s: State, key: string) {
    forall t :: t in s.jobs && Holds(s.jobs[t]) ==> KeyOf(s.jobs[t]) != key
  }

  /** The labelled volumes of one application and CLI version. */
  predicate Offers(v: Volume, url: Url, cli: Cli) {
    v.tag.Some? && v.tag.value.url == url && v.tag.value.cli == cli
  }

  /** name is a most recently built volume the fallback may use. */
  predicate Latest(store: Store, url: Url, cli: Cli, name: string) {
    && name in store && Offers(store[name], url, cli)
    && forall n :: n in store && Offers(store[n], url, cli) ==>
         store[n].tag.value.builtAt <= store[name].tag.value.builtAt
  }

  predicate NoneOffers(store: Store, url: Url, cli: Cli) {
    forall n :: n in store ==> !Offers(store[n], url, cli)
  }

  predicate Can(s: State, e: Event) {
    match e
    case Push(_, sha) => |sha| == 40
    case Ask(t, url, _) => t !in s.jobs && url in s.heads
    case Resolve(t, _) => t in s.jobs && s.jobs[t].Asked? && s.jobs[t].url in s.heads
    case Lock(t) => t in s.jobs && s.jobs[t].Waiting? && Free(s, KeyOf(s.jobs[t]))
    case Clone(t, _) => t in s.jobs && s.jobs[t].Building? && s.jobs[t].url in s.heads
    case SaveBegin(t, _, _) => t in s.jobs && s.jobs[t].Built?
    case SaveEnd(t, _) => t in s.jobs && s.jobs[t].Saving?
    case Restore(t, _) => t in s.jobs && s.jobs[t].Restoring?
    case RestoreNotFound(t) => t in s.jobs && s.jobs[t].Restoring?
    case PickFallback(t, from, listed, _) =>
      && t in s.jobs && s.jobs[t].Unresolved? && s.jobs[t].url in s.heads
      && if from.Some? then listed && Latest(s.store, s.jobs[t].url, s.jobs[t].cli, from.value)
         else !listed || NoneOffers(s.store, s.jobs[t].url, s.jobs[t].cli)
    case RestoreFallback(t, _) => t in s.jobs && s.jobs[t].Falling?
    case Evict(_) => true
  }

  function Move(s: State, t: Tid, g: Stage): State {
    s.(jobs := s.jobs[t := g])
  }

  /** Copying from a volume that is gone copies the empty volume Docker creates in its place. */
  function Copy(store: Store, name: string): Content {
    if name in store then store[name].content else Empty
  }

  /** The cache after a copy out of a volume: a volume that was gone is there again, empty and unlabelled. */
  function CopiedOut(store: Store, name: string, how: Copying): Store {
    if name in store || how.NotRun? then store else store[name := Volume(Empty, None)]
  }

  /** The cache after a copy into a volume. */
  function CopiedIn(store: Store, name: string, c: Content, how: Copying): Store {
    var tag := if name in store then store[name].tag else None;
    match how
    case Copied => store[name := Volume(c, tag)]
    case Broken => store[name := Volume(Partial, tag)]
    case NotRun => store
  }

  function Do(s: State, e: Event): State
    requires Can(s, e)
  {
    match e
    case Push(url, sha) => s.(heads := s.heads[url := sha], pushed := s.pushed + {Commit(url, sha)})
    case Ask(t, url, cli) => Move(s, t, Asked(url, cli))
    case Resolve(t, ok) =>
      var g := s.jobs[t];
      Move(s, t, if ok then Waiting(g.url, g.cli, s.heads[g.url]) else Unresolved(g.url, g.cli))
    case Lock(t) =>
      var g := s.jobs[t];
      Move(s, t, if KeyOf(g) in s.store then Restoring(g.url, g.cli, g.sha) else Building(g.url, g.cli, g.sha))
    case Clone(t, ok) =>
      var g := s.jobs[t];
      Move(s, t, if ok then Built(g.url, g.cli, g.sha, Full(g.url, g.cli, s.heads[g.url])) else Failed)
    case SaveBegin(t, ok, now) =>
      var g := s.jobs[t];
      if ok then Move(s, t, Saving(g.url, g.cli, g.sha, g.content)).(
        store := s.store[KeyOf(g) := Volume(Partial, Some(Label(g.url, g.cli, g.sha, now)))])
      else Move(s, t, Returned(g.url, g.cli, Some(g.sha), false, g.content)).(store := s.store - {KeyOf(g)})
    case SaveEnd(t, how) =>
      var g := s.jobs[t];
      Move(s, t, Returned(g.url, g.cli, Some(g.sha), false, g.content)).(
        store := CopiedIn(s.store, KeyOf(g), g.content, how))
    case Restore(t, how) =>
      var g := s.jobs[t];
      Move(s, t, if how.Copied? then Returned(g.url, g.cli, Some(g.sha), false, Copy(s.store, KeyOf(g))) else Failed).(
        store := CopiedOut(s.store, KeyOf(g), how))
    case RestoreNotFound(t) =>
      var g := s.jobs[t];
      Move(s, t, Building(g.url, g.cli, g.sha))
    case PickFallback(t, from, _, built) =>
      var g := s.jobs[t];
      Move(s, t, if from.Some? then Falling(g.url, g.cli, s.store[from.value].tag.value.sha, from.value)
                 else if built then Returned(g.url, g.cli, None, false, Full(g.url, g.cli, s.heads[g.url]))
                 else Failed)
    case RestoreFallback(t, how) =>
      var g := s.jobs[t];
      Move(s, t, if how.Copied? then Returned(g.url, g.cli, None, true, Copy(s.store, g.from)) else Failed).(
        store := CopiedOut(s.store, g.from, how))
    case Evict(names) => s.(store := s.store - names)
  }

  function After(s: State, es: seq<Event>): Option<State>
    decreases |es|
  {
    if es == [] then Some(s)
    else if Can(s, es[0]) then After(Do(s, es[0]), es[1..])
    else None
  }

  predicate Run(s: State, es: seq<Event>, t: State) {
    After(s, es) == Some(t)
  }

  // ---- How a request ends ----

  /** A request returns by a build that was saved, or could not begin to be; by a copy out of the cache that was
      made; or by a build without a resolved commit. It fails by a build that fails or a copy that is not made. What
      it returns is of its own application and CLI version, and of the commit it resolved, if it did. */
  lemma RequestEndsIff(s: State, e: Event)
    requires Can(s, e) && !e.Push? && !e.Ask? && !e.Evict?
    ensures var g, r := s.jobs[e.t], Do(s, e).jobs[e.t];
      var copies := e.Restore? || e.RestoreFallback?;
      var builds := e.PickFallback? && e.from.None?;
      && (r.Returned? <==>
          (e.SaveBegin? && !e.ok) || e.SaveEnd? || (copies && e.how == Copied) || (builds && e.built))
      && (r.Failed? <==> (e.Clone? && !e.ok) || (copies && e.how != Copied) || (builds && !e.built))
      && (r.Returned? ==>
           && r.url == g.url && r.cli == g.cli && (r.fellBack <==> e.RestoreFallback?)
           && (if e.PickFallback? || e.RestoreFallback? then r.wanted == None else r.wanted == Some(g.sha))
           && (e.SaveBegin? || e.SaveEnd? ==> r.content == g.content))
      && (forall t :: t in s.jobs && t != e.t ==> t in Do(s, e).jobs && Do(s, e).jobs[t] == s.jobs[t])
  {}

  /** What a copy into the cache leaves: the build, or a part of it, under the label the volume had; without that
      volume, Docker's own unlabelled one, if the copy began. */
  lemma SaveLeaves(s: State, t: Tid, how: Copying)
    requires Can(s, SaveEnd(t, how))
    ensures var k, u := KeyOf(s.jobs[t]), Do(s, SaveEnd(t, how)).store;
      && (forall n :: n != k ==> (n in u <==> n in s.store) && (n in u ==> u[n] == s.store[n]))
      && (how == NotRun ==> u == s.store)
      && (how != NotRun ==>
           && k in u && u[k].content == (if how == Copied then s.jobs[t].content else Partial)
           && u[k].tag == (if k in s.store then s.store[k].tag else None))
  {}

  /** What a copy out of the cache leaves: the cache as it was, or Docker's empty volume in place of a missing one,
      if the copy began. */
  lemma RestoreLeaves(s: State, e: Event)
    requires Can(s, e) && (e.Restore? || e.RestoreFallback?)
    ensures var k, u := if e.Restore? then KeyOf(s.jobs[e.t]) else s.jobs[e.t].from, Do(s, e).store;
      && (forall n :: n != k ==> (n in u <==> n in s.store) && (n in u ==> u[n] == s.store[n]))
      && (k in s.store ==> k in u && u[k] == s.store[k])
      && (k !in s.store ==> (k in u <==> e.how != NotRun) && (k in u ==> u[k] == Volume(Empty, None)))
  {}

  /** A save that begins replaces whatever the key had by a labelled, partial volume. */
  lemma SaveBegins(s: State, t: Tid, now: int)
    requires Can(s, SaveBegin(t, true, now))
    ensures var g, u := s.jobs[t], Do(s, SaveBegin(t, true, now));
      && u.store == s.store[KeyOf(g) := Volume(Partial, Some(Label(g.url, g.cli, g.sha, now)))]
      && Can(u, SaveEnd(t, Copied)) && u.jobs[t].content == g.content
  {}

  /** The fallback takes the most recently built volume that is labelled with the application and CLI version, and
      builds without a commit only if the listing fails or shows none. */
  lemma FallbackPicks(s: State, t: Tid, from: Option<string>, listed: bool, built: bool)
    requires t in s.jobs && s.jobs[t].Unresolved? && s.jobs[t].url in s.heads
    ensures var g := s.jobs[t];
      var mine := set n | n in s.store && s.store[n].tag.Some?
        && s.store[n].tag.value.url == g.url && s.store[n].tag.value.cli == g.cli;
      && (from.None? ==> (Can(s, PickFallback(t, from, listed, built)) <==> !listed || mine == {}))
      && (from.Some? ==>
           (Can(s, PickFallback(t, from, listed, built)) <==>
            && listed && from.value in mine
            && forall n :: n in mine ==> s.store[n].tag.value.builtAt <= s.store[from.value].tag.value.builtAt))
  {
    var g := s.jobs[t];
    var mine := set n | n in s.store && s.store[n].tag.Some?
      && s.store[n].tag.value.url == g.url && s.store[n].tag.value.cli == g.cli;
    assert forall n :: n in s.store ==> (n in mine <==> Offers(s.store[n], g.url, g.cli));
  }

  /** A hit that Docker answers with not-found builds after all. */
  lemma NotFoundRebuilds(s: State, t: Tid, now: int) returns (r: State)
    requires t in s.jobs && s.jobs[t].Restoring? && s.jobs[t].url in s.heads
    ensures Run(s, [RestoreNotFound(t), Clone(t, true), SaveBegin(t, true, now), SaveEnd(t, Copied)], r)
    ensures var g := s.jobs[t];
      t in r.jobs && r.jobs[t] == Returned(g.url, g.cli, Some(g.sha), false, Full(g.url, g.cli, s.heads[g.url]))
  {
    var a := Do(s, RestoreNotFound(t));
    var b := Do(a, Clone(t, true));
    var c := Do(b, SaveBegin(t, true, now));
    r := Do(c, SaveEnd(t, Copied));
    assert [SaveEnd(t, Copied)][1..] == [];
    assert Run(c, [SaveEnd(t, Copied)], r);
    assert [SaveBegin(t, true, now), SaveEnd(t, Copied)][1..] == [SaveEnd(t, Copied)];
    assert Run(b, [SaveBegin(t, true, now), SaveEnd(t, Copied)], r);
    assert [Clone(t, true), SaveBegin(t, true, now), SaveEnd(t, Copied)][1..]
        == [SaveBegin(t, true, now), SaveEnd(t, Copied)];
    assert Run(a, [Clone(t, true), SaveBegin(t, true, now), SaveEnd(t, Copied)], r);
    assert [RestoreNotFound(t), Clone(t, true), SaveBegin(t, true, now), SaveEnd(t, Copied)][1..]
        == [Clone(t, true), SaveBegin(t, true, now), SaveEnd(t, Copied)];
  }

  // ---- Keys ----

  predicate NoColon(cli: Cli) {
    forall i :: 0 <= i < |cli| ==> cli[i] != ':'
  }

  lemma SplitTail(a: string, b: string, x: string, y: string)
    requires a + x == b + y && |x| == |y|
    ensures a == b && x == y
  {
    assert |a| == |b|;
    assert a == (a + x)[..|a|];
    assert b == (b + y)[..|a|];
    assert x == (a + x)[|a|..];
    assert y == (b + y)[|a|..];
  }

  lemma NoLaterColon(u: Url, c: Cli)
    requires NoColon(c)
    ensures (u + ":" + c)[|u|] == ':'
    ensures forall k :: |u| < k < |u + ":" + c| ==> (u + ":" + c)[k] != ':'
  {
    var w := u + ":" + c;
    forall k | |u| < k < |w| ensures w[k] != ':' { assert w[k] == c[k - |u| - 1]; }
  }

  lemma LastColon(u: Url, c: Cli, v: Url, d: Cli)
    requires u + ":" + c == v + ":" + d && NoColon(c) && NoColon(d)
    ensures |c| == |d|
  {
    NoLaterColon(u, c);
    NoLaterColon(v, d);
  }

  /** With 40-character commits and no colon in the CLI versions, a key names one repository, CLI version
      and commit. */
  lemma KeysAreInjective(u: Url, c: Cli, x: Sha, v: Url, d: Cli, y: Sha)
    requires |x| == 40 && |y| == 40 && NoColon(c) && NoColon(d)
    requires RawKey(u, c, x) == RawKey(v, d, y)
    ensures u == v && c == d && x == y
  {
    SplitTail(u + ":" + c, v + ":" + d, ":" + x, ":" + y) by {
      assert RawKey(u, c, x) == (u + ":" + c) + (":" + x);
      assert RawKey(v, d, y) == (v + ":" + d) + (":" + y);
    }
    assert x == (":" + x)[1..] && y == (":" + y)[1..];
    LastColon(u, c, v, d);
    SplitTail(u + ":", v + ":", c, d);
    SplitTail(u, v, ":", ":");
  }

  /** A colon in a CLI version breaks that: two applications share a key. */
  lemma ColonCollides(u: Url, x: Sha)
    ensures RawKey(u, "1:2", x) == RawKey(u + ":1", "2", x)
  {
    assert "1:2" == "1" + ":" + "2";
    assert u + ":" + ("1" + ":" + "2") == (u + ":1") + ":" + "2" by {
      assert u + ":" + ("1" + ":" + "2") == u + (":" + "1") + ":" + "2";
    }
  }

  // ---- One build per key ----

  predicate LocksExclude(s: State) {
    forall t, u :: t in s.jobs && u in s.jobs && Holds(s.jobs[t]) && Holds(s.jobs[u]) && t != u
      ==> KeyOf(s.jobs[t]) != KeyOf(s.jobs[u])
  }

  /** A step of thread t leaves every other job as it is, and takes no lock but by Lock. */
  lemma LockStep(s: State, e: Event)
    requires LocksExclude(s) && Can(s, e)
    ensures LocksExclude(Do(s, e))
  {
    if e.Push? || e.Evict? {
    } else if !e.Lock? && Holds(Do(s, e).jobs[e.t]) {
      assert Holds(s.jobs[e.t]) && KeyOf(Do(s, e).jobs[e.t]) == KeyOf(s.jobs[e.t]);
    }
  }

  lemma {:induction false} LocksKeep(s: State, es: seq<Event>, r: State)
    requires LocksExclude(s) && Run(s, es, r)
    ensures LocksExclude(r)
    decreases |es|
  {
    if es != [] {
      LockStep(s, es[0]);
      LocksKeep(Do(s, es[0]), es[1..], r);
    }
  }

  /** In every run at most one build per key is in flight. */
  lemma {:induction false} OneBuildPerKey(es: seq<Event>, s: State, t: Tid, u: Tid)
    requires Run(INITIAL, es, s) && t in s.jobs && u in s.jobs
    requires s.jobs[t].Building? && s.jobs[u].Building? && KeyOf(s.jobs[t]) == KeyOf(s.jobs[u])
    ensures t == u
  {
    LocksKeep(INITIAL, es, s);
  }

  // ---- Transparency ----

  /** The assumptions: CLI versions have no colon, and the repository stays where ls-remote saw it until
      the clone. */
  predicate Settled(s: State, e: Event)
    requires Can(s, e)
  {
    match e
    case Ask(_, _, cli) => NoColon(cli)
    case Clone(t, ok) => ok ==> s.heads[s.jobs[t].url] == s.jobs[t].sha
    case _ => true
  }

  predicate SettledRun(s: State, es: seq<Event>)
    decreases |es|
  {
    es != [] && Can(s, es[0]) ==> Settled(s, es[0]) && SettledRun(Do(s, es[0]), es[1..])
  }

  predicate IsBuild(c: Content, pushed: set<Commit>) {
    c.Full? && Commit(c.url, c.sha) in pushed && |c.sha| == 40 && NoColon(c.cli)
  }

  /** A complete volume holds the build its key names, and a labelled one has the key its labels name. */
  predicate VolumeSound(k: string, v: Volume, pushed: set<Commit>) {
    && (v.content.Full? ==> IsBuild(v.content, pushed) && k == RawKey(v.content.url, v.content.cli, v.content.sha))
    && (v.tag.Some? ==> |v.tag.value.sha| == 40 && NoColon(v.tag.value.cli)
                        && k == RawKey(v.tag.value.url, v.tag.value.cli, v.tag.value.sha))
  }

  predicate StoreSound(store: Store, pushed: set<Commit>) {
    forall k :: k in store ==> VolumeSound(k, store[k], pushed)
  }

  predicate StageSound(g: Stage, pushed: set<Commit>) {
    match g
    case Asked(_, cli) => NoColon(cli)
    case Waiting(url, cli, sha) => IsBuild(Full(url, cli, sha), pushed)
    case Building(url, cli, sha) => IsBuild(Full(url, cli, sha), pushed)
    case Restoring(url, cli, sha) => IsBuild(Full(url, cli, sha), pushed)
    case Built(url, cli, sha, c) => IsBuild(c, pushed) && c == Full(url, cli, sha)
    case Saving(url, cli, sha, c) => IsBuild(c, pushed) && c == Full(url, cli, sha)
    case Unresolved(_, cli) => NoColon(cli)
    case Falling(url, cli, sha, from) => NoColon(cli) && |sha| == 40 && from == RawKey(url, cli, sha)
    case Returned(url, cli, wanted, _, c) =>
      c.Full? ==> IsBuild(c, pushed) && c.url == url && c.cli == cli && (wanted.Some? ==> c.sha == wanted.value)
    case Failed => true
  }

  predicate JobsSound(s: State) {
    forall t :: t in s.jobs ==> StageSound(s.jobs[t], s.pushed)
  }

  predicate HeadsSound(s: State) {
    forall url :: url in s.heads ==> Commit(url, s.heads[url]) in s.pushed && |s.heads[url]| == 40
  }

  predicate Inv(s: State) {
    LocksExclude(s) && StoreSound(s.store, s.pushed) && JobsSound(s) && HeadsSound(s)
  }

  /** A complete volume under the key of a build is that build. */
  lemma FullUnderKey(store: Store, pushed: set<Commit>, k: string, url: Url, cli: Cli, sha: Sha)
    requires StoreSound(store, pushed) && k in store && store[k].content.Full?
    requires |sha| == 40 && NoColon(cli) && k == RawKey(url, cli, sha)
    ensures store[k].content == Full(url, cli, sha) && IsBuild(store[k].content, pushed)
  {
    var c := store[k].content;
    assert VolumeSound(k, store[k], pushed);
    KeysAreInjective(url, cli, sha, c.url, c.cli, c.sha);
  }

  lemma CopyOutSound(store: Store, pushed: set<Commit>, name: string, how: Copying)
    requires StoreSound(store, pushed)
    ensures StoreSound(CopiedOut(store, name, how), pushed)
  {}

  lemma SaveSound(s: State, e: Event)
    requires Inv(s) && Can(s, e) && (e.SaveBegin? || e.SaveEnd?)
    ensures StoreSound(Do(s, e).store, s.pushed)
  {
    assert StageSound(s.jobs[e.t], s.pushed);
    if e.SaveEnd? && KeyOf(s.jobs[e.t]) in s.store {
      assert VolumeSound(KeyOf(s.jobs[e.t]), s.store[KeyOf(s.jobs[e.t])], s.pushed);
    }
  }

  lemma StoreStep(s: State, e: Event)
    requires Inv(s) && Can(s, e)
    ensures StoreSound(Do(s, e).store, Do(s, e).pushed)
  {
    match e
    case SaveBegin(_, _, _) => SaveSound(s, e);
    case SaveEnd(_, _) => SaveSound(s, e);
    case Restore(t, how) => CopyOutSound(s.store, s.pushed, KeyOf(s.jobs[t]), how);
    case RestoreFallback(t, how) => CopyOutSound(s.store, s.pushed, s.jobs[t].from, how);
    case Push(url, sha) =>
      forall k | k in s.store ensures VolumeSound(k, s.store[k], Do(s, e).pushed) {
        assert VolumeSound(k, s.store[k], s.pushed);
      }
    case _ =>
  }

  lemma JobStep(s: State, e: Event)
    requires Inv(s) && Can(s, e) && Settled(s, e) && !e.Push? && !e.Evict?
    ensures StageSound(Do(s, e).jobs[e.t], s.pushed)
  {
    if e.t in s.jobs {
      var g := s.jobs[e.t];
      assert StageSound(g, s.pushed);
      if e.Restore? && KeyOf(g) in s.store && s.store[KeyOf(g)].content.Full? {
        FullUnderKey(s.store, s.pushed, KeyOf(g), g.url, g.cli, g.sha);
      } else if e.RestoreFallback? && g.from in s.store && s.store[g.from].content.Full? {
        FullUnderKey(s.store, s.pushed, g.from, g.url, g.cli, g.sha);
      } else if e.PickFallback? && e.from.Some? {
        assert VolumeSound(e.from.value, s.store[e.from.value], s.pushed);
      }
    }
  }

  lemma MorePushed(g: Stage, pushed: set<Commit>, c: Commit)
    requires StageSound(g, pushed)
    ensures StageSound(g, pushed + {c})
  {}

  lemma JobsStep(s: State, e: Event)
    requires Inv(s) && Can(s, e) && Settled(s, e)
    ensures JobsSound(Do(s, e))
  {
    var r := Do(s, e);
    if e.Push? {
      forall t | t in r.jobs ensures StageSound(r.jobs[t], r.pushed) {
        MorePushed(s.jobs[t], s.pushed, Commit(e.url, e.sha));
      }
    } else if !e.Evict? {
      JobStep(s, e);
      forall t | t in r.jobs ensures StageSound(r.jobs[t], r.pushed) { assert t == e.t || r.jobs[t] == s.jobs[t]; }
    }
  }

  lemma StepKeeps(s: State, e: Event)
    requires Inv(s) && Can(s, e) && Settled(s, e)
    ensures Inv(Do(s, e))
  {
    LockStep(s, e);
    StoreStep(s, e);
    JobsStep(s, e);
  }

  lemma {:induction false} RunKeeps(s: State, es: seq<Event>, r: State)
    requires Inv(s) && Run(s, es, r) && SettledRun(s, es)
    ensures Inv(r)
    decreases |es|
  {
    if es != [] {
      StepKeeps(s, es[0]);
      RunKeeps(Do(s, es[0]), es[1..], r);
    }
  }

  /** No run ever hands out a wrong build: a snapshot that is complete is the fresh build of the commit
      that was resolved, or, without one, a build of some commit the repository has had; always of the
      application and CLI version that were asked for. */
  lemma {:induction false} CacheIsTransparent(es: seq<Event>, r: State, t: Tid)
    requires Run(INITIAL, es, r) && SettledRun(INITIAL, es) && t in r.jobs && r.jobs[t].Returned?
    requires r.jobs[t].content.Full?
    ensures var g := r.jobs[t];
      && (g.wanted.Some? ==> g.content == Full(g.url, g.cli, g.wanted.value))
      && g.content.url == g.url && g.content.cli == g.cli && Commit(g.url, g.content.sha) in r.pushed
  {
    RunKeeps(INITIAL, es, r);
    assert StageSound(r.jobs[t], r.pushed);
  }

  /** In every run, what a hit restores is the fresh build of the resolved commit exactly when the volume is
      there and complete. */
  lemma {:induction false} RestoreIff(es: seq<Event>, s: State, t: Tid)
    requires Run(INITIAL, es, s) && SettledRun(INITIAL, es) && Can(s, Restore(t, Copied))
    ensures var g := s.jobs[t];
      Copy(s.store, KeyOf(g)) == Full(g.url, g.cli, g.sha) <==> KeyOf(g) in s.store && s.store[KeyOf(g)].content.Full?
  {
    var g := s.jobs[t];
    RunKeeps(INITIAL, es, s);
    assert StageSound(g, s.pushed);
    if KeyOf(g) in s.store && s.store[KeyOf(g)].content.Full? {
      FullUnderKey(s.store, s.pushed, KeyOf(g), g.url, g.cli, g.sha);
    }
  }

  /** What the fallback restores is the build of its volume's label, of the application and CLI version that
      were asked for, exactly when the volume is still there and complete. */
  lemma {:induction false} FallbackIff(es: seq<Event>, s: State, t: Tid)
    requires Run(INITIAL, es, s) && SettledRun(INITIAL, es) && Can(s, RestoreFallback(t, Copied))
    ensures var g := s.jobs[t];
      Copy(s.store, g.from) == Full(g.url, g.cli, g.sha) && Commit(g.url, g.sha) in s.pushed <==>
      g.from in s.store && s.store[g.from].content.Full?
  {
    var g := s.jobs[t];
    RunKeeps(INITIAL, es, s);
    assert StageSound(g, s.pushed);
    if g.from in s.store && s.store[g.from].content.Full? {
      FullUnderKey(s.store, s.pushed, g.from, g.url, g.cli, g.sha);
    }
  }
}
