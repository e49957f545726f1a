/** The provisioner's build cache as the object it is, one request at a time, proved against the
    specifications. The network, the build and the copies are parameters of a call; so is what Docker
    answers to a listing. */
module BuildCacheObjects {
  import opened Wrappers
  import opened Collections
  import opened BuildCache
  import opened Eviction

  /** What the world does during one request: what ls-remote answers, what the clone finds, the listing of
      volumes Docker gives (None when it raises), and which of the steps succeed. */
  datatype World = World(
    resolved: Option<Sha>, cloned: Sha, builds: bool, volumeCreated: bool, copiesIn: bool, copiesOut: bool,
    now: int, listing: Option<seq<string>>, stuck: set<string>)

  /** Every volume holds the build that its name and its labels say. */
  predicate Clean(store: Store) {
    forall k :: k in store ==> CleanVolume(k, store[k])
  }

  /** The cache with a labelled volume for that commit. */
  function WithBuild(store: Store, url: Url, cli: Cli, sha: Sha, now: int, c: Content): Store {
    store[RawKey(url, cli, sha) := Volume(c, Some(Label(url, cli, sha, now)))]
  }

  predicate CleanVolume(k: string, v: Volume) {
    && v.content.Full? && |v.content.sha| == 40 && NoColon(v.content.cli)
    && k == RawKey(v.content.url, v.content.cli, v.content.sha)
    && (v.tag.Some? ==>
          Full(v.tag.value.url, v.tag.value.cli, v.tag.value.sha) == v.content)
  }

  class Provisioner {
    var store: Store
    const keep: int

    constructor (keep: int)
      ensures this.keep == keep && store == map[]
    {
      this.keep, store := keep, map[];
    }

    /** `_find_latest_cache_volume_sync`; the listing may come in any order, and finds nothing if it raises. */
    method FindLatest(url: Url, cli: Cli, listed: Option<seq<string>>) returns (found: Option<string>)
      requires listed.Some? ==> forall n :: n in listed.value <==> n in store && Offers(store[n], url, cli)
      ensures found.Some? ==> listed.Some? && Latest(store, url, cli, found.value)
      ensures found.None? ==> listed.None? || NoneOffers(store, url, cli)
    {
      found := None;
      if listed.None? { return; }
      var listing := listed.value;
      for i := 0 to |listing|
        invariant found.None? ==> i == 0
        invariant found.Some? ==> found.value in listing
        invariant found.Some? ==> forall j :: 0 <= j < i ==> Age(store, listing[j]) <= Age(store, found.value)
      {
        if found.None? || Age(store, listing[i]) > Age(store, found.value) {
          found := Some(listing[i]);
        }
      }
      if found.Some? {
        forall n | n in store && Offers(store[n], url, cli) ensures Age(store, n) <= Age(store, found.value) {
          assert n in listing;
        }
      }
    }

    /** `_evict_old_build_cache_sync`: a listing that raises ends it; removals of the names in stuck fail and
        are only logged. */
    method EvictOld(url: Url, keepN: int, listed: Option<seq<string>>, stuck: set<string>)
      requires listed.Some? ==> Lists(store, url, listed.value)
      modifies this`store
      ensures store == if listed.Some? then Evicted(old(store), listed.value, keepN, stuck) else old(store)
    {
      if listed.None? { return; }
      var listing := listed.value;
      if |listing| <= keepN {
        assert Elements<string>([]) - stuck == {};
        return;
      }
      var toEvict := ToEvict(store, listing, keepN);
      for i := 0 to |toEvict|
        invariant store == old(store) - (Elements(toEvict[..i]) - stuck)
      {
        assert toEvict[..i + 1] == toEvict[..i] + [toEvict[i]];
        if toEvict[i] !in stuck { store := store - {toEvict[i]}; }
      }
      assert toEvict[..|toEvict|] == toEvict;
    }

    /** `_save_snapshot_to_cache_sync`: a copy that fails raises, with the labelled volume left behind. */
    method SaveSnapshot(key: string, l: Label, built: Content, w: World) returns (saved: bool)
      modifies this`store
      ensures saved <==> w.volumeCreated && w.copiesIn
      ensures store == if !w.volumeCreated then old(store) - {key}
                       else old(store)[key := Volume(if w.copiesIn then built else Partial, Some(l))]
    {
      store := store - {key};
      if !w.volumeCreated { return false; }
      store := store[key := Volume(Partial, Some(l))];
      if !w.copiesIn { return false; }
      store := store[key := Volume(built, Some(l))];
      return true;
    }

    /** `_get_or_build_app_sync`. None stands for an exception. */
    method GetOrBuildApp(url: Url, cli: Cli, w: World) returns (snapshot: Option<Content>)
      requires w.resolved.Some? ==> |w.resolved.value| == 40
      requires w.resolved.None? && w.listing.Some? ==>
        forall n :: n in w.listing.value <==> n in store && Offers(store[n], url, cli)
      requires w.resolved.Some? && w.listing.Some? ==>
        Lists(WithBuild(store, url, cli, w.resolved.value, w.now, Full(url, cli, w.cloned)), url, w.listing.value)
      modifies this`store
      // Unresolved: a most recent volume of the application and CLI version, or a fresh build if there is
      // none or the volumes cannot be listed.
      ensures w.resolved.None? ==> store == old(store)
      ensures w.resolved.None? && (w.listing.None? || NoneOffers(store, url, cli)) ==>
        snapshot == if w.builds then Some(Full(url, cli, w.cloned)) else None
      ensures w.resolved.None? && w.listing.Some? && !NoneOffers(store, url, cli) ==>
        exists n :: Latest(store, url, cli, n) && snapshot == if w.copiesOut then Some(store[n].content) else None
      // Hit: what the volume holds, and nothing is built.
      ensures w.resolved.Some? && RawKey(url, cli, w.resolved.value) in old(store) ==>
        && store == old(store)
        && snapshot == if w.copiesOut then Some(store[RawKey(url, cli, w.resolved.value)].content) else None
      // Miss: a fresh build, saved if the copy succeeds, with the oldest volumes evicted after it.
      ensures w.resolved.Some? && RawKey(url, cli, w.resolved.value) !in old(store) ==>
        var built := Full(url, cli, w.cloned);
        && snapshot == (if w.builds then Some(built) else None)
        && store == if !w.builds || !w.volumeCreated then old(store)
                    else if !w.copiesIn then WithBuild(old(store), url, cli, w.resolved.value, w.now, Partial)
                    else if w.listing.None? then WithBuild(old(store), url, cli, w.resolved.value, w.now, built)
                    else Evicted(WithBuild(old(store), url, cli, w.resolved.value, w.now, built), w.listing.value,
                      keep, w.stuck)
    {
      if w.resolved.None? {
        var fallback := FindLatest(url, cli, w.listing);
        if fallback.Some? {
          assert Latest(store, url, cli, fallback.value);
          return if w.copiesOut then Some(store[fallback.value].content) else None;
        }
        return if w.builds then Some(Full(url, cli, w.cloned)) else None;
      }
      var sha := w.resolved.value;
      var key := RawKey(url, cli, sha);
      if key in store {
        return if w.copiesOut then Some(store[key].content) else None;
      }
      if !w.builds { return None; }
      var built := Full(url, cli, w.cloned);
      assert store - {key} == store;
      var saved := SaveSnapshot(key, Label(url, cli, sha, w.now), built, w);
      if saved { EvictOld(url, keep, w.listing, w.stuck); }
      return Some(built);
    }
  }

  /** A saved build is the one the fallback takes, if the clock has not gone back behind the application's other
      builds of that CLI version. */
  lemma SavedIsLatest(store: Store, url: Url, cli: Cli, sha: Sha, now: int, c: Content)
    requires forall n :: n in store && Offers(store[n], url, cli) ==> store[n].tag.value.builtAt <= now
    ensures Latest(WithBuild(store, url, cli, sha, now, c), url, cli, RawKey(url, cli, sha))
    ensures WithBuild(store, url, cli, sha, now, c)[RawKey(url, cli, sha)].tag.value.builtAt == now
  {}

  /** A hit in a clean cache is the fresh build of the resolved commit. */
  lemma HitOfCleanIsFresh(store: Store, url: Url, cli: Cli, sha: Sha)
    requires Clean(store) && |sha| == 40 && NoColon(cli) && RawKey(url, cli, sha) in store
    ensures store[RawKey(url, cli, sha)].content == Full(url, cli, sha)
  {
    var c := store[RawKey(url, cli, sha)].content;
    assert CleanVolume(RawKey(url, cli, sha), store[RawKey(url, cli, sha)]);
    KeysAreInjective(url, cli, sha, c.url, c.cli, c.sha);
  }

  /** A clean cache stays clean when a build is saved and old volumes are evicted, as long as the repository
      did not move and the copy into the cache succeeded. */
  lemma SavingKeepsClean(store: Store, url: Url, cli: Cli, sha: Sha, now: int, names: seq<string>, keep: int,
      stuck: set<string>)
    requires Clean(store) && |sha| == 40 && NoColon(cli)
    ensures Clean(WithBuild(store, url, cli, sha, now, Full(url, cli, sha)))
    ensures Clean(Evicted(WithBuild(store, url, cli, sha, now, Full(url, cli, sha)), names, keep, stuck))
  {
    var saved := WithBuild(store, url, cli, sha, now, Full(url, cli, sha));
    assert Clean(saved);
    forall k | k in Evicted(saved, names, keep, stuck) ensures CleanVolume(k, saved[k]) {}
  }
}
