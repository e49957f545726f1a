/** Eviction of an application's oldest cache volumes. */
module Eviction {
  import opened Collections
  import opened BuildCache

  predicate OfApp(v: Volume, url: Url) {
    v.tag.Some? && v.tag.value.url == url
  }

  function AppVolumes(store: Store, url: Url): set<string> {
    set n | n in store && OfApp(store[n], url)
  }

  function Age(store: Store, n: string): int {
    if n in store && store[n].tag.Some? then store[n].tag.value.builtAt else 0
  }

  /** names is a listing of the application's volumes, in whatever order Docker gives. */
  predicate Lists(store: Store, url: Url, names: seq<string>) {
    NoRepeats(names) && Elements(names) == AppVolumes(store, url)
  }

  /** The library's stable sort, by age. */
  function Insert(store: Store, n: string, xs: seq<string>): seq<string> {
    if xs == [] || Age(store, n) <= Age(store, xs[0]) then [n] + xs
    else [xs[0]] + Insert(store, n, xs[1..])
  }

  function Sort(store: Store, xs: seq<string>): seq<string> {
    if xs == [] then [] else Insert(store, xs[0], Sort(store, xs[1..]))
  }

  predicate Ascending(store: Store, xs: seq<string>) {
    forall i, j :: 0 <= i < j < |xs| ==> Age(store, xs[i]) <= Age(store, xs[j])
  }

  lemma {:induction false} InsertPermutes(store: Store, n: string, xs: seq<string>)
    ensures multiset(Insert(store, n, xs)) == multiset(xs) + multiset{n}
    decreases |xs|
  {
    if xs != [] && Age(store, n) > Age(store, xs[0]) {
      InsertPermutes(store, n, xs[1..]);
      assert xs == [xs[0]] + xs[1..];
    }
  }

  lemma {:induction false} SortPermutes(store: Store, xs: seq<string>)
    ensures multiset(Sort(store, xs)) == multiset(xs)
    decreases |xs|
  {
    if xs != [] {
      SortPermutes(store, xs[1..]);
      InsertPermutes(store, xs[0], Sort(store, xs[1..]));
      assert xs == [xs[0]] + xs[1..];
    }
  }

  /** Every element of xs is at least that old. */
  predicate AllFrom(store: Store, bound: int, xs: seq<string>) {
    forall i :: 0 <= i < |xs| ==> bound <= Age(store, xs[i])
  }

  lemma ConsBounds(store: Store, bound: int, x: string, xs: seq<string>)
    requires bound <= Age(store, x) && AllFrom(store, bound, xs)
    ensures AllFrom(store, bound, [x] + xs)
  {
    var r := [x] + xs;
    forall i | 0 <= i < |r| ensures bound <= Age(store, r[i]) { if i > 0 { assert r[i] == xs[i - 1]; } }
  }

  lemma {:induction false} InsertSorts(store: Store, n: string, xs: seq<string>, bound: int)
    requires Ascending(store, xs) && AllFrom(store, bound, xs) && bound <= Age(store, n)
    ensures Ascending(store, Insert(store, n, xs)) && AllFrom(store, bound, Insert(store, n, xs))
    decreases |xs|
  {
    if xs == [] || Age(store, n) <= Age(store, xs[0]) {
      ConsBounds(store, bound, n, xs);
    } else {
      InsertSorts(store, n, xs[1..], Age(store, xs[0]));
    }
  }

  lemma {:induction false} SortSorts(store: Store, xs: seq<string>)
    ensures Ascending(store, Sort(store, xs))
    decreases |xs|
  {
    if xs != [] {
      SortSorts(store, xs[1..]);
      var rest := Sort(store, xs[1..]);
      var bound := if rest == [] then Age(store, xs[0]) else Min(Age(store, xs[0]), Age(store, rest[0]));
      InsertSorts(store, xs[0], rest, bound);
    }
  }

  /** The volumes to remove: the oldest ones beyond keepN, all of them if keepN is not positive. */
  function ToEvict(store: Store, names: seq<string>, keepN: int): seq<string> {
    var sorted := Sort(store, names);
    if |names| <= keepN then []
    else if keepN <= 0 || |sorted| < keepN then sorted
    else sorted[..|sorted| - keepN]
  }

  function Evicted(store: Store, names: seq<string>, keepN: int, stuck: set<string>): Store {
    store - (Elements(ToEvict(store, names, keepN)) - stuck)
  }

  lemma SameElements(xs: seq<string>, ys: seq<string>)
    requires multiset(xs) == multiset(ys)
    ensures Elements(xs) == Elements(ys)
  {
    forall x ensures x in xs <==> x in ys {
      assert x in xs <==> x in multiset(xs);
      assert x in ys <==> x in multiset(ys);
    }
  }

  /** The sorted listing has the same volumes, each once. */
  lemma {:induction false} SortLists(store: Store, url: Url, names: seq<string>)
    requires Lists(store, url, names)
    ensures Lists(store, url, Sort(store, names)) && |Sort(store, names)| == |names| == |AppVolumes(store, url)|
  {
    SortPermutes(store, names);
    SameElements(names, Sort(store, names));
    NoRepeatsIff(names);
    assert |multiset(Sort(store, names))| == |multiset(names)|;
    NoRepeatsIff(Sort(store, names));
  }

  lemma EvictCount(store: Store, url: Url, names: seq<string>, keepN: int)
    requires Lists(store, url, names)
    ensures var out := Elements(ToEvict(store, names, keepN));
      out <= AppVolumes(store, url) && |out| == |names| - Min(|names|, Max(keepN, 0))
  {
    SortLists(store, url, names);
    var sorted := Sort(store, names);
    var out := ToEvict(store, names, keepN);
    if |names| <= keepN {
      assert Elements(out) == {};
    } else {
      NoRepeatsIff(out);
      assert Elements(out) <= Elements(sorted);
    }
  }

  lemma KeptAreNewer(store: Store, url: Url, names: seq<string>, keepN: int, gone: string, kept: string)
    requires Lists(store, url, names)
    requires gone in ToEvict(store, names, keepN)
    requires kept in AppVolumes(store, url) && kept !in ToEvict(store, names, keepN)
    ensures Age(store, gone) <= Age(store, kept)
  {
    SortLists(store, url, names);
    SortSorts(store, names);
    var sorted := Sort(store, names);
    var out := ToEvict(store, names, keepN);
    assert kept in sorted;
    var j :| 0 <= j < |sorted| && sorted[j] == kept;
    var i :| 0 <= i < |out| && out[i] == gone;
    assert sorted[i] == out[i];
    forall k | 0 <= k < |out| ensures sorted[k] != kept { assert sorted[k] == out[k] && out[k] in out; }
  }

  /** Whatever removals fail: a volume stays exactly if its removal fails or it would stay without failures, and
      only volumes labelled with the application ever go. */
  lemma EvictedIff(store: Store, url: Url, names: seq<string>, keepN: int, stuck: set<string>, n: string)
    requires Lists(store, url, names) && n in store
    ensures n in Evicted(store, names, keepN, stuck) <==> n in stuck || n in Evicted(store, names, keepN, {})
    ensures store[n].tag.None? || store[n].tag.value.url != url ==> n in Evicted(store, names, keepN, stuck)
  {
    EvictCount(store, url, names, keepN);
  }

  predicate StrictlyNewest(store: Store, url: Url, n: string) {
    n in AppVolumes(store, url) && forall m :: m in AppVolumes(store, url) && m != n ==> Age(store, m) < Age(store, n)
  }

  /** When the removals succeed: exactly min(n, keepN) volumes of the application remain, none older than
      one that went; no other volume is touched; and a volume strictly newer than all others of the
      application remains if keepN is at least one. */
  lemma EvictionKeepsNewest(store: Store, url: Url, names: seq<string>, keepN: int)
    requires Lists(store, url, names)
    ensures var t := Evicted(store, names, keepN, {});
      && |AppVolumes(t, url)| == Min(|AppVolumes(store, url)|, Max(keepN, 0))
      && (forall n :: n in store && !OfApp(store[n], url) ==> n in t)
      && (forall n :: n in t ==> n in store && t[n] == store[n])
      && (forall a, b :: a in store && a !in t && b in AppVolumes(t, url) ==> Age(store, a) <= Age(store, b))
      && (forall n :: StrictlyNewest(store, url, n) && keepN >= 1 ==> n in t)
  {
    var out := Elements(ToEvict(store, names, keepN));
    var t := Evicted(store, names, keepN, {});
    EvictCount(store, url, names, keepN);
    NoRepeatsIff(names);
    assert out - {} == out;
    assert AppVolumes(t, url) == AppVolumes(store, url) - out;
    forall a, b | a in store && a !in t && b in AppVolumes(t, url) ensures Age(store, a) <= Age(store, b) {
      KeptAreNewer(store, url, names, keepN, a, b);
    }
    forall n | StrictlyNewest(store, url, n) && keepN >= 1 ensures n in t {
      NewestStays(store, url, names, keepN, n);
    }
  }

  lemma NewestStays(store: Store, url: Url, names: seq<string>, keepN: int, n: string)
    requires Lists(store, url, names) && StrictlyNewest(store, url, n) && keepN >= 1
    ensures n !in ToEvict(store, names, keepN)
  {
    assert AtLeastAsNew(store, url, n) == {};
    if n in ToEvict(store, names, keepN) { EvictedIsOld(store, url, names, keepN, n); }
  }

  /** The other volumes of the application that are at least as new. */
  function AtLeastAsNew(store: Store, url: Url, n: string): set<string> {
    set m | m in AppVolumes(store, url) && m != n && n in AppVolumes(store, url)
      && store[n].tag.value.builtAt <= store[m].tag.value.builtAt
  }

  lemma EvictedIsOld(store: Store, url: Url, names: seq<string>, keepN: int, n: string)
    requires Lists(store, url, names) && n in ToEvict(store, names, keepN)
    ensures keepN <= |AtLeastAsNew(store, url, n)|
  {
    EvictCount(store, url, names, keepN);
    NoRepeatsIff(names);
    var out := Elements(ToEvict(store, names, keepN));
    var kept := AppVolumes(store, url) - out;
    assert |kept| == |AppVolumes(store, url)| - |out| by { assert out + kept == AppVolumes(store, url); }
    forall m | m in kept ensures m in AtLeastAsNew(store, url, n) { KeptAreNewer(store, url, names, keepN, n, m); }
    Subset(kept, AtLeastAsNew(store, url, n));
  }

  lemma Subset(a: set<string>, b: set<string>)
    requires a <= b
    ensures |a| <= |b|
  {
    assert b == a + (b - a);
  }

  /** What is inserted comes before everything at least as new. */
  lemma {:induction false} InsertedAt(store: Store, n: string, xs: seq<string>) returns (p: nat)
    ensures p < |Insert(store, n, xs)| && Insert(store, n, xs)[p] == n
    ensures forall i :: 0 <= i < p ==> Age(store, Insert(store, n, xs)[i]) < Age(store, n)
    decreases |xs|
  {
    if xs == [] || Age(store, n) <= Age(store, xs[0]) {
      p := 0;
    } else {
      p := InsertedAt(store, n, xs[1..]);
      p := p + 1;
    }
  }

  /** Listed first, a volume goes if keepN others are at least as new. */
  lemma FirstListedGoes(store: Store, url: Url, n: string, rest: seq<string>, keepN: int)
    requires Lists(store, url, [n] + rest) && keepN <= |AtLeastAsNew(store, url, n)|
    ensures n in ToEvict(store, [n] + rest, keepN)
  {
    var names := [n] + rest;
    assert names[1..] == rest;
    SortLists(store, url, names);
    var sorted := Sort(store, names);
    var p := InsertedAt(store, n, Sort(store, rest));
    assert sorted[p] == n;
    forall m | m in AtLeastAsNew(store, url, n) ensures m in sorted[p + 1..] {
      assert m in Elements(sorted);
      var j :| 0 <= j < |sorted| && sorted[j] == m;
      assert j > p;
      assert sorted[p + 1..][j - (p + 1)] == m;
    }
    Subset(AtLeastAsNew(store, url, n), Elements(sorted[p + 1..]));
    ElementsBound(sorted[p + 1..]);
    assert keepN <= |sorted| - p - 1;
    if 0 < keepN { assert sorted[..|sorted| - keepN][p] == n; }
  }

  /** A volume survives whatever order Docker lists them in exactly when fewer than keepN others of its
      application are at least as new. */
  lemma SurvivesIff(store: Store, url: Url, keepN: int, n: string)
    requires n in AppVolumes(store, url)
    ensures (forall names :: Lists(store, url, names) ==> n in Evicted(store, names, keepN, {})) <==>
      |AtLeastAsNew(store, url, n)| < keepN
  {
    if |AtLeastAsNew(store, url, n)| < keepN {
      forall names | Lists(store, url, names) ensures n in Evicted(store, names, keepN, {}) {
        if n in ToEvict(store, names, keepN) { EvictedIsOld(store, url, names, keepN, n); }
      }
    } else {
      var rest := Listing(AppVolumes(store, url) - {n});
      OneMore(n, rest);
      assert Lists(store, url, [n] + rest);
      FirstListedGoes(store, url, n, rest, keepN);
    }
  }

  /** So of two volumes stored in the same second, the one listed first goes, which may be the
      one just saved. */
  lemma TieEvictsEither(url: Url, a: string, b: string, v: Volume)
    requires a != b && OfApp(v, url)
    ensures var store := map[a := v, b := v];
      && Lists(store, url, [a, b]) && a !in Evicted(store, [a, b], 1, {})
      && Lists(store, url, [b, a]) && b !in Evicted(store, [b, a], 1, {})
  {
    var store := map[a := v, b := v];
    TieOut(store, a, b);
    TieOut(store, b, a);
  }

  lemma TieOut(store: Store, a: string, b: string)
    requires Age(store, a) == Age(store, b)
    ensures ToEvict(store, [a, b], 1) == [a]
  {
    assert [a, b][1..] == [b] && [b][1..] == [];
    assert Sort(store, []) == [];
    assert Sort(store, [b]) == [b];
    assert Sort(store, [a, b]) == [a, b];
  }
}
