/** The Anvil state cache: a state file and an address sidecar per key, each written to a temporary file and
    renamed into place. A save may stop after any step. */
module AnvilCache {
  import opened Wrappers

  type SaveId = nat

  /** What a file holds: the state dump or the addresses of one save, or an unfinished write. */
  datatype File = Dump(save: SaveId) | Sidecar(save: SaveId) | Torn

  /** The four files of one key. */
  datatype Dir = Dir(state: Option<File>, stateTmp: Option<File>, addrs: Option<File>, addrsTmp: Option<File>)

  const EMPTY := Dir(None, None, None, None)

  /** The sidecar decides, once both files exist; the state file itself is not looked at. */
  function Lookup(d: Dir): Option<SaveId> {
    if d.state.Some? && d.addrs.Some? && d.addrs.value.Sidecar? then Some(d.addrs.value.save) else None
  }

  /** A hit takes both files and a sidecar that can be read; whatever the state file holds. */
  lemma HitsIff(d: Dir)
    ensures Lookup(d).Some? <==> d.state.Some? && d.addrs.Some? && exists s :: d.addrs.value == Sidecar(s)
    ensures Lookup(d).Some? ==> d.addrs == Some(Sidecar(Lookup(d).value))
  {
    if Lookup(d).Some? { assert d.addrs.value == Sidecar(d.addrs.value.save); }
  }

  predicate Matched(d: Dir, s: SaveId) {
    d.state == Some(Dump(s)) && d.addrs == Some(Sidecar(s))
  }

  const STEPS: nat := 6

  /** Step i of a save. A rename takes whatever the temporary file holds. */
  function SaveStep(d: Dir, s: SaveId, i: nat): Dir
    requires i < STEPS
  {
    if i == 0 then d.(stateTmp := Some(Torn))
    else if i == 1 then d.(stateTmp := Some(Dump(s)))
    else if i == 2 then d.(state := d.stateTmp, stateTmp := None)
    else if i == 3 then d.(addrsTmp := Some(Torn))
    else if i == 4 then d.(addrsTmp := Some(Sidecar(s)))
    else d.(addrs := d.addrsTmp, addrsTmp := None)
  }

  /** A rename of a missing temporary file raises. */
  predicate Possible(d: Dir, i: nat) {
    (i == 2 ==> d.stateTmp.Some?) && (i == 5 ==> d.addrsTmp.Some?)
  }

  /** saving: the saves under way, with their next step; finished: those that took all six. */
  datatype State = State(dir: Dir, saving: map<SaveId, nat>, used: set<SaveId>, finished: set<SaveId>)

  const INITIAL := State(EMPTY, map[], {}, {})

  /** A provision looks the key up, and begins a save on a miss. */
  datatype Event = Provision(s: SaveId) | Step(s: SaveId) | Stop(s: SaveId)

  predicate Can(st: State, e: Event) {
    match e
    case Provision(s) => s !in st.used
    case Step(s) => s in st.saving && st.saving[s] < STEPS && Possible(st.dir, st.saving[s])
    case Stop(s) => s in st.saving
  }

  function Do(st: State, e: Event): State
    requires Can(st, e)
  {
    match e
    case Provision(s) =>
      st.(saving := if Lookup(st.dir).None? then st.saving[s := 0] else st.saving, used := st.used + {s})
    case Step(s) =>
      var i := st.saving[s];
      State(SaveStep(st.dir, s, i),
            if i + 1 == STEPS then st.saving - {s} else st.saving[s := i + 1],
            st.used, if i + 1 == STEPS then st.finished + {s} else st.finished)
    case Stop(s) => st.(saving := st.saving - {s})
  }

  predicate Run(st: State, es: seq<Event>, t: State)
    decreases |es|
  {
    if es == [] then st == t else Can(st, es[0]) && Run(Do(st, es[0]), es[1..], t)
  }

  /** No provision misses while a save is under way. */
  predicate OneWriter(st: State, es: seq<Event>)
    decreases |es|
  {
    es != [] && Can(st, es[0]) ==>
      (es[0].Provision? ==> st.saving == map[] || Lookup(st.dir).Some?) && OneWriter(Do(st, es[0]), es[1..])
  }

  /** What the files hold when save s has reached step i. */
  predicate Progress(d: Dir, s: SaveId, i: nat) {
    && d.addrs.None? && i < STEPS
    && (i == 2 ==> d.stateTmp == Some(Dump(s)))
    && (i >= 3 ==> d.state == Some(Dump(s)))
    && (i == 5 ==> d.addrsTmp == Some(Sidecar(s)))
  }

  predicate Inv(st: State) {
    && (forall s, u :: s in st.saving && u in st.saving ==> s == u)
    && (forall s :: s in st.saving ==> Progress(st.dir, s, st.saving[s]))
    && (st.dir.addrs.Some? ==> exists s :: s in st.finished && Matched(st.dir, s))
  }

  lemma StepKeeps(st: State, e: Event)
    requires Inv(st) && Can(st, e) && (e.Provision? ==> st.saving == map[] || Lookup(st.dir).Some?)
    ensures Inv(Do(st, e))
  {
    var t := Do(st, e);
    if t.dir.addrs.Some? {
      if st.dir.addrs.Some? {
        var s :| s in st.finished && Matched(st.dir, s);
        assert s in t.finished && Matched(t.dir, s);
      } else {
        assert e.s in t.finished && Matched(t.dir, e.s);
      }
    }
  }

  lemma {:induction false} RunKeeps(st: State, es: seq<Event>, t: State)
    requires Inv(st) && Run(st, es, t) && OneWriter(st, es)
    ensures Inv(t)
    decreases |es|
  {
    if es != [] {
      StepKeeps(st, es[0]);
      RunKeeps(Do(st, es[0]), es[1..], t);
    }
  }

  /** With one writer per key that saves only on a miss, wherever saves stop, the lookup finds nothing or a
      state and sidecar of one finished save. */
  lemma {:induction false} LookupIsMatched(es: seq<Event>, t: State)
    requires Run(INITIAL, es, t) && OneWriter(INITIAL, es)
    ensures Lookup(t.dir).Some? ==> Lookup(t.dir).value in t.finished && Matched(t.dir, Lookup(t.dir).value)
  {
    RunKeeps(INITIAL, es, t);
  }

  /** And once it has found a pair it finds that pair ever after, through every later provision. */
  lemma {:induction false} HitIsStable(st: State, es: seq<Event>, t: State)
    requires Inv(st) && Lookup(st.dir).Some? && Run(st, es, t) && OneWriter(st, es)
    ensures t.dir == st.dir
    decreases |es|
  {
    if es != [] {
      StepKeeps(st, es[0]);
      HitIsStable(Do(st, es[0]), es[1..], t);
    }
  }

  // ---- The condition is exact ----

  /** What is found is the state and the sidecar of one save. */
  predicate FoundIsMatched(d: Dir) {
    Lookup(d).Some? ==> Matched(d, Lookup(d).value)
  }

  /** It stays so however the run goes on, as long as no further provision overlaps. */
  ghost predicate StaysMatched(st: State) {
    forall es, t :: Run(st, es, t) && OneWriter(st, es) ==> FoundIsMatched(t.dir)
  }

  lemma StepFirst(st: State, e: Event, es: seq<Event>, t: State)
    requires Can(st, e) && Run(Do(st, e), es, t)
    ensures Run(st, [e] + es, t)
    ensures !e.Provision? && OneWriter(Do(st, e), es) ==> OneWriter(st, [e] + es)
  {
    assert ([e] + es)[1..] == es;
  }

  /** Two saves under way, the second not begun: the first can go on up to its last rename. */
  lemma {:induction false} ToLastRename(st: State, s: SaveId, b: SaveId) returns (es: seq<Event>, t: State)
    requires s in st.saving && b in st.saving && s != b && st.saving[b] == 0 && Progress(st.dir, s, st.saving[s])
    ensures Run(st, es, t) && OneWriter(st, es)
    ensures s in t.saving && t.saving[s] == 5 && b in t.saving && t.saving[b] == 0 && Progress(t.dir, s, 5)
    decreases 5 - st.saving[s]
  {
    if st.saving[s] == 5 {
      es, t := [], st;
    } else {
      var rest;
      rest, t := ToLastRename(Do(st, Step(s)), s, b);
      StepFirst(st, Step(s), rest, t);
      es := [Step(s)] + rest;
    }
  }

  /** Then the second renames its state file into place, and the first its sidecar. */
  lemma LastRenameComesLate(st: State, s: SaveId, b: SaveId) returns (es: seq<Event>, t: State)
    requires s in st.saving && b in st.saving && s != b && st.saving[b] == 0
    requires st.saving[s] == 5 && Progress(st.dir, s, 5)
    ensures Run(st, es, t) && OneWriter(st, es)
    ensures Lookup(t.dir) == Some(s) && t.dir.state == Some(Dump(b)) && s in t.finished
  {
    var x := Do(st, Step(b));
    var y := Do(x, Step(b));
    var z := Do(y, Step(b));
    t := Do(z, Step(s));
    StepFirst(z, Step(s), [], t);
    StepFirst(y, Step(b), [Step(s)] + [], t);
    StepFirst(x, Step(b), [Step(b)] + ([Step(s)] + []), t);
    StepFirst(st, Step(b), [Step(b)] + ([Step(b)] + ([Step(s)] + [])), t);
    es := [Step(b)] + ([Step(b)] + ([Step(b)] + ([Step(s)] + [])));
  }

  lemma {:induction false} RunsCompose(st: State, es: seq<Event>, t: State, fs: seq<Event>, u: State)
    requires Run(st, es, t) && Run(t, fs, u)
    ensures Run(st, es + fs, u)
    ensures OneWriter(st, es) && OneWriter(t, fs) ==> OneWriter(st, es + fs)
    decreases |es|
  {
    if es == [] {
      assert es + fs == fs;
    } else {
      RunsCompose(Do(st, es[0]), es[1..], t, fs, u);
      assert (es + fs)[1..] == es[1..] + fs;
    }
  }

  lemma Overtake(st: State, s: SaveId, b: SaveId) returns (es: seq<Event>, t: State)
    requires s in st.saving && b in st.saving && s != b && st.saving[b] == 0 && Progress(st.dir, s, st.saving[s])
    ensures Run(st, es, t) && OneWriter(st, es)
    ensures Lookup(t.dir) == Some(s) && t.dir.state == Some(Dump(b)) && s in t.finished
  {
    var fs, u := ToLastRename(st, s, b);
    var gs;
    gs, t := LastRenameComesLate(u, s, b);
    RunsCompose(st, fs, u, gs, t);
    es := fs + gs;
  }

  /** Wherever the saves before it have got to, a further provision leaves every pair that is found later
      matched exactly when it begins no save beside another: none is under way, or it hits. */
  lemma {:induction false} OverlapIff(es: seq<Event>, st: State, b: SaveId)
    requires Run(INITIAL, es, st) && OneWriter(INITIAL, es) && Can(st, Provision(b))
    ensures StaysMatched(Do(st, Provision(b))) <==> st.saving == map[] || Lookup(st.dir).Some?
  {
    RunKeeps(INITIAL, es, st);
    AllUsed(INITIAL, es, st);
    var u := Do(st, Provision(b));
    if st.saving == map[] || Lookup(st.dir).Some? {
      StepKeeps(st, Provision(b));
      forall fs, t | Run(u, fs, t) && OneWriter(u, fs) ensures FoundIsMatched(t.dir) { RunKeeps(u, fs, t); }
    } else {
      var s :| s in st.saving;
      var fs, t := Overtake(u, s, b);
      assert !FoundIsMatched(t.dir);
    }
  }

  lemma {:induction false} AllUsed(st: State, es: seq<Event>, t: State)
    requires Run(st, es, t) && st.saving.Keys <= st.used
    ensures t.saving.Keys <= t.used
    decreases |es|
  {
    if es != [] { AllUsed(Do(st, es[0]), es[1..], t); }
  }

  /** So two provisions that both miss can end with the sidecar of the one and the state of the other. */
  lemma TwoWritersMismatch() returns (es: seq<Event>, t: State)
    ensures Run(INITIAL, es, t) && |es| >= 2 && es[..2] == [Provision(0), Provision(1)]
    ensures Lookup(t.dir) == Some(0) && t.dir.state == Some(Dump(1)) && 0 in t.finished
  {
    var x := Do(INITIAL, Provision(0));
    var y := Do(x, Provision(1));
    es, t := Overtake(y, 0, 1);
    StepFirst(x, Provision(1), es, t);
    StepFirst(INITIAL, Provision(0), [Provision(1)] + es, t);
    es := [Provision(0)] + ([Provision(1)] + es);
  }

  /** A save needs its own temporary files: of two, the second to come to its rename finds that the first has
      taken it, and cannot go on. */
  lemma SecondRenameRaises() returns (es: seq<Event>, t: State)
    ensures Run(INITIAL, es, t) && 1 in t.saving && t.saving[1] == 2 && !Can(t, Step(1))
  {
    var s0 := Do(Do(INITIAL, Provision(0)), Provision(1));
    var s1 := Do(Do(s0, Step(0)), Step(0));
    var s2 := Do(Do(s1, Step(1)), Step(1));
    t := Do(s2, Step(0));
    es := [Step(0)];
    StepFirst(s2, Step(0), [], t);
    assert [Step(0)] + [] == [Step(0)];
    StepFirst(Do(s1, Step(1)), Step(1), es, t);
    StepFirst(s1, Step(1), [Step(1)] + es, t);
    es := [Step(1)] + ([Step(1)] + es);
    StepFirst(Do(s0, Step(0)), Step(0), es, t);
    StepFirst(s0, Step(0), [Step(0)] + es, t);
    es := [Step(0)] + ([Step(0)] + es);
    StepFirst(Do(INITIAL, Provision(0)), Provision(1), es, t);
    StepFirst(INITIAL, Provision(0), [Provision(1)] + es, t);
    es := [Provision(0)] + ([Provision(1)] + es);
  }

  /** And the same of the sidecar's. */
  lemma SecondSidecarRaises(st: State, a: SaveId, b: SaveId)
    requires a != b && a in st.saving && b in st.saving && st.saving[a] == st.saving[b] == 5 && Can(st, Step(a))
    ensures b in Do(st, Step(a)).saving && !Can(Do(st, Step(a)), Step(b))
  {}

  lemma {:induction false} SaveRuns(st: State, s: SaveId) returns (es: seq<Event>, t: State)
    requires s in st.saving && st.saving[s] < STEPS && Progress(st.dir, s, st.saving[s])
    ensures Run(st, es, t) && OneWriter(st, es)
    ensures Lookup(t.dir) == Some(s) && s in t.finished && s !in t.saving
    decreases STEPS - st.saving[s]
  {
    var u := Do(st, Step(s));
    if st.saving[s] == 5 {
      es, t := [Step(s)], u;
      StepFirst(st, Step(s), [], u);
      assert [Step(s)] + [] == [Step(s)];
    } else {
      var rest;
      rest, t := SaveRuns(u, s);
      StepFirst(st, Step(s), rest, t);
      es := [Step(s)] + rest;
    }
  }

  /** A save that stops, wherever it has got to, leaves a miss, and the next provision can save to the end and be
      found. */
  lemma {:induction false} StoppedIsRetried(es: seq<Event>, st: State, s: SaveId, b: SaveId)
      returns (fs: seq<Event>, t: State)
    requires Run(INITIAL, es, st) && OneWriter(INITIAL, es) && s in st.saving && Can(st, Provision(b))
    ensures Run(st, fs, t) && OneWriter(st, fs) && |fs| >= 2 && fs[..2] == [Stop(s), Provision(b)]
    ensures Lookup(t.dir) == Some(b) && b in t.finished && s !in t.finished && s !in t.saving
  {
    RunKeeps(INITIAL, es, st);
    AllUsed(INITIAL, es, st);
    UnfinishedIs(INITIAL, es, st);
    var u := Do(st, Stop(s));
    assert u.saving == map[];
    var v := Do(u, Provision(b));
    var rest;
    rest, t := SaveRuns(v, b);
    UnfinishedStays(v, rest, t, s);
    StepFirst(u, Provision(b), rest, t);
    assert OneWriter(u, [Provision(b)] + rest) by { assert ([Provision(b)] + rest)[1..] == rest; }
    StepFirst(st, Stop(s), [Provision(b)] + rest, t);
    fs := [Stop(s)] + ([Provision(b)] + rest);
    assert fs[0] == Stop(s) && fs[1] == Provision(b);
    assert fs[..2] == [Stop(s), Provision(b)];
  }

  /** A save under way is not finished. */
  lemma {:induction false} UnfinishedIs(st: State, es: seq<Event>, t: State)
    requires Run(st, es, t) && st.saving.Keys !! st.finished && st.saving.Keys + st.finished <= st.used
    ensures t.saving.Keys !! t.finished && t.saving.Keys + t.finished <= t.used
    decreases |es|
  {
    if es != [] { UnfinishedIs(Do(st, es[0]), es[1..], t); }
  }

  lemma {:induction false} UnfinishedStays(st: State, es: seq<Event>, t: State, s: SaveId)
    requires Run(st, es, t) && s in st.used && s !in st.saving && s !in st.finished
    ensures s !in t.saving && s !in t.finished
    decreases |es|
  {
    if es != [] { UnfinishedStays(Do(st, es[0]), es[1..], t, s); }
  }

  // ---- A save on its own ----

  /** One save that no other disturbs takes any directory to its own matched pair, if it is not stopped;
      stopped before its last step it leaves the sidecar as it was. */
  function Steps(d: Dir, s: SaveId, n: nat): Dir
    requires n <= STEPS
  {
    if n == 0 then d else SaveStep(Steps(d, s, n - 1), s, n - 1)
  }

  lemma {:induction false} StepsOutcome(d: Dir, s: SaveId, n: nat)
    requires n <= STEPS
    ensures n == STEPS ==> Matched(Steps(d, s, n), s) && Lookup(Steps(d, s, n)) == Some(s)
    ensures n < STEPS ==> Steps(d, s, n).addrs == d.addrs
    ensures n < 3 ==> Steps(d, s, n).state == d.state
    ensures 3 <= n ==> Steps(d, s, n).state == Some(Dump(s))
    ensures 0 < n < STEPS ==> Possible(Steps(d, s, n), n)
    ensures n == 1 ==> Steps(d, s, n).stateTmp == Some(Torn)
    ensures n == 4 ==> Steps(d, s, n).addrsTmp == Some(Torn)
    ensures 3 <= n ==> Steps(d, s, n).stateTmp == None
    ensures n == STEPS ==> Steps(d, s, n).addrsTmp == None
  {
    if n != 0 {
      StepsOutcome(d, s, n - 1);
      if n == 2 { assert Steps(d, s, 1).stateTmp == Some(Torn) by { assert Steps(d, s, 0) == d; } }
      if n == STEPS {
        assert Steps(d, s, 5) == SaveStep(Steps(d, s, 4), s, 4);
        assert Steps(d, s, 5).addrsTmp == Some(Sidecar(s));
      }
      if n == 3 {
        assert Steps(d, s, 2).stateTmp == Some(Dump(s)) by { assert Steps(d, s, 2) == SaveStep(Steps(d, s, 1), s, 1); }
      }
    }
  }

  /** A save that finds a pair in place, which another left since it missed, and stops between its renames
      pairs its state with the old sidecar. */
  lemma {:induction false} ResaveMismatch(d: Dir, a: SaveId, b: SaveId)
    requires Matched(d, a) && a != b
    ensures var t := Steps(d, b, 3); Lookup(t) == Some(a) && t.state == Some(Dump(b)) && !Matched(t, a)
  {
    StepsOutcome(d, b, 3);
  }

  // ---- Keys ----

  predicate Safe(c: char) {
    'A' <= c <= 'Z' || 'a' <= c <= 'z' || '0' <= c <= '9' || c == '.' || c == '_' || c == '-'
  }

  function Sanitize(s: string): (r: string)
    ensures |r| == |s|
  {
    seq(|s|, i requires 0 <= i < |s| => if Safe(s[i]) then s[i] else '_')
  }

  function VersionName(version: Option<string>): string {
    if version.None? || version.value == "" then "devnet" else version.value
  }

  function CacheKey(version: Option<string>, revision: string): string {
    Sanitize(VersionName(version) + ("-r" + revision))
  }

  /** Of two contract versions, the keys agree exactly when the names do once every character outside
      letters, digits and "._-" is an underscore; for names of safe characters, exactly when they are
      equal. */
  lemma KeysAgreeIff(a: Option<string>, b: Option<string>, revision: string)
    ensures CacheKey(a, revision) == CacheKey(b, revision) <==> Sanitize(VersionName(a)) == Sanitize(VersionName(b))
    ensures AllSafe(VersionName(a)) && AllSafe(VersionName(b)) ==>
      (CacheKey(a, revision) == CacheKey(b, revision) <==> VersionName(a) == VersionName(b))
  {
    var tail := "-r" + revision;
    SanitizeConcat(VersionName(a), tail);
    SanitizeConcat(VersionName(b), tail);
    SameTail(Sanitize(VersionName(a)), Sanitize(VersionName(b)), Sanitize(tail));
    SafeIsFixed(VersionName(a));
    SafeIsFixed(VersionName(b));
  }

  /** A missing or empty version is the devnet's; a version's keys for two revisions agree exactly when the
      revisions do once sanitised. */
  lemma RevisionsAgreeIff(version: Option<string>, r: string, q: string)
    ensures CacheKey(None, r) == CacheKey(Some(""), r) == CacheKey(Some("devnet"), r)
    ensures CacheKey(version, r) == CacheKey(version, q) <==> Sanitize(r) == Sanitize(q)
    ensures var k := CacheKey(version, r);
      |k| >= |r| && k[|k| - |r|..] == Sanitize(r)
  {
    var name := VersionName(version);
    SanitizeConcat(name, "-r" + r);
    SanitizeConcat(name, "-r" + q);
    SanitizeConcat("-r", r);
    SanitizeConcat("-r", q);
    SameHead(Sanitize(name) + Sanitize("-r"), Sanitize(r), Sanitize(q));
    assert CacheKey(version, r) == Sanitize(name) + Sanitize("-r") + Sanitize(r);
    assert CacheKey(version, q) == Sanitize(name) + Sanitize("-r") + Sanitize(q);
  }

  lemma SameHead(t: string, a: string, b: string)
    ensures t + a == t + b <==> a == b
  {
    assert (t + a)[|t|..] == a && (t + b)[|t|..] == b;
  }

  /** Sanitising leaves the ASCII digits and letters, "-", "." and "_", here by their codes, and turns every other
      character into an underscore. */
  lemma SanitizedIs(s: string, i: nat)
    requires i < |s|
    ensures AllSafe(Sanitize(s))
    ensures var c := s[i] as int;
      Sanitize(s)[i] == if 48 <= c <= 57 || 65 <= c <= 90 || 97 <= c <= 122 || c in {45, 46, 95} then s[i] else '_'
  {}

  /** Versions of safe characters that are not empty have the same key exactly when they are equal. */
  lemma VersionsAgreeIff(a: string, b: string, revision: string)
    requires a != "" && b != "" && AllSafe(a) && AllSafe(b)
    ensures CacheKey(Some(a), revision) == CacheKey(Some(b), revision) <==> a == b
    ensures CacheKey(Some(a), revision) == CacheKey(None, revision) <==> a == "devnet"
  {
    assert AllSafe("devnet");
    KeysAgreeIff(Some(a), Some(b), revision);
    KeysAgreeIff(Some(a), None, revision);
  }

  predicate AllSafe(s: string) {
    forall i :: 0 <= i < |s| ==> Safe(s[i])
  }

  lemma SafeIsFixed(s: string)
    ensures AllSafe(s) ==> Sanitize(s) == s
  {}

  lemma SanitizeConcat(a: string, b: string)
    ensures Sanitize(a + b) == Sanitize(a) + Sanitize(b)
  {}

  lemma SameTail(a: string, b: string, t: string)
    ensures a + t == b + t <==> a == b
  {
    if a + t == b + t {
      assert |a| == |b|;
      assert a == (a + t)[..|a|];
      assert b == (b + t)[..|a|];
    }
  }

  /** The directory of one key as the object it is. */
  class CacheDir {
    var dir: Dir

    constructor ()
      ensures dir == EMPTY
    {
      dir := EMPTY;
    }

    /** A save that stops after n steps. */
    method Save(s: SaveId, n: nat)
      requires n <= STEPS
      modifies this
      ensures dir == Steps(old(dir), s, n)
      ensures n == STEPS ==> Matched(dir, s)
    {
      for i := 0 to n
        invariant dir == Steps(old(dir), s, i)
      {
        StepsOutcome(old(dir), s, i);
        dir := SaveStep(dir, s, i);
      }
      StepsOutcome(old(dir), s, n);
    }
  }
}
