/** The verdict ledger: the log of tool invocations and the verdict rows that claim them. */
module Ledger {
  import opened Wrappers
  import opened Collections

  type Session = string
  type Slug = string

  const TRAIL_CAP: nat := 400

  /** The three tools that never belong to an execution trail, and all others. */
  datatype Tool = ReadTestDefinition | RecordTestVerdict | RecordTestPlan | Primitive(name: string)

  /** One row of the invocation log. Rows are named by their position, which is their order of creation. */
  datatype Invocation = Invocation(session: Session, tool: Tool, mutating: bool, slug: Option<Slug>,
    verdict: Option<nat>)

  datatype Judgement = Passed | Failed | Blocked | Skipped | Inconclusive

  datatype Row = Row(id: nat, verdict: Judgement, downgradedFrom: Option<Judgement>, steps: nat, mutating: nat,
    truncated: bool)

  datatype Key = Key(session: Session, slug: Slug)

  datatype Tables = Tables(log: seq<Invocation>, rows: map<Key, Row>, nextId: nat)

  const EMPTY := Tables([], map[], 0)

  predicate Eligible(i: Invocation) {
    i.tool.Primitive?
  }

  predicate Claimable(i: Invocation, sid: Session) {
    i.session == sid && i.verdict.None? && Eligible(i)
  }

  /** How many of the first n rows the session can still claim. */
  function Rank(log: seq<Invocation>, sid: Session, n: nat): (r: nat)
    requires n <= |log|
    ensures r <= n
  {
    if n == 0 then 0 else Rank(log, sid, n - 1) + if Claimable(log[n - 1], sid) then 1 else 0
  }

  /** Row i is among the first `limit` rows the session can claim. */
  predicate Among(log: seq<Invocation>, sid: Session, limit: nat, i: nat)
    requires i < |log|
  {
    Claimable(log[i], sid) && Rank(log, sid, i) < limit
  }

  /** The query of the claim: the first `limit` claimable rows out of the first n, in order. */
  function Picks(log: seq<Invocation>, sid: Session, limit: nat, n: nat): (r: seq<nat>)
    requires n <= |log|
    ensures forall k :: 0 <= k < |r| ==> r[k] < n
  {
    if n == 0 then []
    else Picks(log, sid, limit, n - 1) + if Among(log, sid, limit, n - 1) then [n - 1] else []
  }

  function CountMutating(log: seq<Invocation>, ids: seq<nat>): nat
    requires forall k :: 0 <= k < |ids| ==> ids[k] < |log|
  {
    if ids == [] then 0
    else CountMutating(log, ids[..|ids| - 1]) + if log[ids[|ids| - 1]].mutating then 1 else 0
  }

  function TrailIds(log: seq<Invocation>, sid: Session): (r: seq<nat>)
    ensures forall k :: 0 <= k < |r| ==> r[k] < |log|
  {
    Picks(log, sid, TRAIL_CAP, |log|)
  }

  function Unclaimed(log: seq<Invocation>, sid: Session): nat {
    Rank(log, sid, |log|)
  }

  lemma {:induction false} PicksMember(log: seq<Invocation>, sid: Session, limit: nat, n: nat, i: nat)
    requires n <= |log|
    ensures i in Picks(log, sid, limit, n) <==> i < n && Among(log, sid, limit, i)
    decreases n
  {
    if n != 0 {
      PicksMember(log, sid, limit, n - 1, i);
    }
  }

  lemma {:induction false} PicksSize(log: seq<Invocation>, sid: Session, limit: nat, n: nat)
    requires n <= |log|
    ensures |Picks(log, sid, limit, n)| == Min(limit, Rank(log, sid, n))
    decreases n
  {
    if n != 0 { PicksSize(log, sid, limit, n - 1); }
  }

  /** Fetching one row more than the cap and dropping it is fetching up to the cap. */
  lemma {:induction false} CutPicks(log: seq<Invocation>, sid: Session, limit: nat, n: nat)
    requires n <= |log|
    ensures var more := Picks(log, sid, limit + 1, n);
      Picks(log, sid, limit, n) == if |more| > limit then more[..limit] else more
    decreases n
  {
    if n != 0 {
      CutPicks(log, sid, limit, n - 1);
      PicksSize(log, sid, limit + 1, n - 1);
      PicksSize(log, sid, limit, n - 1);
    }
  }

  lemma {:induction false} RankMono(log: seq<Invocation>, sid: Session, i: nat, j: nat)
    requires i <= j <= |log|
    ensures Rank(log, sid, i) <= Rank(log, sid, j)
    decreases j
  {
    if i < j { RankMono(log, sid, i, j - 1); }
  }

  // ---- Recording a verdict ----

  /** How the database behaves during one recording. */
  datatype Db = Works | NoPool | ClaimRaises | TransactionRaises

  datatype Response =
    | Stored(id: nat, slug: Slug, verdict: Judgement, steps: nat, downgradedFrom: Option<Judgement>)
    | Refused
    | Crashed

  /** Nothing but white space, which is what `str.strip` drops. */
  predicate Blank(s: string) {
    forall i :: 0 <= i < |s| ==> s[i] == ' ' || '\t' <= s[i] <= '\r' || '\U{1C}' <= s[i] <= '\U{1F}'
  }

  lemma BlankParts(a: string, b: string)
    ensures Blank("") && (Blank(a + b) <==> Blank(a) && Blank(b))
    ensures |a| == 1 ==> (Blank(a) <==> a[0] in " \t\n\U{B}\U{C}\r\U{1C}\U{1D}\U{1E}\U{1F}")
  {
    if Blank(a + b) {
      assert forall i :: 0 <= i < |a| ==> a[i] == (a + b)[i];
      assert forall i :: 0 <= i < |b| ==> b[i] == (a + b)[|a| + i];
    }
  }

  /** verdict is None when the word is not one of the five. */
  datatype Args = Args(slug: Slug, verdict: Option<Judgement>, reasoning: string)

  predicate Accepts(sid: Session, a: Args) {
    a.verdict.Some? && !Blank(a.slug) && !Blank(a.reasoning) && sid != ""
  }

  /** Nothing executed, no pass or fail. */
  function Gate(v: Judgement, steps: nat): Judgement {
    if (v.Passed? || v.Failed?) && steps == 0 then Inconclusive else v
  }

  /** The claim: rows of ids that are still free become the verdict's, and take its slug. */
  function Claim(log: seq<Invocation>, ids: seq<nat>, id: nat, slug: Slug): (r: seq<Invocation>)
    ensures |r| == |log|
    ensures forall i :: 0 <= i < |log| ==>
      r[i] == if i in ids && log[i].verdict.None? then log[i].(verdict := Some(id), slug := Some(slug)) else log[i]
  {
    seq(|log|, i requires 0 <= i < |log| =>
      if i in ids && log[i].verdict.None? then log[i].(verdict := Some(id), slug := Some(slug)) else log[i])
  }

  function RowId(t: Tables, k: Key): nat {
    if k in t.rows then t.rows[k].id else t.nextId
  }

  /** The upsert and the claim of one transaction, for the trail that was read before. */
  function Commit(t: Tables, k: Key, v: Judgement, ids: seq<nat>, mutating: nat, truncated: bool): Tables {
    var given := Gate(v, |ids|);
    Tables(
      Claim(t.log, ids, RowId(t, k), k.slug),
      t.rows[k := Row(RowId(t, k), given, if given == v then None else Some(v), |ids|, mutating, truncated)],
      if k in t.rows then t.nextId else t.nextId + 1)
  }

  /** `record_test_verdict`, with its transaction alone in the session. */
  function Record(t: Tables, sid: Session, a: Args, db: Db): (Tables, Response) {
    if !Accepts(sid, a) || db.NoPool? then (t, Refused)
    else if db.TransactionRaises? then (t, Crashed)
    else
      var ids := if db.ClaimRaises? then [] else TrailIds(t.log, sid);
      var truncated := db.Works? && Unclaimed(t.log, sid) > TRAIL_CAP;
      var k := Key(sid, a.slug);
      var u := Commit(t, k, a.verdict.value, ids, CountMutating(t.log, ids), truncated);
      (u, Stored(u.rows[k].id, a.slug, u.rows[k].verdict, |ids|, u.rows[k].downgradedFrom))
  }

  // ---- What every recording keeps ----

  /** The claimed eligible invocations of each session are a prefix of its log. */
  predicate ClaimedPrefix(log: seq<Invocation>) {
    forall i, j :: 0 <= i < j < |log| && log[i].session == log[j].session && Eligible(log[i]) && log[j].verdict.Some?
      ==> log[i].verdict.Some?
  }

  /** A claimed invocation is eligible, and belongs to the row of its own session and slug. */
  predicate OwnedByRow(t: Tables) {
    forall i :: 0 <= i < |t.log| && t.log[i].verdict.Some? ==>
      && Eligible(t.log[i]) && t.log[i].slug.Some?
      && Key(t.log[i].session, t.log[i].slug.value) in t.rows
      && t.rows[Key(t.log[i].session, t.log[i].slug.value)].id == t.log[i].verdict.value
  }

  predicate DistinctIds(t: Tables) {
    && (forall k :: k in t.rows ==> t.rows[k].id < t.nextId)
    && (forall k, l :: k in t.rows && l in t.rows && k != l ==> t.rows[k].id != t.rows[l].id)
  }

  predicate Owns(t: Tables, k: Key, i: nat) {
    && i < |t.log| && k in t.rows
    && t.log[i].session == k.session && t.log[i].slug == Some(k.slug) && t.log[i].verdict == Some(t.rows[k].id)
  }

  /** A stored pass or fail owns an invocation. */
  ghost predicate Evidenced(t: Tables) {
    forall k :: k in t.rows && (t.rows[k].verdict.Passed? || t.rows[k].verdict.Failed?) ==>
      exists i: nat :: Owns(t, k, i)
  }

  ghost predicate Inv(t: Tables) {
    ClaimedPrefix(t.log) && OwnedByRow(t) && DistinctIds(t) && Evidenced(t)
  }

  /** The rows a recording reads are exactly the session's first claimable ones. */
  lemma TrailMember(log: seq<Invocation>, sid: Session, i: nat)
    requires i < |log|
    ensures i in TrailIds(log, sid) <==> Among(log, sid, TRAIL_CAP, i)
  {
    PicksMember(log, sid, TRAIL_CAP, |log|, i);
  }

  lemma ClaimKeepsPrefix(log: seq<Invocation>, sid: Session, id: nat, slug: Slug)
    requires ClaimedPrefix(log)
    ensures ClaimedPrefix(Claim(log, TrailIds(log, sid), id, slug))
  {
    var ids := TrailIds(log, sid);
    var r := Claim(log, ids, id, slug);
    forall i, j | 0 <= i < j < |r| && r[i].session == r[j].session && Eligible(r[i]) && r[j].verdict.Some?
      ensures r[i].verdict.Some?
    {
      if log[j].verdict.None? && log[i].verdict.None? {
        TrailMember(log, sid, i);
        TrailMember(log, sid, j);
        RankMono(log, sid, i, j);
      }
    }
  }

  lemma CommitOwned(t: Tables, k: Key, v: Judgement, ids: seq<nat>, mutating: nat, truncated: bool)
    requires OwnedByRow(t)
    requires forall i :: 0 <= i < |t.log| && i in ids ==> Claimable(t.log[i], k.session)
    ensures OwnedByRow(Commit(t, k, v, ids, mutating, truncated))
  {}

  lemma CommitDistinct(t: Tables, k: Key, v: Judgement, ids: seq<nat>, mutating: nat, truncated: bool)
    requires DistinctIds(t)
    ensures DistinctIds(Commit(t, k, v, ids, mutating, truncated))
  {}

  lemma StillOwns(t: Tables, k: Key, v: Judgement, ids: seq<nat>, mutating: nat, truncated: bool, l: Key, i: nat)
    requires Owns(t, l, i)
    ensures Owns(Commit(t, k, v, ids, mutating, truncated), l, i)
  {}

  lemma NewOwns(t: Tables, k: Key, v: Judgement, ids: seq<nat>, mutating: nat, truncated: bool, i: nat)
    requires i < |t.log| && i in ids && Claimable(t.log[i], k.session)
    ensures Owns(Commit(t, k, v, ids, mutating, truncated), k, i)
  {}

  lemma CommitEvidenced(t: Tables, k: Key, v: Judgement, ids: seq<nat>, mutating: nat, truncated: bool)
    requires Evidenced(t)
    requires forall j :: 0 <= j < |ids| ==> ids[j] < |t.log| && Claimable(t.log[ids[j]], k.session)
    ensures Evidenced(Commit(t, k, v, ids, mutating, truncated))
  {
    var u := Commit(t, k, v, ids, mutating, truncated);
    forall l | l in u.rows && (u.rows[l].verdict.Passed? || u.rows[l].verdict.Failed?)
      ensures exists i: nat :: Owns(u, l, i)
    {
      if l == k {
        NewOwns(t, k, v, ids, mutating, truncated, ids[0]);
      } else {
        var i: nat :| Owns(t, l, i);
        StillOwns(t, k, v, ids, mutating, truncated, l, i);
      }
    }
  }

  lemma TrailClaimable(log: seq<Invocation>, sid: Session)
    ensures forall j :: 0 <= j < |TrailIds(log, sid)| ==> Claimable(log[TrailIds(log, sid)[j]], sid)
    ensures forall i :: 0 <= i < |log| && i in TrailIds(log, sid) ==> Claimable(log[i], sid)
  {
    var ids := TrailIds(log, sid);
    forall i: nat | i < |log| && i in ids ensures Claimable(log[i], sid) { TrailMember(log, sid, i); }
    forall j | 0 <= j < |ids| ensures Claimable(log[ids[j]], sid) { assert ids[j] in ids; }
  }

  lemma CommitKeeps(t: Tables, k: Key, v: Judgement, ids: seq<nat>, mutating: nat, truncated: bool)
    requires Inv(t) && ids in {[], TrailIds(t.log, k.session)}
    ensures Inv(Commit(t, k, v, ids, mutating, truncated))
  {
    TrailClaimable(t.log, k.session);
    assert ClaimedPrefix(Claim(t.log, ids, RowId(t, k), k.slug)) by {
      ClaimKeepsPrefix(t.log, k.session, RowId(t, k), k.slug);
      if ids == [] { assert Claim(t.log, [], RowId(t, k), k.slug) == t.log; }
    }
    CommitOwned(t, k, v, ids, mutating, truncated);
    CommitDistinct(t, k, v, ids, mutating, truncated);
    CommitEvidenced(t, k, v, ids, mutating, truncated);
  }

  lemma RecordKeeps(t: Tables, sid: Session, a: Args, db: Db)
    requires Inv(t)
    ensures Inv(Record(t, sid, a, db).0)
  {
    if Accepts(sid, a) && (db.Works? || db.ClaimRaises?) {
      var ids := if db.ClaimRaises? then [] else TrailIds(t.log, sid);
      var truncated := db.Works? && Unclaimed(t.log, sid) > TRAIL_CAP;
      CommitKeeps(t, Key(sid, a.slug), a.verdict.value, ids, CountMutating(t.log, ids), truncated);
    }
  }

  /** Appending an invocation keeps it too: the new row is unclaimed. */
  lemma AppendKeeps(t: Tables, i: Invocation)
    requires Inv(t) && i.verdict.None?
    ensures Inv(t.(log := t.log + [i]))
  {
    var u := t.(log := t.log + [i]);
    forall k | k in u.rows && (u.rows[k].verdict.Passed? || u.rows[k].verdict.Failed?)
      ensures exists j: nat :: Owns(u, k, j)
    {
      var j: nat :| Owns(t, k, j);
      assert Owns(u, k, j);
    }
  }

  // ---- One recording ----

  /** A recording that goes through claims the next rows of its session's unclaimed log and nothing else:
      the first TRAIL_CAP of them, all of them unless the trail is marked truncated. */
  lemma RecordClaimsNextChunk(t: Tables, sid: Session, a: Args)
    requires Accepts(sid, a)
    ensures var u := Record(t, sid, a, Works).0;
      && |u.log| == |t.log|
      && (forall i :: 0 <= i < |t.log| ==>
            u.log[i] == if Among(t.log, sid, TRAIL_CAP, i)
                        then t.log[i].(verdict := Some(RowId(t, Key(sid, a.slug))), slug := Some(a.slug))
                        else t.log[i])
      && u.rows[Key(sid, a.slug)].steps == Min(TRAIL_CAP, Unclaimed(t.log, sid))
      && (u.rows[Key(sid, a.slug)].truncated <==> Unclaimed(t.log, sid) > TRAIL_CAP)
  {
    forall i: nat | i < |t.log| ensures i in TrailIds(t.log, sid) <==> Among(t.log, sid, TRAIL_CAP, i) {
      TrailMember(t.log, sid, i);
    }
    PicksSize(t.log, sid, TRAIL_CAP, |t.log|);
  }

  function ClaimableSet(log: seq<Invocation>, sid: Session, n: nat): set<nat>
    requires n <= |log|
  {
    set i: nat | i < n && Claimable(log[i], sid)
  }

  /** The rank counts the claimable rows before a position. */
  lemma {:induction false} RankCounts(log: seq<Invocation>, sid: Session, n: nat)
    requires n <= |log|
    ensures Rank(log, sid, n) == |ClaimableSet(log, sid, n)|
    decreases n
  {
    if n == 0 {
      assert ClaimableSet(log, sid, 0) == {};
    } else {
      RankCounts(log, sid, n - 1);
      var before := ClaimableSet(log, sid, n - 1);
      assert ClaimableSet(log, sid, n) == if Claimable(log[n - 1], sid) then before + {n - 1} else before;
    }
  }

  /** The rows that a recording claims and that change state. */
  function MutatingSet(log: seq<Invocation>, sid: Session, n: nat): set<nat>
    requires n <= |log|
  {
    set i: nat | i < n && Among(log, sid, TRAIL_CAP, i) && log[i].mutating
  }

  lemma CountOneMore(log: seq<Invocation>, ids: seq<nat>, i: nat)
    requires (forall k :: 0 <= k < |ids| ==> ids[k] < |log|) && i < |log|
    ensures CountMutating(log, ids + [i]) == CountMutating(log, ids) + if log[i].mutating then 1 else 0
  {
    assert (ids + [i])[..|ids|] == ids;
  }

  lemma {:induction false} MutatingCounts(log: seq<Invocation>, sid: Session, n: nat)
    requires n <= |log|
    ensures CountMutating(log, Picks(log, sid, TRAIL_CAP, n)) == |MutatingSet(log, sid, n)|
    decreases n
  {
    if n == 0 {
      assert MutatingSet(log, sid, 0) == {};
    } else {
      MutatingCounts(log, sid, n - 1);
      MutatingStep(log, sid, n);
      var ids := Picks(log, sid, TRAIL_CAP, n - 1);
      if Among(log, sid, TRAIL_CAP, n - 1) { CountOneMore(log, ids, n - 1); } else { assert ids + [] == ids; }
    }
  }

  lemma MutatingStep(log: seq<Invocation>, sid: Session, n: nat)
    requires 0 < n <= |log|
    ensures var more := Among(log, sid, TRAIL_CAP, n - 1);
      && |MutatingSet(log, sid, n)| == |MutatingSet(log, sid, n - 1)| + (if more && log[n - 1].mutating then 1 else 0)
      && Picks(log, sid, TRAIL_CAP, n) == Picks(log, sid, TRAIL_CAP, n - 1) + (if more then [n - 1] else [])
  {
    var before := MutatingSet(log, sid, n - 1);
    assert MutatingSet(log, sid, n)
      == if Among(log, sid, TRAIL_CAP, n - 1) && log[n - 1].mutating then before + {n - 1} else before;
  }

  /** The row a recording stores: the verdict that was given, but inconclusive for a pass or fail with nothing
      executed; the numbers of steps and of those that change state; and the id it had, or a new one. */
  lemma RecordStores(t: Tables, sid: Session, a: Args)
    requires Accepts(sid, a) && DistinctIds(t)
    ensures var u := Record(t, sid, a, Works).0;
      var k, v := Key(sid, a.slug), a.verdict.value;
      var bare := (v.Passed? || v.Failed?) && ClaimableSet(t.log, sid, |t.log|) == {};
      && u.rows.Keys == t.rows.Keys + {k}
      && u.rows[k].verdict == (if bare then Inconclusive else v)
      && u.rows[k].downgradedFrom == (if bare then Some(v) else None)
      && u.rows[k].steps == Min(TRAIL_CAP, |ClaimableSet(t.log, sid, |t.log|)|)
      && u.rows[k].mutating == |MutatingSet(t.log, sid, |t.log|)|
      && (if k in t.rows then u.rows[k].id == t.rows[k].id
          else forall l :: l in t.rows ==> u.rows[k].id != t.rows[l].id)
    ensures var (u, r) := Record(t, sid, a, Works);
      r == var row := u.rows[Key(sid, a.slug)]; Stored(row.id, a.slug, row.verdict, row.steps, row.downgradedFrom)
  {
    PicksSize(t.log, sid, TRAIL_CAP, |t.log|);
    RankCounts(t.log, sid, |t.log|);
    MutatingCounts(t.log, sid, |t.log|);
  }

  lemma {:induction false} RankAfterClaim(log: seq<Invocation>, sid: Session, id: nat, slug: Slug, n: nat)
    requires n <= |log|
    ensures Rank(Claim(log, TrailIds(log, sid), id, slug), sid, n)
      == Rank(log, sid, n) - Min(TRAIL_CAP, Rank(log, sid, n))
    decreases n
  {
    if n != 0 {
      RankAfterClaim(log, sid, id, slug, n - 1);
      TrailMember(log, sid, n - 1);
    }
  }

  /** What is left for the next verdict of the session is what did not fit, so nothing exactly when the
      trail was not truncated; steps over the cap go to the next verdict recorded. */
  lemma RestGoesToNextVerdict(t: Tables, sid: Session, a: Args)
    requires Accepts(sid, a)
    ensures var u := Record(t, sid, a, Works).0;
      && Unclaimed(u.log, sid) == Unclaimed(t.log, sid) - Min(TRAIL_CAP, Unclaimed(t.log, sid))
      && (Unclaimed(u.log, sid) == 0 <==> !u.rows[Key(sid, a.slug)].truncated)
  {
    RankAfterClaim(t.log, sid, RowId(t, Key(sid, a.slug)), a.slug, |t.log|);
  }

  /** A pass or fail is stored exactly when the session has executed something since its last verdict, and
      is turned into inconclusive otherwise, even where an earlier recording of the same test owns steps. */
  lemma GateIff(t: Tables, sid: Session, a: Args)
    requires Accepts(sid, a) && (a.verdict.value.Passed? || a.verdict.value.Failed?)
    ensures var r := Record(t, sid, a, Works).1;
      && (r.verdict == a.verdict.value <==> Unclaimed(t.log, sid) > 0)
      && (r.verdict == Inconclusive && r.downgradedFrom == a.verdict <==> Unclaimed(t.log, sid) == 0)
  {
    PicksSize(t.log, sid, TRAIL_CAP, |t.log|);
  }

  /** A refused or failing recording changes nothing. */
  lemma RecordAllOrNothing(t: Tables, sid: Session, a: Args, db: Db)
    ensures Record(t, sid, a, db).1.Stored? <==> Accepts(sid, a) && (db.Works? || db.ClaimRaises?)
    ensures !Record(t, sid, a, db).1.Stored? ==> Record(t, sid, a, db).0 == t
    ensures Record(t, sid, a, db).1.Stored? ==>
      && Key(sid, a.slug) in Record(t, sid, a, db).0.rows
      && (forall k :: k in t.rows ==>
            k in Record(t, sid, a, db).0.rows && Record(t, sid, a, db).0.rows[k].id == t.rows[k].id)
      && (forall k :: k in t.rows && k != Key(sid, a.slug) ==> Record(t, sid, a, db).0.rows[k] == t.rows[k])
  {}

  /** A claim, once set, is never changed by a recording. */
  lemma ClaimsStay(t: Tables, sid: Session, a: Args, db: Db)
    ensures |Record(t, sid, a, db).0.log| == |t.log|
    ensures forall i :: 0 <= i < |t.log| && t.log[i].verdict.Some? ==> Record(t, sid, a, db).0.log[i] == t.log[i]
  {}

  /** Each claimed invocation belongs to exactly one verdict row. */
  lemma OneVerdictEach(t: Tables, i: nat, k: Key, l: Key)
    requires Inv(t) && i < |t.log| && t.log[i].verdict.Some?
    requires k in t.rows && l in t.rows
    requires t.rows[k].id == t.log[i].verdict.value && t.rows[l].id == t.log[i].verdict.value
    ensures k == l == Key(t.log[i].session, t.log[i].slug.value)
  {}

  // ---- Two recordings that overlap ----

  lemma OwnsBefore(t: Tables, k: Key, v: Judgement, ids: seq<nat>, mutating: nat, truncated: bool, l: Key, i: nat)
    requires OwnedByRow(t) && DistinctIds(t) && k != l && (l in t.rows ==> t.rows[l].id < t.nextId)
    requires Owns(Commit(t, k, v, ids, mutating, truncated), l, i)
    ensures Owns(t, l, i)
  {}

  /** A second recording, with the trail that it read before the first had claimed it, claims nothing. */
  lemma SecondClaimsNothing(log: seq<Invocation>, ids: seq<nat>, id: nat, slug: Slug, second: nat, other: Slug)
    ensures Claim(Claim(log, ids, id, slug), ids, second, other) == Claim(log, ids, id, slug)
  {}

  lemma OwnsNothingNew(s: Tables, k: Key, v: Judgement, ids: seq<nat>, mutating: nat, truncated: bool, i: nat)
    requires OwnedByRow(s) && DistinctIds(s) && Claim(s.log, ids, RowId(s, k), k.slug) == s.log
    requires Owns(Commit(s, k, v, ids, mutating, truncated), k, i)
    ensures Owns(s, k, i)
  {}

  /** Recordings of one session must not overlap: if a second one, of another test, reads its trail before the
      first has claimed it, every stored pass or fail still owns an invocation exactly when there was nothing to
      claim, or the second test's row already owned something. */
  lemma OverlapKeepsEvidenceIff(t: Tables, sid: Session, a: Slug, b: Slug, v: Judgement, w: Judgement,
                                mutating: nat, truncated: bool)
    requires Inv(t) && a != b && (w.Passed? || w.Failed?)
    ensures
      var ids := TrailIds(t.log, sid);
      var s := Commit(t, Key(sid, a), v, ids, mutating, truncated);
      var u := Commit(s, Key(sid, b), w, ids, mutating, truncated);
      Evidenced(u) <==> ids == [] || exists i: nat :: Owns(t, Key(sid, b), i)
  {
    var k, l, ids := Key(sid, a), Key(sid, b), TrailIds(t.log, sid);
    var s := Commit(t, k, v, ids, mutating, truncated);
    var u := Commit(s, l, w, ids, mutating, truncated);
    TrailClaimable(t.log, sid);
    CommitOwned(t, k, v, ids, mutating, truncated);
    CommitDistinct(t, k, v, ids, mutating, truncated);
    CommitEvidenced(t, k, v, ids, mutating, truncated);
    SecondClaimsNothing(t.log, ids, RowId(t, k), a, RowId(s, l), b);
    if i: nat :| Owns(t, l, i) {
      StillOwns(t, k, v, ids, mutating, truncated, l, i);
      OthersKeepEvidence(s, l, w, ids, mutating, truncated, i);
    } else if ids == [] {
      CommitEvidenced(s, l, w, ids, mutating, truncated);
    } else {
      assert u.rows[l].verdict == w;
      forall i: nat ensures !Owns(u, l, i) {
        if Owns(u, l, i) {
          OwnsNothingNew(s, l, w, ids, mutating, truncated, i);
          OwnsBefore(t, k, v, ids, mutating, truncated, l, i);
        }
      }
    }
  }

  lemma OthersKeepEvidence(s: Tables, k: Key, v: Judgement, ids: seq<nat>, mutating: nat, truncated: bool, i: nat)
    requires Evidenced(s) && Owns(s, k, i)
    ensures Evidenced(Commit(s, k, v, ids, mutating, truncated))
  {
    var u := Commit(s, k, v, ids, mutating, truncated);
    forall l | l in u.rows && (u.rows[l].verdict.Passed? || u.rows[l].verdict.Failed?)
      ensures exists j: nat :: Owns(u, l, j)
    {
      if l == k {
        StillOwns(s, k, v, ids, mutating, truncated, k, i);
      } else {
        var j: nat :| Owns(s, l, j);
        StillOwns(s, k, v, ids, mutating, truncated, l, j);
      }
    }
  }

  /** So both can store a pass over the one step there is, and the second row owns nothing. */
  lemma OverlapLosesEvidence(sid: Session, a: Slug, b: Slug, step: Invocation)
    requires a != b && Claimable(step, sid)
    ensures
      var t := Tables([step], map[], 0);
      var ids := TrailIds(t.log, sid);
      var u := Commit(Commit(t, Key(sid, a), Passed, ids, 0, false), Key(sid, b), Passed, ids, 0, false);
      ids == [0] && u.rows[Key(sid, b)].verdict == Passed && forall i: nat :: !Owns(u, Key(sid, b), i)
  {
    var t := Tables([step], map[], 0);
    assert Rank(t.log, sid, 0) == 0;
    assert Picks(t.log, sid, TRAIL_CAP, 0) == [];
    assert Picks(t.log, sid, TRAIL_CAP, 1) == [0];
    var ids := TrailIds(t.log, sid);
    assert 0 in ids;
    var s := Commit(t, Key(sid, a), Passed, ids, 0, false);
    assert s.log[0].verdict == Some(0);
    var u := Commit(s, Key(sid, b), Passed, ids, 0, false);
    assert u.log[0].verdict == Some(0);
  }
}
