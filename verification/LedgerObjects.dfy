/** The ledger's tables and the tool executor as the objects they are, proved against their
    specifications. A query or an update is one database step; a transaction assigns at its commit,
    so one that fails leaves every table as it was. */
module LedgerObjects {
  import opened Wrappers
  import opened Ledger
  import Executor

  lemma {:induction false} CountNext(log: seq<Invocation>, rows: seq<nat>, i: nat)
    requires i < |rows| && forall k :: 0 <= k < |rows| ==> rows[k] < |log|
    ensures CountMutating(log, rows[..i + 1]) == CountMutating(log, rows[..i]) + if log[rows[i]].mutating then 1 else 0
    ensures rows[..i + 1] == rows[..i] + [rows[i]]
  {
    assert rows[..i + 1][..i] == rows[..i];
  }

  class Database {
    var log: seq<Invocation>
    var rows: map<Key, Row>
    var nextId: nat

    constructor ()
      ensures View() == EMPTY
    {
      log, rows, nextId := [], map[], 0;
    }

    function View(): Tables
      reads this
    {
      Tables(log, rows, nextId)
    }

    method ClaimTrail(sid: Session) returns (ids: seq<nat>, truncated: bool, mutating: nat)
      ensures ids == TrailIds(log, sid)
      ensures truncated <==> Unclaimed(log, sid) > TRAIL_CAP
      ensures mutating == CountMutating(log, ids)
    {
      var fetched := Picks(log, sid, TRAIL_CAP + 1, |log|);
      PicksSize(log, sid, TRAIL_CAP + 1, |log|);
      CutPicks(log, sid, TRAIL_CAP, |log|);
      truncated := |fetched| > TRAIL_CAP;
      var rows := if truncated then fetched[..TRAIL_CAP] else fetched;
      ids, mutating := [], 0;
      for i := 0 to |rows|
        invariant ids == rows[..i]
        invariant mutating == CountMutating(log, rows[..i])
      {
        CountNext(log, rows, i);
        if log[rows[i]].mutating { mutating := mutating + 1; }
        ids := ids + [rows[i]];
      }
      assert rows[..|rows|] == rows;
    }

    method RecordTestVerdict(sid: Session, a: Args, db: Db) returns (r: Response)
      modifies this
      ensures (View(), r) == Record(old(View()), sid, a, db)
    {
      if a.verdict.None? || Blank(a.slug) || Blank(a.reasoning) || sid == "" || db.NoPool? { return Refused; }
      if db.TransactionRaises? { return Crashed; }
      var ids, truncated, mutating := [], false, 0;
      if !db.ClaimRaises? { ids, truncated, mutating := ClaimTrail(sid); }
      r := GateAndStore(Key(sid, a.slug), a.verdict.value, ids, truncated, mutating);
    }

    /** The validation gate, the upsert and the claim, at the commit of the transaction. */
    method GateAndStore(k: Key, original: Judgement, ids: seq<nat>, truncated: bool, mutating: nat)
      returns (r: Response)
      modifies this
      ensures View() == Commit(old(View()), k, original, ids, mutating, truncated)
      ensures r == Stored(rows[k].id, k.slug, rows[k].verdict, |ids|, rows[k].downgradedFrom)
    {
      var verdict := original;
      if (verdict.Passed? || verdict.Failed?) && |ids| == 0 {
        verdict := Inconclusive;
      }
      var downgraded := if verdict != original then Some(original) else None;
      var id := RowId(View(), k);
      nextId := if k in rows then nextId else nextId + 1;
      rows := rows[k := Row(id, verdict, downgraded, |ids|, mutating, truncated)];
      if ids != [] { log := Ledger.Claim(log, ids, id, k.slug); }
      r := Stored(id, k.slug, verdict, |ids|, downgraded);
    }

    method RecordInvocation(sid: Session, tool: Tool, mutating: bool, slug: Option<Slug>, written: bool)
      modifies this`log
      ensures log == if sid == "" || !written then old(log)
        else old(log) + [Invocation(sid, tool, mutating, slug, None)]
    {
      if sid == "" || !written { return; }
      log := log + [Invocation(sid, tool, mutating, slug, None)];
    }

    /** A failure anywhere rolls back: the inserts work on the transaction's own copy. */
    method RecordMissingVerdicts(sid: Session, manual: bool, selected: seq<Slug>, dbFails: bool) returns (count: nat)
      modifies this
      ensures (View(), count) == Executor.CloseOut(old(View()), sid, manual, selected, dbFails)
    {
      if !manual || selected == [] { return 0; }
      var missing := Executor.Missing(rows, sid, selected);
      var t := View();
      for i := 0 to |missing|
        invariant View() == old(View())
        invariant Executor.InsertAll(t, sid, missing[i..]) == Executor.InsertAll(old(View()), sid, missing)
      {
        assert missing[i..][1..] == missing[i + 1..];
        t := Executor.InsertBlocked(t, Key(sid, missing[i]));
      }
      if dbFails { return 0; }
      log, rows, nextId := t.log, t.rows, t.nextId;
      return |missing|;
    }
  }

  class ToolExecutor {
    const sessionId: Session
    const db: Database
    var currentTestSlug: Option<Slug>

    constructor (sessionId: Session, db: Database)
      ensures this.sessionId == sessionId && this.db == db && currentTestSlug == None
    {
      this.sessionId, this.db, currentTestSlug := sessionId, db, None;
    }

    method Dispatch(c: Executor.Call) returns (success: bool)
      modifies db
      ensures (db.View(), success) == Executor.Dispatch(old(db.View()), sessionId, c)
    {
      if !c.tool.RecordTestVerdict? { return c.succeeds; }
      if c.definitionSlug.None? || c.reasoning.None? { return false; }
      var r := db.RecordTestVerdict(sessionId, Args(c.definitionSlug.value, c.verdict, c.reasoning.value), c.db);
      return r.Stored?;
    }

    method Execute(c: Executor.Call) returns (success: bool)
      modifies this, db
      ensures (db.View(), currentTestSlug) == Executor.Execute(old(db.View()), sessionId, old(currentTestSlug), c)
      ensures success <==> if c.tool.RecordTestVerdict? then Executor.Records(sessionId, c) else c.succeeds
    {
      if c.tool.ReadTestDefinition? || c.tool.RecordTestPlan? {
        var s := if Executor.Given(c.definitionSlug).Some? then c.definitionSlug else Executor.Given(c.slug);
        if s.Some? { currentTestSlug := s; }
      }
      var slugForRow :=
        if c.tool.RecordTestVerdict? || c.tool.RecordTestPlan? then c.definitionSlug else currentTestSlug;
      Executor.SucceedsIff(db.View(), sessionId, c);
      success := Dispatch(c);
      db.RecordInvocation(sessionId, c.tool, c.mutating, slugForRow, c.audited);
      if c.tool.RecordTestVerdict? && success && c.definitionSlug == currentTestSlug {
        currentTestSlug := None;
      }
    }
  }
}
