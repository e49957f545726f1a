/** Tool calls of several sessions over the verdict ledger, one call at a time within a session, and the
    closing of a session that leaves tests unrecorded. Module Ledger says what a recording does. */
module Executor {
  import opened Wrappers
  import opened Collections
  import opened Ledger

  /** One tool call: the two slug arguments it may carry, the verdict arguments, whether the tool reports
      success, whether it changes state, and what the database does. */
  datatype Call = Call(
    tool: Tool, definitionSlug: Option<Slug>, slug: Option<Slug>, verdict: Option<Judgement>, reasoning: Option<string>,
    succeeds: bool, mutating: bool, db: Db, audited: bool)

  /** The ledger and each session's current test. */
  datatype State = State(tables: Tables, current: map<Session, Slug>)

  const INITIAL := State(EMPTY, map[])

  function CurrentOf(s: State, sid: Session): Option<Slug> {
    if sid in s.current then Some(s.current[sid]) else None
  }

  function Given(a: Option<Slug>): Option<Slug> {
    if a.Some? && a.value != "" then a else None
  }

  /** Reading a definition or recording a plan makes its test the current one. */
  function CurrentAfterStart(c: Call, current: Option<Slug>): Option<Slug> {
    if c.tool.ReadTestDefinition? || c.tool.RecordTestPlan? then
      (if Given(c.definitionSlug).Some? then c.definitionSlug
       else if Given(c.slug).Some? then c.slug else current)
    else current
  }

  function RowSlug(c: Call, current: Option<Slug>): Option<Slug> {
    if c.tool.RecordTestVerdict? || c.tool.RecordTestPlan? then c.definitionSlug else current
  }

  /** The effect of the tool on the ledger, and whether it reports success. A missing argument is an error. */
  function Dispatch(t: Tables, sid: Session, c: Call): (Tables, bool) {
    if c.tool.RecordTestVerdict? then
      if c.definitionSlug.Some? && c.reasoning.Some? then
        var r := Record(t, sid, Args(c.definitionSlug.value, c.verdict, c.reasoning.value), c.db);
        (r.0, r.1.Stored?)
      else (t, false)
    else (t, c.succeeds)
  }

  /** The audit row, appended after the tool has run. */
  function Audit(t: Tables, sid: Session, c: Call, slug: Option<Slug>): Tables {
    if sid == "" || !c.audited then t
    else t.(log := t.log + [Invocation(sid, c.tool, c.mutating, slug, None)])
  }

  function CurrentAfterEnd(c: Call, success: bool, current: Option<Slug>): Option<Slug> {
    if c.tool.RecordTestVerdict? && success && c.definitionSlug == current then None else current
  }

  function Execute(t: Tables, sid: Session, current: Option<Slug>, c: Call): (Tables, Option<Slug>) {
    var started := CurrentAfterStart(c, current);
    var done := Dispatch(t, sid, c);
    (Audit(done.0, sid, c, RowSlug(c, started)), CurrentAfterEnd(c, done.1, started))
  }

  // ---- Closing a session ----

  function Missing(rows: map<Key, Row>, sid: Session, selected: seq<Slug>): seq<Slug> {
    if selected == [] then []
    else (if Key(sid, selected[0]) in rows then [] else [selected[0]]) + Missing(rows, sid, selected[1..])
  }

  /** One insert that does nothing if the row is there. */
  function InsertBlocked(t: Tables, k: Key): Tables {
    if k in t.rows then t
    else t.(rows := t.rows[k := Row(t.nextId, Blocked, None, 0, 0, false)], nextId := t.nextId + 1)
  }

  function InsertAll(t: Tables, sid: Session, slugs: seq<Slug>): Tables
    decreases |slugs|
  {
    if slugs == [] then t else InsertAll(InsertBlocked(t, Key(sid, slugs[0])), sid, slugs[1..])
  }

  /** `_record_missing_verdicts`: the tables after it and the count it returns. */
  function CloseOut(t: Tables, sid: Session, manual: bool, selected: seq<Slug>, dbFails: bool): (Tables, nat) {
    if !manual || selected == [] || dbFails then (t, 0)
    else (InsertAll(t, sid, Missing(t.rows, sid, selected)), |Missing(t.rows, sid, selected)|)
  }

  lemma InsertKeeps(t: Tables, k: Key)
    requires Inv(t)
    ensures Inv(InsertBlocked(t, k))
  {
    var u := InsertBlocked(t, k);
    forall l | l in u.rows && (u.rows[l].verdict.Passed? || u.rows[l].verdict.Failed?)
      ensures exists j: nat :: Owns(u, l, j)
    {
      var j: nat :| Owns(t, l, j);
      assert Owns(u, l, j);
    }
  }

  lemma {:induction false} InsertAllKeeps(t: Tables, sid: Session, slugs: seq<Slug>)
    requires Inv(t)
    ensures Inv(InsertAll(t, sid, slugs)) && InsertAll(t, sid, slugs).log == t.log
    decreases |slugs|
  {
    if slugs != [] {
      InsertKeeps(t, Key(sid, slugs[0]));
      InsertAllKeeps(InsertBlocked(t, Key(sid, slugs[0])), sid, slugs[1..]);
    }
  }

  /** The rows there were stay as they are; the new ones are blocked, of this session and of these slugs. */
  lemma {:induction false} InsertAllRows(t: Tables, sid: Session, slugs: seq<Slug>)
    ensures var u := InsertAll(t, sid, slugs);
      && (forall k :: k in t.rows ==> k in u.rows && u.rows[k] == t.rows[k])
      && (forall k :: k in u.rows && k !in t.rows ==>
           && u.rows[k] == Row(u.rows[k].id, Blocked, None, 0, 0, false) && u.rows[k].id >= t.nextId
           && k.session == sid && k.slug in slugs)
      && (forall i :: 0 <= i < |slugs| ==> Key(sid, slugs[i]) in u.rows)
    decreases |slugs|
  {
    if slugs != [] {
      var s := InsertBlocked(t, Key(sid, slugs[0]));
      InsertAllRows(s, sid, slugs[1..]);
      var u := InsertAll(t, sid, slugs);
      forall i | 0 <= i < |slugs| ensures Key(sid, slugs[i]) in u.rows {
        if i > 0 { assert slugs[i] == slugs[1..][i - 1]; }
      }
    }
  }

  lemma {:induction false} MissingMember(rows: map<Key, Row>, sid: Session, selected: seq<Slug>, slug: Slug)
    ensures slug in Missing(rows, sid, selected) <==> slug in selected && Key(sid, slug) !in rows
    decreases |selected|
  {
    if selected != [] {
      MissingMember(rows, sid, selected[1..], slug);
      var head := if Key(sid, selected[0]) in rows then [] else [selected[0]];
      assert selected == [selected[0]] + selected[1..];
    }
  }

  /** After a successful close-out every selected test has a row, earlier rows are as they were, and every
      new row is a blocked one of a selected test. */
  lemma CloseOutCompletes(t: Tables, sid: Session, selected: seq<Slug>)
    ensures var u := CloseOut(t, sid, true, selected, false).0;
      && (forall i :: 0 <= i < |selected| ==> Key(sid, selected[i]) in u.rows)
      && (forall k :: k in t.rows ==> k in u.rows && u.rows[k] == t.rows[k])
      && (forall k :: k in u.rows && k !in t.rows ==>
           && u.rows[k] == Row(u.rows[k].id, Blocked, None, 0, 0, false) && u.rows[k].id >= t.nextId
           && k.session == sid && k.slug in selected)
      && u.log == t.log
  {
    if selected != [] {
      var missing := Missing(t.rows, sid, selected);
      InsertAllRows(t, sid, missing);
      var u := CloseOut(t, sid, true, selected, false).0;
      forall i | 0 <= i < |selected| ensures Key(sid, selected[i]) in u.rows {
        MissingMember(t.rows, sid, selected, selected[i]);
      }
      forall k | k in u.rows && k !in t.rows ensures k.slug in selected {
        MissingMember(t.rows, sid, selected, k.slug);
      }
      LogStays(t, sid, missing);
    }
  }

  lemma {:induction false} LogStays(t: Tables, sid: Session, slugs: seq<Slug>)
    ensures InsertAll(t, sid, slugs).log == t.log
    decreases |slugs|
  {
    if slugs != [] { LogStays(InsertBlocked(t, Key(sid, slugs[0])), sid, slugs[1..]); }
  }

  lemma {:induction false} InsertAllCounts(t: Tables, sid: Session, slugs: seq<Slug>)
    requires forall i :: 0 <= i < |slugs| ==> Key(sid, slugs[i]) !in t.rows
    ensures |InsertAll(t, sid, slugs).rows| <= |t.rows| + |slugs|
    ensures |InsertAll(t, sid, slugs).rows| == |t.rows| + |slugs| <==> NoRepeats(slugs)
    decreases |slugs|
  {
    if slugs != [] {
      var k := Key(sid, slugs[0]);
      var rest := slugs[1..];
      var s := InsertBlocked(t, k);
      if slugs[0] in rest {
        RepeatInserts(s, sid, rest, slugs[0]);
        var i :| 0 <= i < |rest| && rest[i] == slugs[0];
        assert slugs[i + 1] == slugs[0];
      } else {
        forall i | 0 <= i < |rest| ensures Key(sid, rest[i]) !in s.rows { assert rest[i] == slugs[i + 1]; }
        InsertAllCounts(s, sid, rest);
      }
    }
  }

  /** A slug whose row is there already adds nothing. */
  lemma {:induction false} RepeatInserts(t: Tables, sid: Session, slugs: seq<Slug>, slug: Slug)
    requires slug in slugs && Key(sid, slug) in t.rows
    ensures |InsertAll(t, sid, slugs).rows| < |t.rows| + |slugs|
    decreases |slugs|
  {
    var k := Key(sid, slugs[0]);
    var s := InsertBlocked(t, k);
    if slugs[0] == slug {
      InsertAllBound(s, sid, slugs[1..]);
    } else {
      RepeatInserts(s, sid, slugs[1..], slug);
    }
  }

  lemma {:induction false} InsertAllBound(t: Tables, sid: Session, slugs: seq<Slug>)
    ensures |InsertAll(t, sid, slugs).rows| <= |t.rows| + |slugs|
    decreases |slugs|
  {
    if slugs != [] {
      var k := Key(sid, slugs[0]);
      var s := InsertBlocked(t, k);
      InsertAllBound(s, sid, slugs[1..]);
    }
  }

  /** The count returned is the number of rows written exactly when no missing test was selected twice. */
  lemma {:induction false} CloseOutCountIff(t: Tables, sid: Session, selected: seq<Slug>)
    ensures var r := CloseOut(t, sid, true, selected, false);
      |r.0.rows| == |t.rows| + r.1 <==> NoRepeats(Missing(t.rows, sid, selected))
  {
    var missing := Missing(t.rows, sid, selected);
    forall i | 0 <= i < |missing| ensures Key(sid, missing[i]) !in t.rows {
      MissingMember(t.rows, sid, selected, missing[i]);
    }
    InsertAllCounts(t, sid, missing);
  }

  // ---- Runs ----

  datatype Event =
    | Calls(sid: Session, call: Call)
    | Closes(sid: Session, manual: bool, selected: seq<Slug>, dbFails: bool)

  function SetCurrent(current: map<Session, Slug>, sid: Session, slug: Option<Slug>): map<Session, Slug> {
    if slug.Some? then current[sid := slug.value] else current - {sid}
  }

  function Do(s: State, e: Event): State {
    match e
    case Calls(sid, c) =>
      var r := Execute(s.tables, sid, CurrentOf(s, sid), c);
      State(r.0, SetCurrent(s.current, sid, r.1))
    case Closes(sid, manual, selected, dbFails) => s.(tables := CloseOut(s.tables, sid, manual, selected, dbFails).0)
  }

  function After(s: State, es: seq<Event>): State
    decreases |es|
  {
    if es == [] then s else After(Do(s, es[0]), es[1..])
  }

  lemma CallKeeps(t: Tables, sid: Session, current: Option<Slug>, c: Call)
    requires Inv(t)
    ensures Inv(Execute(t, sid, current, c).0)
  {
    if c.tool.RecordTestVerdict? && c.definitionSlug.Some? && c.reasoning.Some? {
      RecordKeeps(t, sid, Args(c.definitionSlug.value, c.verdict, c.reasoning.value), c.db);
    }
    var done := Dispatch(t, sid, c).0;
    AppendKeeps(done, Invocation(sid, c.tool, c.mutating, RowSlug(c, CurrentAfterStart(c, current)), None));
  }

  lemma StepKeeps(s: State, e: Event)
    requires Inv(s.tables)
    ensures Inv(Do(s, e).tables)
  {
    match e
    case Calls(sid, c) => CallKeeps(s.tables, sid, CurrentOf(s, sid), c);
    case Closes(sid, _, selected, _) => InsertAllKeeps(s.tables, sid, Missing(s.tables.rows, sid, selected));
  }

  lemma {:induction false} AfterKeeps(s: State, es: seq<Event>)
    requires Inv(s.tables)
    ensures Inv(After(s, es).tables)
    decreases |es|
  {
    if es != [] {
      StepKeeps(s, es[0]);
      AfterKeeps(Do(s, es[0]), es[1..]);
    }
  }

  /** In every state that any calls of any sessions reach: the claimed eligible invocations of a session
      are a prefix of its log; a claimed invocation has the slug of the one row it belongs to; and every
      stored pass or fail owns an invocation, through re-recordings and downgrades alike. */
  lemma {:induction false} EveryLedger(es: seq<Event>)
    ensures var t := After(INITIAL, es).tables;
      ClaimedPrefix(t.log) && OwnedByRow(t) && DistinctIds(t) && Evidenced(t)
  {
    AfterKeeps(INITIAL, es);
  }

  /** What was in the log, and claimed, is untouched by anything later; a row keeps its id. */
  predicate Extends(t: Tables, u: Tables) {
    && |t.log| <= |u.log|
    && (forall i :: 0 <= i < |t.log| && t.log[i].verdict.Some? ==> u.log[i] == t.log[i])
    && (forall k :: k in t.rows ==> k in u.rows && u.rows[k].id == t.rows[k].id)
  }

  lemma StepExtends(s: State, e: Event)
    ensures Extends(s.tables, Do(s, e).tables)
  {
    match e
    case Calls(sid, c) =>
    case Closes(sid, _, selected, _) =>
      InsertAllRows(s.tables, sid, Missing(s.tables.rows, sid, selected));
      LogStays(s.tables, sid, Missing(s.tables.rows, sid, selected));
  }

  /** A claim once set never changes, and neither does the id of a verdict row, over any run. */
  lemma {:induction false} ClaimsAreForever(s: State, es: seq<Event>)
    ensures Extends(s.tables, After(s, es).tables)
    decreases |es|
  {
    if es != [] {
      StepExtends(s, es[0]);
      ClaimsAreForever(Do(s, es[0]), es[1..]);
    }
  }

  /** A verdict call never claims itself: its own row is appended after the claim, and is not eligible. */
  lemma OwnRowIsFree(t: Tables, sid: Session, current: Option<Slug>, c: Call)
    requires c.tool.RecordTestVerdict? && c.audited && sid != ""
    ensures var u := Execute(t, sid, current, c).0;
      |u.log| == |t.log| + 1 && u.log[|t.log|].verdict.None? && !Eligible(u.log[|t.log|])
  {}

  predicate Starts(c: Call) {
    c.tool.ReadTestDefinition? || c.tool.RecordTestPlan?
  }

  /** The test that a call makes the current one: by its first slug argument that is not empty. */
  predicate StartsTest(c: Call, x: Slug) {
    && Starts(c) && x != ""
    && (c.definitionSlug == Some(x) || ((c.definitionSlug.None? || c.definitionSlug.value == "") && c.slug == Some(x)))
  }

  /** Every call of a session that is audited appends exactly its own row, unclaimed: a primitive tool's carries
      the current test, which the call leaves alone; that of a call that starts a test carries it already, if it
      reads a definition; verdicts and plans carry the slug they are given. */
  lemma RowsAre(t: Tables, sid: Session, current: Option<Slug>, c: Call)
    ensures var (u, now) := Execute(t, sid, current, c);
      && |u.log| == |t.log| + (if sid != "" && c.audited then 1 else 0)
      && (c.tool.Primitive? ==> now == current)
      && (forall x :: StartsTest(c, x) ==> now == Some(x))
      && (Starts(c) && (forall x :: !StartsTest(c, x)) ==> now == current)
      && (!c.tool.RecordTestVerdict? ==> u.rows == t.rows && u.log[..|t.log|] == t.log)
      && (sid != "" && c.audited ==>
           var row := u.log[|t.log|];
           && row.session == sid && row.tool == c.tool && row.mutating == c.mutating && row.verdict.None?
           && row.slug == if c.tool.RecordTestVerdict? || c.tool.RecordTestPlan? then c.definitionSlug
                          else if c.tool.ReadTestDefinition? then now else current)
  {
    if Starts(c) && Given(c.definitionSlug).Some? {
      assert StartsTest(c, c.definitionSlug.value);
    } else if Starts(c) && Given(c.slug).Some? {
      assert StartsTest(c, c.slug.value);
    }
  }

  /** The verdict call carries a verdict word, a slug and a reasoning that are not blank, has a session, and its
      transaction commits. */
  predicate Records(sid: Session, c: Call) {
    && c.tool.RecordTestVerdict? && sid != "" && (c.db.Works? || c.db.ClaimRaises?)
    && c.verdict.Some? && c.definitionSlug.Some? && c.reasoning.Some?
    && !Blank(c.definitionSlug.value) && !Blank(c.reasoning.value)
  }

  /** Such a call records its verdict: the row is there, the session's first claimable rows are its, and nothing
      else changes but the audit row that is appended. */
  lemma VerdictCallRecords(t: Tables, sid: Session, current: Option<Slug>, c: Call)
    requires Records(sid, c) && c.db.Works? && c.audited && DistinctIds(t)
    ensures var u := Execute(t, sid, current, c).0;
      var k, v, n := Key(sid, c.definitionSlug.value), c.verdict.value, |ClaimableSet(t.log, sid, |t.log|)|;
      && u.rows.Keys == t.rows.Keys + {k} && (forall l :: l in t.rows && l != k ==> u.rows[l] == t.rows[l])
      && u.rows[k].verdict == (if (v.Passed? || v.Failed?) && n == 0 then Inconclusive else v)
      && u.rows[k].steps == Min(400, n) && (u.rows[k].truncated <==> n > 400)
      && |u.log| == |t.log| + 1
      && u.log[|t.log|] == Invocation(sid, RecordTestVerdict, c.mutating, c.definitionSlug, None)
      && forall i :: 0 <= i < |t.log| ==>
           u.log[i] == if Claimable(t.log[i], sid) && |ClaimableSet(t.log, sid, i)| < 400
                       then t.log[i].(verdict := Some(u.rows[k].id), slug := c.definitionSlug) else t.log[i]
  {
    var a := Args(c.definitionSlug.value, c.verdict, c.reasoning.value);
    RecordClaimsNextChunk(t, sid, a);
    RecordStores(t, sid, a);
    RecordAllOrNothing(t, sid, a, Works);
    RankCounts(t.log, sid, |t.log|);
    if |ClaimableSet(t.log, sid, |t.log|)| == 0 { assert ClaimableSet(t.log, sid, |t.log|) == {}; }
    forall i: nat | i < |t.log| ensures Rank(t.log, sid, i) == |ClaimableSet(t.log, sid, i)| {
      RankCounts(t.log, sid, i);
    }
  }

  /** Any other verdict call leaves the rows and the log before it as they were. */
  lemma OtherCallRecordsNothing(t: Tables, sid: Session, current: Option<Slug>, c: Call)
    requires !Records(sid, c)
    ensures var u := Execute(t, sid, current, c).0;
      u.rows == t.rows && u.nextId == t.nextId && |t.log| <= |u.log| && u.log[..|t.log|] == t.log
  {}

  /** A verdict call closes the current test exactly when it records, and is of that test. */
  lemma CurrentClosedIff(t: Tables, sid: Session, current: Slug, c: Call)
    requires c.tool.RecordTestVerdict?
    ensures Execute(t, sid, Some(current), c).1 == None <==>
            c.definitionSlug == Some(current) && Records(sid, c)
  {}

  /** The call reports success exactly so; other tools report their own. */
  lemma SucceedsIff(t: Tables, sid: Session, c: Call)
    ensures Dispatch(t, sid, c).1 <==> if c.tool.RecordTestVerdict? then Records(sid, c) else c.succeeds
  {}

  // ---- The current test over a run ----

  lemma {:induction false} AfterOneMore(s: State, es: seq<Event>, e: Event)
    ensures After(s, es + [e]) == Do(After(s, es), e)
    decreases |es|
  {
    if es == [] {
      assert ([] + [e])[1..] == [];
    } else {
      assert (es + [e])[1..] == es[1..] + [e];
      AfterOneMore(Do(s, es[0]), es[1..], e);
    }
  }

  predicate StartsAt(e: Event, sid: Session, x: Slug) {
    e.Calls? && e.sid == sid && StartsTest(e.call, x)
  }

  /** The event starts a test of the session, or records a verdict of x. */
  ghost predicate Ends(e: Event, sid: Session, x: Slug) {
    e.Calls? && e.sid == sid && ((Starts(e.call) && exists y :: StartsTest(e.call, y))
                                 || (Records(sid, e.call) && e.call.definitionSlug == Some(x)))
  }

  ghost predicate LastStarted(es: seq<Event>, sid: Session, x: Slug) {
    exists i :: 0 <= i < |es| && StartsAt(es[i], sid, x) && forall j :: i < j < |es| ==> !Ends(es[j], sid, x)
  }

  lemma StepMovesCurrent(s: State, e: Event, sid: Session, x: Slug)
    ensures CurrentOf(Do(s, e), sid) == Some(x) <==>
      StartsAt(e, sid, x) || (CurrentOf(s, sid) == Some(x) && !Ends(e, sid, x))
  {
    if e.Calls? && e.sid == sid {
      RowsAre(s.tables, sid, CurrentOf(s, sid), e.call);
      if e.call.tool.RecordTestVerdict? && CurrentOf(s, sid).Some? {
        CurrentClosedIff(s.tables, sid, CurrentOf(s, sid).value, e.call);
      }
    }
  }

  lemma LastStartedOneMore(es: seq<Event>, e: Event, sid: Session, x: Slug)
    ensures LastStarted(es + [e], sid, x) <==> StartsAt(e, sid, x) || (LastStarted(es, sid, x) && !Ends(e, sid, x))
  {
    var all := es + [e];
    assert all[|es|] == e;
    if LastStarted(es, sid, x) && !Ends(e, sid, x) {
      var i :| 0 <= i < |es| && StartsAt(es[i], sid, x) && forall j :: i < j < |es| ==> !Ends(es[j], sid, x);
      assert StartsAt(all[i], sid, x);
    }
    if LastStarted(all, sid, x) && !StartsAt(e, sid, x) {
      var i :| 0 <= i < |all| && StartsAt(all[i], sid, x) && forall j :: i < j < |all| ==> !Ends(all[j], sid, x);
      assert StartsAt(es[i], sid, x);
      forall j | i < j < |es| ensures !Ends(es[j], sid, x) { assert all[j] == es[j]; }
      assert !Ends(all[|es|], sid, x);
    }
  }

  /** After any events of any sessions, a session's current test is x exactly when some call of it started x, and
      no later one started a test or recorded a verdict of x. */
  lemma {:induction false} CurrentIff(es: seq<Event>, sid: Session, x: Slug)
    ensures CurrentOf(After(INITIAL, es), sid) == Some(x) <==> LastStarted(es, sid, x)
    decreases |es|
  {
    if es != [] {
      var front, e := es[..|es| - 1], es[|es| - 1];
      assert es == front + [e];
      CurrentIff(front, sid, x);
      AfterOneMore(INITIAL, front, e);
      StepMovesCurrent(After(INITIAL, front), e, sid, x);
      LastStartedOneMore(front, e, sid, x);
    }
  }

  /** Closing a session writes its missing verdicts if it is in manual mode and the database works, and changes
      nothing else. */
  lemma ClosingCompletes(s: State, sid: Session, manual: bool, selected: seq<Slug>, dbFails: bool)
    ensures var t := Do(s, Closes(sid, manual, selected, dbFails));
      && t.current == s.current && t.tables.log == s.tables.log
      && (!manual || dbFails ==> t == s && CloseOut(s.tables, sid, manual, selected, dbFails).1 == 0)
      && (manual && !dbFails ==>
           && CloseOut(s.tables, sid, manual, selected, dbFails).1 == |Missing(s.tables.rows, sid, selected)|
           && forall i :: 0 <= i < |selected| ==> Key(sid, selected[i]) in t.tables.rows)
  {
    CloseOutCompletes(s.tables, sid, selected);
    LogStays(s.tables, sid, Missing(s.tables.rows, sid, selected));
  }
}
