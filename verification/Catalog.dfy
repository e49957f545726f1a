/** The release catalog: a chain of tables release -> cli -> (sdk, devnet) -> contracts, written by three
    independent watchers, each in one transaction of several statements. */
module Catalog {
  import opened Wrappers

  type Tag = string

  datatype CliRow = CliRow(sdk: Option<Tag>, devnet: Option<Tag>)
  datatype ReleaseRow = ReleaseRow(cli: Option<Tag>, major: int)

  datatype Tables = Tables(
    contracts: set<Tag>, sdks: set<Tag>, devnets: map<Tag, Option<Tag>>, clis: map<Tag, CliRow>,
    releases: map<Tag, ReleaseRow>)

  /** The versions found in a release body or by the resolver; each may be missing. */
  datatype Versions = Versions(sdk: Option<Tag>, devnet: Option<Tag>, contracts: Option<Tag>, cli: Option<Tag>)

  const NO_VERSIONS := Versions(None, None, None, None)

  function Coalesce(a: Option<Tag>, b: Option<Tag>): Option<Tag> {
    if a.Some? then a else b
  }

  /** Every link that is set points at an existing row. */
  predicate ForeignKeys(t: Tables) {
    && (forall d :: d in t.devnets && t.devnets[d].Some? ==> t.devnets[d].value in t.contracts)
    && (forall c :: c in t.clis && t.clis[c].sdk.Some? ==> t.clis[c].sdk.value in t.sdks)
    && (forall c :: c in t.clis && t.clis[c].devnet.Some? ==> t.clis[c].devnet.value in t.devnets)
    && (forall r :: r in t.releases && t.releases[r].cli.Some? ==> t.releases[r].cli.value in t.clis)
  }

  // ---- Statements. A link to a missing row would make the database refuse one. ----

  function InsertSdk(t: Tables, sdk: Option<Tag>): Tables {
    if sdk.Some? then t.(sdks := t.sdks + {sdk.value}) else t
  }

  function InsertContracts(t: Tables, contracts: Option<Tag>): Tables {
    if contracts.Some? then t.(contracts := t.contracts + {contracts.value}) else t
  }

  function UpsertDevnet(t: Tables, devnet: Option<Tag>, contracts: Option<Tag>): Tables
    requires contracts.Some? ==> contracts.value in t.contracts
  {
    if devnet.None? then t
    else
      var d := devnet.value;
      t.(devnets := t.devnets[d := if d in t.devnets then Coalesce(contracts, t.devnets[d]) else contracts])
  }

  function UpsertCliRow(t: Tables, cli: Option<Tag>, sdk: Option<Tag>, devnet: Option<Tag>): Tables
    requires sdk.Some? ==> sdk.value in t.sdks
    requires devnet.Some? ==> devnet.value in t.devnets
  {
    if cli.None? then t
    else
      var c := cli.value;
      t.(clis := t.clis[c :=
        if c in t.clis then CliRow(Coalesce(sdk, t.clis[c].sdk), Coalesce(devnet, t.clis[c].devnet))
        else CliRow(sdk, devnet)])
  }

  function UpsertReleaseRow(t: Tables, tag: Tag, cli: Option<Tag>, major: int): Tables
    requires cli.Some? ==> cli.value in t.clis
  {
    var kept := if tag in t.releases then Coalesce(cli, t.releases[tag].cli) else cli;
    t.(releases := t.releases[tag := ReleaseRow(kept, major)])
  }

  predicate Backfills(t: Tables, node: Option<Tag>) {
    node.Some? && node.value in t.releases && t.releases[node.value].cli.None?
  }

  function Backfill(t: Tables, node: Option<Tag>, cli: Tag): Tables
    requires cli in t.clis
  {
    if Backfills(t, node) then t.(releases := t.releases[node.value := t.releases[node.value].(cli := Some(cli))])
    else t
  }

  // ---- Transactions ----

  /** The rows a release needs below it, leaf first. */
  function Leaves(t: Tables, v: Versions): (u: Tables)
    ensures v.sdk.Some? ==> v.sdk.value in u.sdks
    ensures v.devnet.Some? ==> v.devnet.value in u.devnets
  {
    UpsertDevnet(InsertContracts(InsertSdk(t, v.sdk), v.contracts), v.devnet, v.contracts)
  }

  /** `_upsert_node_catalog`; before major version 2 nothing is resolved. */
  function UpsertNode(t: Tables, tag: Tag, major: int, resolved: Versions): Tables {
    var v := if major >= 2 then resolved else NO_VERSIONS;
    UpsertReleaseRow(UpsertCliRow(Leaves(t, v), v.cli, v.sdk, v.devnet), tag, v.cli, major)
  }

  /** `_upsert_cli_chain`: the tables, and the node it backfilled. */
  function UpsertCli(t: Tables, tag: Tag, v: Versions, node: Option<Tag>): (Tables, Option<Tag>) {
    var u := UpsertCliRow(Leaves(t, v), Some(tag), v.sdk, v.devnet);
    (Backfill(u, node, tag), if Backfills(u, node) then node else None)
  }

  function UpsertContracts(t: Tables, tag: Tag): Tables {
    InsertContracts(t, Some(tag))
  }

  // ---- What every transaction keeps ----

  lemma CliRowKeeps(t: Tables, cli: Option<Tag>, sdk: Option<Tag>, devnet: Option<Tag>)
    requires ForeignKeys(t) && (sdk.Some? ==> sdk.value in t.sdks) && (devnet.Some? ==> devnet.value in t.devnets)
    ensures ForeignKeys(UpsertCliRow(t, cli, sdk, devnet))
  {}

  lemma NodeKeeps(t: Tables, tag: Tag, major: int, resolved: Versions)
    requires ForeignKeys(t)
    ensures ForeignKeys(UpsertNode(t, tag, major, resolved))
  {
    var v := if major >= 2 then resolved else NO_VERSIONS;
    var u := UpsertCliRow(Leaves(t, v), v.cli, v.sdk, v.devnet);
    CliRowKeeps(Leaves(t, v), v.cli, v.sdk, v.devnet);
  }

  lemma CliKeeps(t: Tables, tag: Tag, v: Versions, node: Option<Tag>)
    requires ForeignKeys(t)
    ensures ForeignKeys(UpsertCli(t, tag, v, node).0)
  {
    CliRowKeeps(Leaves(t, v), Some(tag), v.sdk, v.devnet);
  }

  /** No row disappears and no link that is set becomes null. */
  predicate Grows(t: Tables, u: Tables) {
    && t.contracts <= u.contracts && t.sdks <= u.sdks
    && (forall d :: d in t.devnets ==> d in u.devnets && (t.devnets[d].Some? ==> u.devnets[d].Some?))
    && (forall c :: c in t.clis ==> c in u.clis && (t.clis[c].sdk.Some? ==> u.clis[c].sdk.Some?)
                                    && (t.clis[c].devnet.Some? ==> u.clis[c].devnet.Some?))
    && (forall r :: r in t.releases ==> r in u.releases && (t.releases[r].cli.Some? ==> u.releases[r].cli.Some?))
  }

  /** No release that has a cli_tag gets another. */
  predicate CliTagsStay(t: Tables, u: Tables) {
    forall r :: r in t.releases && t.releases[r].cli.Some? ==> r in u.releases && u.releases[r].cli == t.releases[r].cli
  }

  lemma LeavesGrow(t: Tables, v: Versions)
    ensures Grows(t, Leaves(t, v)) && Leaves(t, v).clis == t.clis && Leaves(t, v).releases == t.releases
  {}

  lemma GrowsTrans(t: Tables, u: Tables, w: Tables)
    requires Grows(t, u) && Grows(u, w)
    ensures Grows(t, w)
  {}

  lemma NodeGrows(t: Tables, tag: Tag, major: int, resolved: Versions)
    ensures Grows(t, UpsertNode(t, tag, major, resolved))
  {
    var v := if major >= 2 then resolved else NO_VERSIONS;
    LeavesGrow(t, v);
    var u := Leaves(t, v);
    GrowsTrans(t, u, UpsertNode(t, tag, major, resolved)) by { assert Grows(u, UpsertNode(t, tag, major, resolved)); }
  }

  lemma CliGrows(t: Tables, tag: Tag, v: Versions, node: Option<Tag>)
    ensures Grows(t, UpsertCli(t, tag, v, node).0) && CliTagsStay(t, UpsertCli(t, tag, v, node).0)
  {
    LeavesGrow(t, v);
    var u := Leaves(t, v);
    var w := UpsertCli(t, tag, v, node).0;
    GrowsTrans(t, u, w) by { assert Grows(u, w); }
  }

  /** After a CLI release its row has the links the release brings, and keeps those it had where the
      release brings none; the release that is backfilled is exactly one that was there without a CLI. */
  lemma CliLinksAre(t: Tables, tag: Tag, v: Versions, node: Option<Tag>)
    ensures var u := UpsertCli(t, tag, v, node).0;
      && tag in u.clis
      && (v.sdk.Some? ==> u.clis[tag].sdk == v.sdk) && (v.devnet.Some? ==> u.clis[tag].devnet == v.devnet)
      && (tag in t.clis && v.sdk.None? ==> u.clis[tag].sdk == t.clis[tag].sdk)
      && (tag in t.clis && v.devnet.None? ==> u.clis[tag].devnet == t.clis[tag].devnet)
      && (forall c :: c in t.clis && c != tag ==> c in u.clis && u.clis[c] == t.clis[c])
    ensures var (u, backfilled) := UpsertCli(t, tag, v, node);
      && (backfilled.Some? <==> node.Some? && node.value in t.releases && t.releases[node.value].cli.None?)
      && (backfilled.Some? ==> backfilled == node && u.releases[node.value].cli == Some(tag))
      && u.releases.Keys == t.releases.Keys
      && (forall r :: r in t.releases && Some(r) != backfilled ==> u.releases[r] == t.releases[r])
  {
    LeavesGrow(t, v);
  }

  /** After a node release its row has the CLI that was resolved, or else the one it had, and so on down the
      chain; before major version 2 nothing below it changes. */
  lemma NodeLinksAre(t: Tables, tag: Tag, major: int, resolved: Versions)
    ensures var u := UpsertNode(t, tag, major, resolved);
      && tag in u.releases && u.releases[tag].major == major
      && (major >= 2 && resolved.cli.Some? ==> u.releases[tag].cli == resolved.cli)
      && ((major < 2 || resolved.cli.None?) && tag in t.releases ==> u.releases[tag].cli == t.releases[tag].cli)
      && (tag !in t.releases ==> u.releases[tag].cli == if major >= 2 then resolved.cli else None)
      && (forall r :: r in t.releases && r != tag ==> r in u.releases && u.releases[r] == t.releases[r])
      && (major >= 2 && resolved.devnet.Some? && resolved.contracts.Some? ==>
           u.devnets[resolved.devnet.value] == resolved.contracts)
      && (major >= 2 && resolved.cli.Some? && resolved.devnet.Some? ==>
           u.clis[resolved.cli.value].devnet == resolved.devnet)
      && (major >= 2 && resolved.cli.Some? && resolved.sdk.Some? ==> u.clis[resolved.cli.value].sdk == resolved.sdk)
      && (major < 2 ==> u.clis == t.clis && u.devnets == t.devnets && u.sdks == t.sdks && u.contracts == t.contracts)
  {
    LeavesGrow(t, if major >= 2 then resolved else NO_VERSIONS);
  }

  /** After a contracts release its row is there, and nothing else has changed. */
  lemma ContractsAre(t: Tables, tag: Tag)
    ensures var u := UpsertContracts(t, tag);
      && (forall c :: c in u.contracts <==> c in t.contracts || c == tag)
      && u.sdks == t.sdks && u.devnets == t.devnets && u.clis == t.clis && u.releases == t.releases
  {}

  datatype Event =
    | Node(tag: Tag, major: int, resolved: Versions)
    | Cli(tag: Tag, found: Versions, node: Option<Tag>)
    | Contracts(tag: Tag)

  function Do(t: Tables, e: Event): Tables {
    match e
    case Node(tag, major, resolved) => UpsertNode(t, tag, major, resolved)
    case Cli(tag, found, node) => UpsertCli(t, tag, found, node).0
    case Contracts(tag) => UpsertContracts(t, tag)
  }

  function After(t: Tables, es: seq<Event>): Tables
    decreases |es|
  {
    if es == [] then t else After(Do(t, es[0]), es[1..])
  }

  /** Over any sequence of the watchers' upserts: every link that is set points at a row, no link that is
      set becomes null, and no row goes. */
  lemma {:induction false} ChainHolds(t: Tables, es: seq<Event>)
    requires ForeignKeys(t)
    ensures ForeignKeys(After(t, es)) && Grows(t, After(t, es))
    decreases |es|
  {
    if es != [] {
      var u := Do(t, es[0]);
      match es[0] {
        case Node(tag, major, resolved) => NodeKeeps(t, tag, major, resolved); NodeGrows(t, tag, major, resolved);
        case Cli(tag, found, node) => CliKeeps(t, tag, found, node); CliGrows(t, tag, found, node);
        case Contracts(tag) => assert ForeignKeys(u) && Grows(t, u);
      }
      ChainHolds(u, es[1..]);
      GrowsTrans(t, u, After(t, es));
    }
  }

  /** The release that an event is about is in the catalog. */
  predicate Listed(t: Tables, e: Event) {
    match e
    case Node(tag, major, _) => tag in t.releases
    case Cli(tag, _, _) => tag in t.clis
    case Contracts(tag) => tag in t.contracts
  }

  /** Every release that was processed is listed from then on. */
  lemma {:induction false} ProcessedIsListed(t: Tables, es: seq<Event>, i: nat)
    requires ForeignKeys(t) && i < |es|
    ensures Listed(After(t, es), es[i])
    decreases |es|
  {
    var u := Do(t, es[0]);
    assert es == [es[0]] + es[1..];
    ChainHolds(t, [es[0]]);
    assert After(t, [es[0]]) == u by { OneEvent(t, es[0]); }
    if i == 0 {
      assert Listed(u, es[0]);
      ChainHolds(u, es[1..]);
    } else {
      ProcessedIsListed(u, es[1..], i - 1);
    }
  }

  predicate NoNode(es: seq<Event>) {
    forall i :: 0 <= i < |es| ==> !es[i].Node?
  }

  /** However many CLI and contracts releases are processed, no cli_tag that was set changes. */
  lemma {:induction false} CliTagsSurvive(t: Tables, es: seq<Event>)
    requires NoNode(es)
    ensures CliTagsStay(t, After(t, es))
    decreases |es|
  {
    if es != [] {
      assert !es[0].Node?;
      if es[0].Cli? { CliGrows(t, es[0].tag, es[0].found, es[0].node); }
      CliTagsSurvive(Do(t, es[0]), es[1..]);
    }
  }

  // ---- Resolution of the contracts version ----

  /** The walk release -> cli -> devnet -> contracts. */
  function Resolve(t: Tables, release: Tag): Option<Tag> {
    if release !in t.releases || t.releases[release].cli.None? then None
    else OfCli(t, t.releases[release].cli.value)
  }

  function OfCli(t: Tables, cli: Tag): Option<Tag> {
    if cli !in t.clis || t.clis[cli].devnet.None? then None
    else if t.clis[cli].devnet.value !in t.devnets then None
    else t.devnets[t.clis[cli].devnet.value]
  }

  predicate Resolvable(t: Tables, release: Tag) {
    Resolve(t, release).Some?
  }

  function CliTag(t: Tables, node: Tag): Option<Tag> {
    if node in t.releases then t.releases[node].cli else None
  }

  function DevnetOf(t: Tables, cli: Tag): Option<Tag> {
    if cli in t.clis then t.clis[cli].devnet else None
  }

  function ContractsOf(t: Tables, devnet: Tag): Option<Tag> {
    if devnet in t.devnets then t.devnets[devnet] else None
  }

  /** The devnet of a CLI once the versions v are written: those of v where v names that CLI, and the present
      one where v brings none. */
  function DevnetThen(t: Tables, v: Versions, cli: Tag): Option<Tag> {
    if v.cli == Some(cli) then Coalesce(v.devnet, DevnetOf(t, cli)) else DevnetOf(t, cli)
  }

  function ContractsThen(t: Tables, v: Versions, devnet: Tag): Option<Tag> {
    if v.devnet == Some(devnet) then Coalesce(v.contracts, ContractsOf(t, devnet)) else ContractsOf(t, devnet)
  }

  /** The contracts version of a CLI once the versions v are written, read from the tables before. */
  function OfCliThen(t: Tables, v: Versions, cli: Option<Tag>): Option<Tag> {
    if cli.None? || DevnetThen(t, v, cli.value).None? then None
    else ContractsThen(t, v, DevnetThen(t, v, cli.value).value)
  }

  function Written(major: int, resolved: Versions): Versions {
    if major >= 2 then resolved else NO_VERSIONS
  }

  lemma ChainThen(t: Tables, v: Versions, cli: Tag)
    requires ForeignKeys(t)
    ensures OfCli(UpsertCliRow(Leaves(t, v), v.cli, v.sdk, v.devnet), cli) == OfCliThen(t, v, Some(cli))
  {}

  /** What every release resolves to after a node release, from the tables before it. */
  lemma NodeResolution(t: Tables, tag: Tag, major: int, resolved: Versions, release: Tag)
    requires ForeignKeys(t)
    ensures var v := Written(major, resolved);
      Resolve(UpsertNode(t, tag, major, resolved), release)
      == OfCliThen(t, v, if release == tag then Coalesce(v.cli, CliTag(t, tag)) else CliTag(t, release))
  {
    var v := Written(major, resolved);
    var cli := if release == tag then Coalesce(v.cli, CliTag(t, tag)) else CliTag(t, release);
    if cli.Some? { ChainThen(t, v, cli.value); }
  }

  /** And after a CLI release. */
  lemma CliResolution(t: Tables, tag: Tag, v: Versions, node: Option<Tag>, release: Tag)
    requires ForeignKeys(t)
    ensures Resolve(UpsertCli(t, tag, v, node).0, release)
      == OfCliThen(t, v.(cli := Some(tag)),
                   if Some(release) == node && Backfills(t, node) then Some(tag) else CliTag(t, release))
  {
    var cli := if Some(release) == node && Backfills(t, node) then Some(tag) else CliTag(t, release);
    if cli.Some? { ChainThen(t, v.(cli := Some(tag)), cli.value); }
  }

  /** A node release takes the contracts version from another release exactly when it moves that release's CLI
      to a devnet that has none and brings none. */
  lemma NodeBreaksOtherIff(t: Tables, tag: Tag, major: int, resolved: Versions, release: Tag)
    requires ForeignKeys(t) && Resolvable(t, release) && release != tag
    ensures var v := Written(major, resolved);
      !Resolvable(UpsertNode(t, tag, major, resolved), release) <==>
        v.cli == t.releases[release].cli && v.devnet.Some? && v.contracts.None? && ContractsOf(t, v.devnet.value).None?
  {
    NodeResolution(t, tag, major, resolved, release);
  }

  /** It takes its own exactly when the CLI then in force, the one that was resolved or else its own, has and
      gets no devnet, or one that has no contracts version and gets none. */
  lemma NodeBreaksItselfIff(t: Tables, tag: Tag, major: int, resolved: Versions)
    requires ForeignKeys(t) && Resolvable(t, tag)
    ensures var v := Written(major, resolved);
      var cli := if v.cli.Some? then v.cli.value else t.releases[tag].cli.value;
      var devnet := if v.cli.Some? then Coalesce(v.devnet, DevnetOf(t, cli)) else DevnetOf(t, cli);
      !Resolvable(UpsertNode(t, tag, major, resolved), tag) <==>
        devnet.None? || (ContractsOf(t, devnet.value).None? && (v.devnet != devnet || v.contracts.None?))
  {
    NodeResolution(t, tag, major, resolved, tag);
  }

  /** A CLI release takes the contracts version from a release exactly when it moves that release's CLI, which
      is its own, to a devnet that has none and brings none. */
  lemma CliBreaksIff(t: Tables, tag: Tag, v: Versions, node: Option<Tag>, release: Tag)
    requires ForeignKeys(t) && Resolvable(t, release)
    ensures !Resolvable(UpsertCli(t, tag, v, node).0, release) <==>
      t.releases[release].cli == Some(tag) && v.devnet.Some? && v.contracts.None?
      && ContractsOf(t, v.devnet.value).None?
  {
    CliResolution(t, tag, v, node, release);
  }

  /** A CLI release leaves the resolution of a node that uses another CLI as it was, unless it ships the
      same devnet with a contracts version of its own: then it decides. */
  lemma CliMovesSharedDevnet(t: Tables, tag: Tag, v: Versions, node: Option<Tag>, release: Tag)
    requires ForeignKeys(t) && release in t.releases && t.releases[release].cli.Some?
      && t.releases[release].cli.value != tag
    ensures var cli := t.releases[release].cli.value;
      Resolve(UpsertCli(t, tag, v, node).0, release)
      == if t.clis[cli].devnet.Some? && v.devnet == t.clis[cli].devnet && v.contracts.Some? then v.contracts
         else Resolve(t, release)
  {
    CliResolution(t, tag, v, node, release);
  }

  const NOTHING := Tables({}, {}, map[], map[], map[])

  /** From an empty catalog: a node release resolves, a second node release moves their common CLI to a new
      devnet, and the first resolves no more. */
  lemma NodeCanBreakAnother(a: Tag, b: Tag, cli: Tag, d: Tag, e: Tag, k: Tag)
    requires a != b && d != e
    ensures
      var t := After(NOTHING, [Node(a, 2, Versions(None, Some(d), Some(k), Some(cli)))]);
      var u := After(t, [Node(b, 2, Versions(None, Some(e), None, Some(cli)))]);
      Resolve(t, a) == Some(k) && Resolve(u, a) == None
  {
    var v, w := Versions(None, Some(d), Some(k), Some(cli)), Versions(None, Some(e), None, Some(cli));
    var t := UpsertNode(NOTHING, a, 2, v);
    OneEvent(NOTHING, Node(a, 2, v));
    OneEvent(t, Node(b, 2, w));
    NodeKeeps(NOTHING, a, 2, v);
    NodeResolution(NOTHING, a, 2, v, a);
    NodeResolution(t, b, 2, w, a);
    assert CliTag(t, a) == Some(cli) && ContractsOf(t, e) == None;
  }

  lemma {:induction false} OneEvent(t: Tables, e: Event)
    ensures After(t, [e]) == Do(t, e)
  {
    assert [e][1..] == [];
  }

  // ---- The order of the watchers ----

  /** The node's cli_tag when its release is processed first, then the CLI release that mentions it. */
  function NodeThenCli(t: Tables, node: Tag, resolved: Versions, cli: Tag, found: Versions): Option<Tag> {
    CliTag(UpsertCli(UpsertNode(t, node, 2, resolved), cli, found, Some(node)).0, node)
  }

  /** And the other way round. */
  function CliThenNode(t: Tables, node: Tag, resolved: Versions, cli: Tag, found: Versions): Option<Tag> {
    CliTag(UpsertNode(UpsertCli(t, cli, found, Some(node)).0, node, 2, resolved), node)
  }

  /** A new node release and the CLI release that mentions it end with the same cli_tag in either order
      exactly when the resolver found the node a CLI. */
  lemma OrderAgreesIff(t: Tables, node: Tag, resolved: Versions, cli: Tag, found: Versions)
    requires node !in t.releases
    ensures NodeThenCli(t, node, resolved, cli, found) == Coalesce(resolved.cli, Some(cli))
    ensures CliThenNode(t, node, resolved, cli, found) == resolved.cli
    ensures NodeThenCli(t, node, resolved, cli, found) == CliThenNode(t, node, resolved, cli, found) <==>
      resolved.cli.Some?
  {
    NodeLinksAre(t, node, 2, resolved);
    CliLinksAre(UpsertNode(t, node, 2, resolved), cli, found, Some(node));
    CliLinksAre(t, cli, found, Some(node));
    NodeLinksAre(UpsertCli(t, cli, found, Some(node)).0, node, 2, resolved);
  }

  /** The catalog as the object it is: each statement of a transaction updates the tables in place, and
      none is ever refused. */
  class Database {
    var contracts: set<Tag>
    var sdks: set<Tag>
    var devnets: map<Tag, Option<Tag>>
    var clis: map<Tag, CliRow>
    var releases: map<Tag, ReleaseRow>

    constructor ()
      ensures View() == Tables({}, {}, map[], map[], map[]) && ForeignKeys(View())
    {
      contracts, sdks, devnets, clis, releases := {}, {}, map[], map[], map[];
    }

    function View(): Tables
      reads this
    {
      Tables(contracts, sdks, devnets, clis, releases)
    }

    method WriteLeaves(v: Versions)
      requires ForeignKeys(View())
      modifies this`sdks, this`contracts, this`devnets
      ensures View() == Leaves(old(View()), v) && ForeignKeys(View())
    {
      if v.sdk.Some? { sdks := sdks + {v.sdk.value}; }
      if v.contracts.Some? { contracts := contracts + {v.contracts.value}; }
      assert ForeignKeys(View());
      if v.devnet.Some? {
        var d := v.devnet.value;
        devnets := devnets[d := if d in devnets then Coalesce(v.contracts, devnets[d]) else v.contracts];
      }
    }

    method WriteCli(tag: Tag, v: Versions)
      requires ForeignKeys(View())
      requires v.sdk.Some? ==> v.sdk.value in sdks
      requires v.devnet.Some? ==> v.devnet.value in devnets
      modifies this`clis
      ensures View() == UpsertCliRow(old(View()), Some(tag), v.sdk, v.devnet) && ForeignKeys(View())
    {
      clis := clis[tag :=
        if tag in clis then CliRow(Coalesce(v.sdk, clis[tag].sdk), Coalesce(v.devnet, clis[tag].devnet))
        else CliRow(v.sdk, v.devnet)];
    }

    method NodeRelease(tag: Tag, major: int, resolved: Versions)
      requires ForeignKeys(View())
      modifies this
      ensures View() == UpsertNode(old(View()), tag, major, resolved) && ForeignKeys(View())
    {
      var v := NO_VERSIONS;
      if major >= 2 { v := resolved; }
      WriteLeaves(v);
      if v.cli.Some? { WriteCli(v.cli.value, v); }
      var cli := v.cli;
      if tag in releases { cli := Coalesce(cli, releases[tag].cli); }
      releases := releases[tag := ReleaseRow(cli, major)];
    }

    method CliRelease(tag: Tag, v: Versions, node: Option<Tag>) returns (backfilled: Option<Tag>)
      requires ForeignKeys(View())
      modifies this
      ensures (View(), backfilled) == UpsertCli(old(View()), tag, v, node) && ForeignKeys(View())
    {
      WriteLeaves(v);
      WriteCli(tag, v);
      backfilled := None;
      if node.Some? && node.value in releases && releases[node.value].cli.None? {
        releases := releases[node.value := releases[node.value].(cli := Some(tag))];
        backfilled := node;
      }
    }

    method ContractsRelease(tag: Tag)
      requires ForeignKeys(View())
      modifies this`contracts
      ensures View() == UpsertContracts(old(View()), tag) && ForeignKeys(View())
    {
      contracts := contracts + {tag};
    }
  }
}
