/** Docker resources labelled with a sandbox id: the garbage collector and the teardown. */
module Docker {
  import opened Wrappers
  import opened Collections

  type Sid = string
  type Label = Option<string>

  /** Containers and networks with their sandbox label; snapshot volumes, build directories and compose
      directories by name. */
  datatype Resources = Resources(
    containers: map<string, Label>, networks: map<string, Label>, volumes: set<string>,
    buildDirs: set<string>, composeDirs: set<string>)

  /** What Docker refuses: listing, and the removal of the names in stuck. */
  datatype Faults = Faults(listContainers: bool, listNetworks: bool, stuck: set<string>)

  const NO_FAULTS := Faults(false, false, {})

  /** The label names a sandbox outside active. A missing or empty label never counts. */
  predicate Orphaned(tag: Label, active: set<Sid>) {
    tag.Some? && tag.value != "" && tag.value !in active
  }

  function Short(sid: Sid): string {
    if |sid| <= 8 then sid else sid[..8]
  }

  function ComposeDir(sid: Sid): string {
    "sbx-" + Short(sid)
  }

  function SnapshotVolume(sid: Sid): string {
    "rvp-snapshot-" + Short(sid)
  }

  /** The sandboxes a pass treats as orphaned: only containers tell. */
  function Orphans(r: Resources, active: set<Sid>, f: Faults): set<Sid> {
    if f.listContainers then {}
    else set c | c in r.containers && Orphaned(r.containers[c], active) :: r.containers[c].value
  }

  function Purge(m: map<string, Label>, active: set<Sid>, stuck: set<string>): map<string, Label> {
    map k | k in m && (Orphaned(m[k], active) ==> k in stuck) :: m[k]
  }

  function Volumes(orphans: set<Sid>): set<string> {
    set sid | sid in orphans :: SnapshotVolume(sid)
  }

  function BuildDirs(orphans: set<Sid>): set<string> {
    set sid | sid in orphans :: Short(sid)
  }

  /** One undisturbed pass of the garbage collector. */
  function Collected(r: Resources, active: set<Sid>, f: Faults): Resources {
    Resources(
      if f.listContainers then r.containers else Purge(r.containers, active, f.stuck),
      if f.listNetworks then r.networks else Purge(r.networks, active, f.stuck),
      r.volumes - (Volumes(Orphans(r, active, f)) - f.stuck),
      r.buildDirs - (BuildDirs(Orphans(r, active, f)) - f.stuck),
      r.composeDirs)
  }

  /** The removal of what one sandbox's record names. */
  function TornDown(r: Resources, sid: Sid, containerIds: set<string>, network: string, volume: Option<string>,
      f: Faults)
    : Resources
  {
    Resources(
      r.containers - (containerIds - f.stuck),
      r.networks - ({network} - f.stuck),
      r.volumes - ((if volume.Some? then {volume.value} else {}) - f.stuck),
      r.buildDirs - ({Short(sid)} - f.stuck),
      r.composeDirs - ({ComposeDir(sid)} - f.stuck))
  }

  /** The snapshot volume to remove: the one the caller names, or else the one the process remembers. */
  function VolumeOf(volume: Option<string>, remembered: map<Sid, string>, sid: Sid): Option<string> {
    if volume.Some? && volume.value != "" then volume
    else if sid in remembered then Some(remembered[sid]) else None
  }

  lemma OneMoreVolume(orphans: set<Sid>, sid: Sid)
    ensures Volumes(orphans + {sid}) == Volumes(orphans) + {SnapshotVolume(sid)}
  {}

  lemma OneMoreBuildDir(orphans: set<Sid>, sid: Sid)
    ensures BuildDirs(orphans + {sid}) == BuildDirs(orphans) + {Short(sid)}
  {}

  lemma OneName(names: set<string>, x: string, stuck: set<string>)
    ensures names - ({x} - stuck) == if x in stuck then names else names - {x}
  {}

  lemma OneKey(m: map<string, Label>, x: string, stuck: set<string>)
    ensures m - ({x} - stuck) == if x in stuck then m else m - {x}
  {
    if x in stuck { assert {x} - stuck == {}; } else { assert {x} - stuck == {x}; }
  }

  lemma NoName(names: set<string>, stuck: set<string>)
    ensures names - ({} - stuck) == names
  {}

  class Host {
    var containers: map<string, Label>
    var networks: map<string, Label>
    var volumes: set<string>
    var buildDirs: set<string>
    var composeDirs: set<string>
    var perSandboxVolumes: map<Sid, string>

    function View(): Resources
      reads this
    {
      Resources(containers, networks, volumes, buildDirs, composeDirs)
    }

    method CollectContainers(active: set<Sid>, stuck: set<string>) returns (orphans: set<Sid>)
      modifies this`containers
      ensures containers == Purge(old(containers), active, stuck)
      ensures orphans
           == set c | c in old(containers) && Orphaned(old(containers)[c], active) :: old(containers)[c].value
    {
      orphans := {};
      var listed := containers.Keys;
      var all := containers;
      var seen: set<string> := {};
      while seen != listed
        invariant seen <= listed == all.Keys && all == old(containers)
        invariant containers == map k | k in all && (k in seen && Orphaned(all[k], active) ==> k in stuck) :: all[k]
        invariant orphans == set c | c in seen && Orphaned(all[c], active) :: all[c].value
        decreases |listed - seen|
      {
        var c :| c in listed - seen;
        assert listed - (seen + {c}) == (listed - seen) - {c};
        seen := seen + {c};
        if Orphaned(all[c], active) {
          orphans := orphans + {all[c].value};
          if c !in stuck {
            containers := containers - {c};
          }
        }
      }
    }

    method CollectNetworks(active: set<Sid>, stuck: set<string>)
      modifies this`networks
      ensures networks == Purge(old(networks), active, stuck)
    {
      var listed := networks.Keys;
      var all := networks;
      var seen: set<string> := {};
      while seen != listed
        invariant seen <= listed == all.Keys && all == old(networks)
        invariant networks == map k | k in all && (k in seen && Orphaned(all[k], active) ==> k in stuck) :: all[k]
        decreases |listed - seen|
      {
        var n :| n in listed - seen;
        assert listed - (seen + {n}) == (listed - seen) - {n};
        seen := seen + {n};
        if Orphaned(all[n], active) && n !in stuck {
          networks := networks - {n};
        }
      }
    }

    method CollectVolumes(orphans: set<Sid>, stuck: set<string>)
      modifies this`volumes, this`buildDirs
      ensures volumes == old(volumes) - (Volumes(orphans) - stuck)
      ensures buildDirs == old(buildDirs) - (BuildDirs(orphans) - stuck)
    {
      var seen: set<Sid> := {};
      while seen != orphans
        invariant seen <= orphans
        invariant volumes == old(volumes) - (Volumes(seen) - stuck)
        invariant buildDirs == old(buildDirs) - (BuildDirs(seen) - stuck)
        decreases |orphans - seen|
      {
        var sid :| sid in orphans - seen;
        assert orphans - (seen + {sid}) == (orphans - seen) - {sid};
        OneMoreVolume(seen, sid);
        OneMoreBuildDir(seen, sid);
        if SnapshotVolume(sid) !in stuck { volumes := volumes - {SnapshotVolume(sid)}; }
        if Short(sid) !in stuck { buildDirs := buildDirs - {Short(sid)}; }
        seen := seen + {sid};
      }
    }

    method GcOrphanedResources(active: set<Sid>, f: Faults) returns (cleaned: nat)
      modifies this`containers, this`networks, this`volumes, this`buildDirs
      ensures View() == Collected(old(View()), active, f)
      ensures cleaned == |Orphans(old(View()), active, f)|
    {
      var orphans: set<Sid> := {};
      if !f.listContainers { orphans := CollectContainers(active, f.stuck); }
      if !f.listNetworks { CollectNetworks(active, f.stuck); }
      CollectVolumes(orphans, f.stuck);
      cleaned := |orphans|;
    }

    method RemoveContainers(containerIds: seq<string>, stuck: set<string>)
      modifies this`containers
      ensures containers == old(containers) - (Elements(containerIds) - stuck)
    {
      for i := 0 to |containerIds|
        invariant containers == old(containers) - (Elements(containerIds[..i]) - stuck)
      {
        assert containerIds[..i + 1] == containerIds[..i] + [containerIds[i]];
        if containerIds[i] !in stuck { containers := containers - {containerIds[i]}; }
      }
      assert containerIds[..|containerIds|] == containerIds;
    }

    method Teardown(sid: Sid, containerIds: seq<string>, network: string, volume: Option<string>, f: Faults)
      modifies this
      ensures View()
           == TornDown(old(View()), sid, Elements(containerIds), network,
             VolumeOf(volume, old(perSandboxVolumes), sid), f)
      ensures perSandboxVolumes == old(perSandboxVolumes) - {sid}
    {
      var toRemove := VolumeOf(volume, perSandboxVolumes, sid);
      perSandboxVolumes := perSandboxVolumes - {sid};
      RemoveContainers(containerIds, f.stuck);
      OneKey(networks, network, f.stuck);
      NoName(volumes, f.stuck);
      if toRemove.Some? { OneName(volumes, toRemove.value, f.stuck); }
      OneName(buildDirs, Short(sid), f.stuck);
      OneName(composeDirs, ComposeDir(sid), f.stuck);
      if network !in f.stuck { networks := networks - {network}; }
      if toRemove.Some? && toRemove.value !in f.stuck { volumes := volumes - {toRemove.value}; }
      if Short(sid) !in f.stuck { buildDirs := buildDirs - {Short(sid)}; }
      if ComposeDir(sid) !in f.stuck { composeDirs := composeDirs - {ComposeDir(sid)}; }
    }
  }

  /** Whatever fails: a container goes exactly if the listing worked, its label names a sandbox outside the active
      ones, and its removal is not refused; and so does a network. A listing of containers that fails leaves the
      volumes and directories alone as well. */
  lemma CollectedIff(r: Resources, active: set<Sid>, f: Faults, k: string)
    ensures var t := Collected(r, active, f);
      && (k in r.containers ==>
           (k !in t.containers <==>
            !f.listContainers && k !in f.stuck
            && r.containers[k].Some? && r.containers[k].value != "" && r.containers[k].value !in active))
      && (k in r.networks ==>
           (k !in t.networks <==>
            !f.listNetworks && k !in f.stuck
            && r.networks[k].Some? && r.networks[k].value != "" && r.networks[k].value !in active))
      && t.containers.Keys <= r.containers.Keys && t.networks.Keys <= r.networks.Keys
      && (forall c :: c in t.containers ==> t.containers[c] == r.containers[c])
      && (forall n :: n in t.networks ==> t.networks[n] == r.networks[n])
      && (f.listContainers ==> t.volumes == r.volumes && t.buildDirs == r.buildDirs)
      && t.composeDirs == r.composeDirs
  {
    if f.listContainers { assert Volumes({}) == {} && BuildDirs({}) == {}; }
  }

  /** A pass that can list the containers takes exactly the volumes named after a sandbox it finds orphaned, by the
      first eight characters of its id, less those whose removal is refused; and so the directories. */
  lemma CollectedVolumesIff(r: Resources, active: set<Sid>, f: Faults, v: string)
    requires !f.listContainers
    ensures v in r.volumes ==> (v !in Collected(r, active, f).volumes <==> v !in f.stuck && exists c ::
      c in r.containers && Orphaned(r.containers[c], active) && v == SnapshotVolume(r.containers[c].value))
    ensures v in r.buildDirs ==> (v !in Collected(r, active, f).buildDirs <==> v !in f.stuck && exists c ::
      c in r.containers && Orphaned(r.containers[c], active) && v == Short(r.containers[c].value))
  {}

  /** Names are cut to eight characters, so two sandboxes share them exactly when these agree. */
  lemma NamesAgreeIff(a: Sid, b: Sid)
    requires |a| >= 8 && |b| >= 8
    ensures SnapshotVolume(a) == SnapshotVolume(b) <==> a[..8] == b[..8]
    ensures ComposeDir(a) == ComposeDir(b) <==> a[..8] == b[..8]
    ensures Short(a) == Short(b) <==> a[..8] == b[..8]
  {
    if SnapshotVolume(a) == SnapshotVolume(b) { SameVolume(a, b); }
    assert ComposeDir(a)[|"sbx-"|..] == Short(a) && ComposeDir(b)[|"sbx-"|..] == Short(b);
  }

  /** A pass whose removals succeed leaves exactly the containers and networks that are unlabelled or of
      an active sandbox, and a second pass finds nothing. */
  lemma CollectedIsClean(r: Resources, active: set<Sid>)
    ensures var t := Collected(r, active, NO_FAULTS);
      && (forall c :: c in t.containers <==> c in r.containers && !Orphaned(r.containers[c], active))
      && (forall n :: n in t.networks <==> n in r.networks && !Orphaned(r.networks[n], active))
      && Orphans(t, active, NO_FAULTS) == {}
      && Collected(t, active, NO_FAULTS) == t
  {
    var t := Collected(r, active, NO_FAULTS);
    assert Orphans(t, active, NO_FAULTS) == {};
    assert Collected(t, active, NO_FAULTS).containers == t.containers;
    assert Collected(t, active, NO_FAULTS).networks == t.networks;
    assert Volumes({}) == {} && BuildDirs({}) == {};
  }

  /** Whatever fails, nothing that belongs to an active sandbox goes, except through the eight-character
      name: its snapshot volume goes exactly when an orphan with a container shares that prefix. */
  lemma ActiveIsSafe(r: Resources, active: set<Sid>, f: Faults, sid: Sid)
    requires sid in active
    ensures forall c :: c in r.containers && r.containers[c] == Some(sid) ==> c in Collected(r, active, f).containers
    ensures forall n :: n in r.networks && r.networks[n] == Some(sid) ==> n in Collected(r, active, f).networks
    ensures SnapshotVolume(sid) in r.volumes ==>
      (SnapshotVolume(sid) !in Collected(r, active, f).volumes <==>
       SnapshotVolume(sid) !in f.stuck && exists o :: o in Orphans(r, active, f) && Short(o) == Short(sid))
  {
    if o :| o in Orphans(r, active, f) && Short(o) == Short(sid) {
      assert SnapshotVolume(o) in Volumes(Orphans(r, active, f));
    }
    if SnapshotVolume(sid) in Volumes(Orphans(r, active, f)) {
      var o :| o in Orphans(r, active, f) && SnapshotVolume(o) == SnapshotVolume(sid);
      SameVolume(o, sid);
    }
  }

  lemma SameVolume(a: Sid, b: Sid)
    requires SnapshotVolume(a) == SnapshotVolume(b)
    ensures Short(a) == Short(b)
  {
    assert SnapshotVolume(a)[|"rvp-snapshot-"|..] == Short(a);
    assert SnapshotVolume(b)[|"rvp-snapshot-"|..] == Short(b);
  }

  /** The same of its build directory. */
  lemma ActiveBuildDir(r: Resources, active: set<Sid>, f: Faults, sid: Sid)
    requires sid in active && Short(sid) in r.buildDirs
    ensures Short(sid) !in Collected(r, active, f).buildDirs <==>
            Short(sid) !in f.stuck && exists o :: o in Orphans(r, active, f) && Short(o) == Short(sid)
  {
    if o :| o in Orphans(r, active, f) && Short(o) == Short(sid) {
      assert Short(o) in BuildDirs(Orphans(r, active, f));
    }
  }

  /** A snapshot volume whose sandbox has no container left is never collected: the orphans come from
      containers alone. */
  lemma VolumeWithoutContainerStays(r: Resources, active: set<Sid>, f: Faults, sid: Sid)
    requires SnapshotVolume(sid) in r.volumes
    requires forall c :: c in r.containers && r.containers[c].Some? ==> Short(r.containers[c].value) != Short(sid)
    ensures SnapshotVolume(sid) in Collected(r, active, f).volumes
  {
    if SnapshotVolume(sid) in Volumes(Orphans(r, active, f)) {
      var o :| o in Orphans(r, active, f) && SnapshotVolume(o) == SnapshotVolume(sid);
      SameVolume(o, sid);
    }
  }

  /** The snapshot volume that goes is the one the record names, or else the one remembered for the sandbox; a
      volume of that name is gone, and every other stays. */
  lemma TeardownTakesVolume(r: Resources, sid: Sid, ids: set<string>, network: string, volume: Option<string>,
                            remembered: map<Sid, string>, v: string)
    requires v in r.volumes
    ensures v !in TornDown(r, sid, ids, network, VolumeOf(volume, remembered, sid), NO_FAULTS).volumes <==>
      (volume == Some(v) && v != "") ||
      ((volume.None? || volume.value == "") && sid in remembered && remembered[sid] == v)
  {}

  /** Where its record is complete, a teardown leaves exactly the containers of the other sandboxes, the other
      networks and volumes, and the other directories, and what Docker refuses to remove. */
  lemma TeardownIsExact(r: Resources, sid: Sid, ids: set<string>, network: string, volume: Option<string>, f: Faults)
    requires forall c :: c in r.containers ==> (c in ids <==> r.containers[c] == Some(sid))
    ensures var t := TornDown(r, sid, ids, network, volume, f);
      && (forall c :: c in t.containers <==> c in r.containers && (r.containers[c] != Some(sid) || c in f.stuck))
      && (forall n :: n in t.networks <==> n in r.networks && (n != network || n in f.stuck))
      && (forall v :: v in t.volumes <==> v in r.volumes && (Some(v) != volume || v in f.stuck))
      && (forall d :: d in t.buildDirs <==> d in r.buildDirs && (d != Short(sid) || d in f.stuck))
      && (forall d :: d in t.composeDirs <==> d in r.composeDirs && (d != ComposeDir(sid) || d in f.stuck))
      && (forall c :: c in t.containers ==> t.containers[c] == r.containers[c])
      && (forall n :: n in t.networks ==> t.networks[n] == r.networks[n])
  {}
}
