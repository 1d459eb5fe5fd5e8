/**
 The destination of a migration creates the volumes it was asked for and takes them back
 when anything fails.
 */
module IncomingDisks {
  import opened Wrappers
  import opened Text
  import opened DiskBackend

  datatype Stat = BlockDevice | OtherFile | Missing | StatError

  /** The host: what stat says about paths that are no logical volumes, which volumes
      lvcreate fails on, and how URIs are parsed. */
  datatype Host = Host(uris: Uris, stat: string -> Stat, uncreatable: set<string>)

  function StatOf(h: Host, volumes: set<string>, path: string): Stat {
    if path in volumes then BlockDevice else h.stat(path)
  }

  /** lvm.CreateVolume: the device path of the new volume, or None. */
  function CreateVolume(h: Host, volumes: set<string>, vg: string, lv: string): Option<string> {
    var devpath := "/dev/" + vg + "/" + lv;
    if StatOf(h, volumes, devpath) == Missing && devpath !in h.uncreatable then Some(devpath) else None
  }

  /** One round of createLocalDisks: the volume it creates, or None if it gives up. A
      remote backend always claims to be available, hence to exist already. */
  function NewVolume(h: Host, volumes: set<string>, path: string): Option<string> {
    match NewDiskBackend(h.uris, path)
    case None => None
    case Some(b) =>
      if !b.IsLocal() || StatOf(h, volumes, b.path) != Missing || path == [] then None
      else
        var ff := Split(path[1..], '/');
        if |ff| != 3 then None else CreateVolume(h, volumes, ff[1], ff[2])
  }

  /** A way to create one volume, given those that exist. */
  type Maker = (set<string>, string) -> Option<string>

  function MakerOf(h: Host): Maker {
    (volumes: set<string>, path: string) => NewVolume(h, volumes, path)
  }

  /** What createLocalDisks leaves behind: the paths it remembers, all volumes, its verdict. */
  datatype Creation = Creation(paths: seq<string>, volumes: set<string>, ok: bool)

  function CreateAll(make: Maker, volumes: set<string>, paths: seq<string>): Creation
    decreases |paths|
  {
    if paths == [] then Creation([], volumes, true)
    else
      match make(volumes, paths[0])
      case None => Creation([], volumes, false)
      case Some(dev) =>
        var r := CreateAll(make, volumes + {dev}, paths[1..]);
        Creation([paths[0]] + r.paths, r.volumes, r.ok)
  }

  /** The device lvm.RemoveVolume goes for. */
  function RemovalPath(path: string): string {
    if HasPrefix(path, "/dev/") then path else "/dev/" + path
  }

  /** The volumes left when those of `paths` are removed; lvremove fails on the stuck ones. */
  function RemoveAll(stuck: set<string>, volumes: set<string>, paths: seq<string>): set<string>
    decreases |paths|
  {
    if paths == [] then volumes
    else
      var gone := RemovalPath(paths[0]);
      RemoveAll(stuck, if gone in stuck then volumes else volumes - {gone}, paths[1..])
  }

  class IncomingTask {
    var createdDisks: seq<string>
    var volumes: set<string>   // the logical volumes of the host

    constructor (volumes: set<string>)
      ensures createdDisks == [] && this.volumes == volumes
    {
      createdDisks, this.volumes := [], volumes;
    }

    /** `order` is the order in which the map of requested disks happens to be iterated. */
    method CreateLocalDisks(make: Maker, order: seq<string>) returns (ok: bool)
      requires createdDisks == []
      modifies this
      ensures Creation(createdDisks, volumes, ok) == CreateAll(make, old(volumes), order)
    {
      for i := 0 to |order|
        invariant var r := CreateAll(make, volumes, order[i..]);
                  Creation(createdDisks + r.paths, r.volumes, r.ok) == CreateAll(make, old(volumes), order)
      {
        var dev := make(volumes, order[i]);
        assert order[i..][0] == order[i] && order[i..][1..] == order[i + 1..];
        if dev.None? {
          assert createdDisks + [] == createdDisks;
          return false;
        }
        ghost var rest := CreateAll(make, volumes + {dev.value}, order[i + 1..]).paths;
        assert createdDisks + ([order[i]] + rest) == createdDisks + [order[i]] + rest;
        volumes := volumes + {dev.value};
        createdDisks := createdDisks + [order[i]];
      }
      assert createdDisks + [] == createdDisks;
      ok := true;
    }

    method OnFailure(stuck: set<string>)
      modifies this`volumes
      ensures volumes == RemoveAll(stuck, old(volumes), createdDisks)
    {
      for i := 0 to |createdDisks|
        invariant RemoveAll(stuck, volumes, createdDisks[i..]) == RemoveAll(stuck, old(volumes), createdDisks)
      {
        assert createdDisks[i..][0] == createdDisks[i] && createdDisks[i..][1..] == createdDisks[i + 1..];
        var dev := RemovalPath(createdDisks[i]);
        assert dev !in volumes ==> volumes - {dev} == volumes;
        if dev in volumes && dev !in stuck {
          volumes := volumes - {dev};
        }
      }
    }

    /** An incoming migration with disk creation, from BeforeStart to its end. Whatever comes after the
        disks may fail: starting the machine, the NBD server (`startOk`), the wait for the
        data (`mainOk`). */
    method Run(h: Host, order: seq<string>, startOk: bool, mainOk: bool, stuck: set<string>) returns (ok: bool)
      requires createdDisks == []
      modifies this
      ensures ok <==> CreateAll(MakerOf(h), old(volumes), order).ok && startOk && mainOk
      ensures ok ==> volumes == CreateAll(MakerOf(h), old(volumes), order).volumes
      // a success has remembered every path, and has a volume for each, besides the old ones
      ensures ok ==> createdDisks == order && old(volumes) <= volumes
      ensures ok ==> forall p :: p in order && HasPrefix(p, "/dev/") ==> p in volumes && p !in old(volumes)
      ensures !ok && stuck == {} && (forall p :: p in order ==> HasPrefix(p, "/dev/")) ==> volumes == old(volumes)
    {
      ok := CreateLocalDisks(MakerOf(h), order);
      CreatedIffRemembered(MakerOf(h), old(volumes), order);
      EachHasItsVolume(h, old(volumes), order);
      if !ok || !startOk || !mainOk {
        OnFailure(stuck);
        ok := false;
        if stuck == {} && (forall p :: p in order ==> HasPrefix(p, "/dev/")) {
          CreatedAreRequested(MakerOf(h), old(volumes), order);
          assert forall p :: p in createdDisks ==> p in order;
          RollbackRestoresIff(h, old(volumes), order);
        }
      }
    }
  }

  lemma {:induction false} CreatedAreRequested(make: Maker, volumes: set<string>, paths: seq<string>)
    ensures CreateAll(make, volumes, paths).paths <= paths
    decreases |paths|
  {
    if paths != [] && make(volumes, paths[0]).Some? {
      CreatedAreRequested(make, volumes + {make(volumes, paths[0]).value}, paths[1..]);
    }
  }

  /** Creation succeeds exactly if all paths are remembered in the end; otherwise it has given
      up at the first one whose volume could not be created. */
  lemma {:induction false} CreatedIffRemembered(make: Maker, volumes: set<string>, paths: seq<string>)
    ensures var r := CreateAll(make, volumes, paths);
            && r.paths <= paths
            && (r.ok <==> r.paths == paths)
            && (!r.ok ==> |r.paths| < |paths| && make(r.volumes, paths[|r.paths|]) == None)
    decreases |paths|
  {
    if paths != [] && make(volumes, paths[0]).Some? {
      var dev := make(volumes, paths[0]).value;
      CreatedIffRemembered(make, volumes + {dev}, paths[1..]);
      var more := CreateAll(make, volumes + {dev}, paths[1..]);
      assert paths == [paths[0]] + paths[1..];
      if more.paths != paths[1..] {
        assert ([paths[0]] + more.paths)[1..] == more.paths;
      }
    }
  }

  /** Every remembered path below /dev names a volume that was not there before. */
  lemma EachHasItsVolume(h: Host, volumes: set<string>, paths: seq<string>)
    ensures var r := CreateAll(MakerOf(h), volumes, paths);
            && volumes <= r.volumes
            && forall p :: p in r.paths && HasPrefix(p, "/dev/") ==> p in r.volumes && p !in volumes
  {
    MakerMakes(h);
    CreationIsFresh(MakerOf(h), volumes, paths);
    var r, ds := CreateAll(MakerOf(h), volumes, paths), NewVolumes(MakerOf(h), volumes, paths);
    forall p | p in r.paths && HasPrefix(p, "/dev/") ensures p in r.volumes && p !in volumes {
      var i :| 0 <= i < |r.paths| && r.paths[i] == p;
      assert ds[i] in ds;
    }
  }

  // ---------------------------------------------------------------------------
  // Which volume a path creates, and which one it removes

  /** For the path of a volume in a group: it is created exactly if nothing is there and
      lvcreate does it. */
  lemma VolumeIsCreatedIff(h: Host, volumes: set<string>, vg: string, lv: string)
    requires '/' !in vg && '/' !in lv && lv != "" && !IsSpace(lv[|lv| - 1])
    ensures var p := VolumePath(vg, lv);
            NewVolume(h, volumes, p) ==
              if p !in volumes && h.stat(p) == Missing && p !in h.uncreatable then Some(p) else None
  {
    var p := VolumePath(vg, lv);
    LocalBackend(h.uris, vg, lv);
    VolumeParts(vg, lv);
    assert "/dev/" + vg + "/" + lv == p;
    CreatesAt(h, volumes, p, vg, lv);
  }

  lemma VolumeParts(vg: string, lv: string)
    requires '/' !in vg && '/' !in lv
    ensures VolumePath(vg, lv) != [] && Split(VolumePath(vg, lv)[1..], '/') == ["dev", vg, lv]
  {
    var rest := vg + (['/'] + lv);
    assert VolumePath(vg, lv)[1..] == "dev" + (['/'] + rest);
    SplitFirst("dev", rest, '/');
    SplitFirst(vg, lv, '/');
    SplitOne(lv, '/');
  }

  lemma CreatesAt(h: Host, volumes: set<string>, p: string, vg: string, lv: string)
    requires NewDiskBackend(h.uris, p) == Some(Block(p)) && p != [] && Split(p[1..], '/') == ["dev", vg, lv]
    requires "/dev/" + vg + "/" + lv == p
    ensures NewVolume(h, volumes, p) ==
              if p !in volumes && h.stat(p) == Missing && p !in h.uncreatable then Some(p) else None
  {
  }

  /** A path below /dev names the very volume that is created for it. */
  lemma CreatedUnderItsOwnName(path: string)
    requires HasPrefix(path, "/dev/") && |Split(path[1..], '/')| == 3
    ensures "/dev/" + Split(path[1..], '/')[1] + "/" + Split(path[1..], '/')[2] == path
  {
    var x := path[5..];
    assert path[1..] == "dev" + (['/'] + x);
    SplitFirst("dev", x, '/');
    JoinSplit(x, '/');
    var rest := Split(x, '/');
    assert Split(path[1..], '/') == ["dev"] + rest;
    assert rest[1..] == [rest[1]];
    assert x == rest[0] + ['/'] + rest[1];
    assert path == "/dev/" + x;
  }

  /** A path that only becomes one below /dev when blanks are trimmed: the part before the
      first slash is dropped, and the volume lands in a volume group called "dev". */
  lemma CreatedElsewhere(path: string)
    requires HasPrefix(TrimSpace(path), "/dev/") && !HasPrefix(path, "/dev/")
    ensures path != [] && path[0] != 'd'
    ensures |Split(path[1..], '/')| >= 2 && Split(path[1..], '/')[1] == "dev"
  {
    var k := BlanksBefore(path);
    assert IsSpace(path[0]);
    var w, x := path[1..k], path[k + 5..];
    NoSlashInBlanks(w);
    Rejoin(path, k);
    SecondPart(w, x);
  }

  lemma NoSlashInBlanks(w: string)
    requires forall i :: 0 <= i < |w| ==> IsSpace(w[i])
    ensures '/' !in w
  {
  }

  lemma Rejoin(path: string, k: nat)
    requires 0 < k && k + 5 <= |path| && path[k..k + 5] == "/dev/"
    ensures path[1..] == path[1..k] + "/dev/" + path[k + 5..]
  {
    assert path[1..] == path[1..k] + path[k..k + 5] + path[k + 5..];
  }

  lemma SecondPart(w: string, x: string)
    requires '/' !in w
    ensures |Split(w + "/dev/" + x, '/')| >= 2 && Split(w + "/dev/" + x, '/')[1] == "dev"
  {
    var tail := "dev" + (['/'] + x);
    assert "/dev/" + x == ['/'] + tail;
    assert w + "/dev/" + x == w + (['/'] + tail);
    SplitFirst(w, tail, '/');
    SplitFirst("dev", x, '/');
  }

  /** How many blanks precede the /dev/ of a local path that does not start with it. */
  lemma BlanksBefore(path: string) returns (k: nat)
    requires HasPrefix(TrimSpace(path), "/dev/") && !HasPrefix(path, "/dev/")
    ensures 0 < k && k + 5 <= |path| && path[k..k + 5] == "/dev/"
    ensures forall i :: 0 <= i < k ==> IsSpace(path[i])
  {
    var l := TrimLeft(path);
    k := |path| - |l|;
    TrimmedAreSpaces(path);
    assert l == path[k..];
    assert TrimRight(l) <= l;
    assert path[k..k + 5] == l[..5];
  }

  lemma {:induction false} TrimmedAreSpaces(s: string)
    ensures forall i :: 0 <= i < |s| - |TrimLeft(s)| ==> IsSpace(s[i])
  {
    if s != [] && IsSpace(s[0]) {
      TrimmedAreSpaces(s[1..]);
      forall i | 0 < i < |s| - |TrimLeft(s)| ensures IsSpace(s[i]) {
        assert s[i] == s[1..][i - 1];
      }
    }
  }

  /** What a removal of `path` has to do with the volume `dev` that was created for it. */
  ghost predicate MadeFor(path: string, dev: string) {
    if HasPrefix(path, "/dev/") then dev == path
    else HasPrefix(dev, "/dev/d") && path != [] && path[0] != 'd'
  }

  ghost predicate Makes(make: Maker) {
    forall v, p :: make(v, p).Some? ==> make(v, p).value !in v && MadeFor(p, make(v, p).value)
  }

  lemma NewVolumeShape(h: Host, volumes: set<string>, path: string)
    requires NewVolume(h, volumes, path).Some?
    ensures HasPrefix(TrimSpace(path), "/dev/") && path != [] && |Split(path[1..], '/')| == 3
    ensures NewVolume(h, volumes, path).value == "/dev/" + Split(path[1..], '/')[1] + "/" + Split(path[1..], '/')[2]
    ensures NewVolume(h, volumes, path).value !in volumes
    ensures StatOf(h, volumes, TrimSpace(path)) == Missing
  {
  }

  lemma MakerMakes(h: Host)
    ensures Makes(MakerOf(h))
  {
    var make := MakerOf(h);
    forall v, p | make(v, p).Some? ensures make(v, p).value !in v && MadeFor(p, make(v, p).value) {
      NewVolumeShape(h, v, p);
      if HasPrefix(p, "/dev/") {
        CreatedUnderItsOwnName(p);
      } else {
        CreatedElsewhere(p);
      }
    }
  }

  // ---------------------------------------------------------------------------
  // The rollback

  /** The volumes createLocalDisks creates, in order. */
  function NewVolumes(make: Maker, volumes: set<string>, paths: seq<string>): seq<string>
    decreases |paths|
  {
    if paths == [] then []
    else
      match make(volumes, paths[0])
      case None => []
      case Some(dev) => [dev] + NewVolumes(make, volumes + {dev}, paths[1..])
  }

  lemma {:induction false} CreationIsFresh(make: Maker, volumes: set<string>, paths: seq<string>)
    requires Makes(make)
    ensures var r, ds := CreateAll(make, volumes, paths), NewVolumes(make, volumes, paths);
            && |r.paths| == |ds|
            && r.volumes == volumes + (set d | d in ds)
            && (forall i :: 0 <= i < |ds| ==> ds[i] !in volumes && MadeFor(r.paths[i], ds[i]))
            && (forall i, j :: 0 <= i < j < |ds| ==> ds[i] != ds[j])
    decreases |paths|
  {
    if paths != [] && make(volumes, paths[0]).Some? {
      CreationIsFresh(make, volumes + {make(volumes, paths[0]).value}, paths[1..]);
    }
  }

  lemma {:induction false} RemovalIsDifference(stuck: set<string>, volumes: set<string>, paths: seq<string>)
    ensures RemoveAll(stuck, volumes, paths) == volumes - ((set p | p in paths :: RemovalPath(p)) - stuck)
    decreases |paths|
  {
    if paths != [] {
      var gone := RemovalPath(paths[0]);
      RemovalIsDifference(stuck, if gone in stuck then volumes else volumes - {gone}, paths[1..]);
      assert paths == [paths[0]] + paths[1..];
    }
  }

  /** The rollback removes precisely the volumes that were created, except those lvremove
      fails on, and touches no volume that was there before. */
  lemma RollbackIsExact(h: Host, volumes: set<string>, paths: seq<string>, stuck: set<string>)
    requires forall p :: p in CreateAll(MakerOf(h), volumes, paths).paths ==> HasPrefix(p, "/dev/")
    ensures var r := CreateAll(MakerOf(h), volumes, paths);
            RemoveAll(stuck, r.volumes, r.paths) == volumes + (set p | p in r.paths && p in stuck)
  {
    var r, ds := CreateAll(MakerOf(h), volumes, paths), NewVolumes(MakerOf(h), volumes, paths);
    MakerMakes(h);
    CreationIsFresh(MakerOf(h), volumes, paths);
    SamePaths(r.paths, ds);
    RemovesOwn(stuck, volumes, r.paths);
  }

  lemma SamePaths(paths: seq<string>, ds: seq<string>)
    requires |paths| == |ds| && forall i :: 0 <= i < |ds| ==> MadeFor(paths[i], ds[i])
    requires forall p :: p in paths ==> HasPrefix(p, "/dev/")
    ensures paths == ds
  {
    forall i | 0 <= i < |ds| ensures paths[i] == ds[i] {
      assert paths[i] in paths;
    }
  }

  lemma RemovesOwn(stuck: set<string>, volumes: set<string>, paths: seq<string>)
    requires forall p :: p in paths ==> HasPrefix(p, "/dev/") && p !in volumes
    ensures RemoveAll(stuck, volumes + (set p | p in paths), paths) == volumes + (set p | p in paths && p in stuck)
  {
    RemovalIsDifference(stuck, volumes + (set p | p in paths), paths);
    assert forall p :: p in paths ==> RemovalPath(p) == p;
    assert (set p | p in paths :: RemovalPath(p)) == (set p | p in paths);
  }

  /** A volume created for a path that starts with blanks is removed by nobody. */
  lemma BlankPathsLeak(paths: seq<string>, ds: seq<string>, i: nat)
    requires |paths| == |ds| && i < |ds| && !HasPrefix(paths[i], "/dev/")
    requires forall j :: 0 <= j < |ds| ==> MadeFor(paths[j], ds[j])
    requires forall j, k :: 0 <= j < k < |ds| ==> ds[j] != ds[k]
    ensures forall p :: p in paths ==> RemovalPath(p) != ds[i]
  {
    forall p | p in paths ensures RemovalPath(p) != ds[i] {
      var j :| 0 <= j < |paths| && paths[j] == p;
      if !HasPrefix(p, "/dev/") {
        assert RemovalPath(p)[5] == p[0] && ds[i][5] == 'd';
      }
    }
  }

  /** Exactly when the rollback of a failed request restores the volumes, given that
      lvremove works: when no disk path for which a volume was created starts with blanks. */
  lemma RollbackRestoresIff(h: Host, volumes: set<string>, paths: seq<string>)
    ensures var r := CreateAll(MakerOf(h), volumes, paths);
            RemoveAll({}, r.volumes, r.paths) == volumes <==> forall p :: p in r.paths ==> HasPrefix(p, "/dev/")
  {
    var r, ds := CreateAll(MakerOf(h), volumes, paths), NewVolumes(MakerOf(h), volumes, paths);
    if forall p :: p in r.paths ==> HasPrefix(p, "/dev/") {
      RollbackIsExact(h, volumes, paths, {});
    } else {
      MakerMakes(h);
      CreationIsFresh(MakerOf(h), volumes, paths);
      RemovalIsDifference({}, r.volumes, r.paths);
      var i :| 0 <= i < |r.paths| && !HasPrefix(r.paths[i], "/dev/");
      BlankPathsLeak(r.paths, ds, i);
      assert ds[i] in r.volumes && ds[i] !in volumes;
    }
  }

  /** A request that shows the leak: the path has a leading blank, the volume is created, and
      the rollback leaves it behind. */
  lemma BlankPathLeaks(uris: Uris) returns (h: Host, paths: seq<string>)
    ensures h.uris == uris && paths == [" /dev/x"]
    ensures Leaks(h, paths)
  {
    h := Host(uris, _ => Missing, {});
    paths := [" /dev/x"];
    BlankIsTrimmed();
    BlankPathParts();
    VolumeIsNew(h, " /dev/x", "/dev/x", "dev", "x");
    LeaksAt(h, " /dev/x");
  }

  /** On a host without volumes, all requested ones are created, and not all are removed. */
  ghost predicate Leaks(h: Host, paths: seq<string>) {
    var r := CreateAll(MakerOf(h), {}, paths);
    r.ok && |r.volumes| == |paths| && RemoveAll({}, r.volumes, r.paths) != {}
  }

  lemma LeaksAt(h: Host, path: string)
    requires NewVolume(h, {}, path).Some? && !HasPrefix(path, "/dev/")
    ensures Leaks(h, [path])
  {
    OneVolume(MakerOf(h), path, NewVolume(h, {}, path).value);
    RollbackRestoresIff(h, {}, [path]);
    assert path in [path];
  }

  lemma VolumeIsNew(h: Host, path: string, p: string, vg: string, lv: string)
    requires TrimSpace(path) == p && path != [] && HasPrefix(p, "/dev/")
    requires Split(path[1..], '/') == ["", vg, lv]
    requires (forall q :: h.stat(q) == Missing) && h.uncreatable == {}
    ensures NewVolume(h, {}, path) == Some("/dev/" + vg + "/" + lv)
  {
    assert p[0] == '/';
    assert NewDiskBackend(h.uris, path) == Some(Block(p));
  }

  lemma BlankIsTrimmed()
    ensures TrimSpace(" /dev/x") == "/dev/x"
  {
    assert " /dev/x"[1..] == "/dev/x";
    TrimKeeps("/dev/x");
    assert TrimLeft(" /dev/x") == "/dev/x";
  }

  lemma BlankPathParts()
    ensures Split(" /dev/x"[1..], '/') == ["", "dev", "x"]
  {
    assert " /dev/x"[1..] == Join(["", "dev", "x"], '/') by {
      assert ["", "dev", "x"][1..] == ["dev", "x"] && ["dev", "x"][1..] == ["x"];
    }
    SplitJoin(["", "dev", "x"], '/');
  }

  lemma OneVolume(make: Maker, path: string, dev: string)
    requires make({}, path) == Some(dev)
    ensures CreateAll(make, {}, [path]) == Creation([path], {dev}, true)
  {
    assert [path][1..] == [];
    assert {} + {dev} == {dev};
  }
}
