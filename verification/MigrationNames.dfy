/**
 Which NBD exports the source mirrors to and which ones the destination offers: override
 normalisation, the request for an incoming migration, the mirror targets, the exports.
 */
module MigrationNames {
  import opened Wrappers
  import opened DiskBackend

  /** A disk of the running instance; its backend was made from its path. */
  datatype MovingDisk = MovingDisk(path: string, shortName: string, virtualSize: nat)

  ghost predicate FromPath(name: Namer, d: MovingDisk) {
    name(d.path) == Some(d.shortName)
  }

  ghost predicate AllFromPath(name: Namer, ds: seq<MovingDisk>) {
    forall i :: 0 <= i < |ds| ==> FromPath(name, ds[i])
  }

  const FWFLASH := "fwflash"

  // ---------------------------------------------------------------------------
  // What the user asked for, and what the normalised map says

  /** The override a user gave for a disk, by path or else by short name. */
  function Requested(raw: map<string, string>, d: MovingDisk): Option<string> {
    if d.path in raw then Some(raw[d.path])
    else if d.shortName in raw then Some(raw[d.shortName])
    else None
  }

  function Normalised(raw: map<string, string>, ds: seq<MovingDisk>): map<string, string> {
    if ds == [] then map[]
    else
      var d := ds[|ds| - 1];
      var m := Normalised(raw, ds[..|ds| - 1]);
      match Requested(raw, d)
      case Some(o) => m[d.path := o]
      case None => m
  }

  /** The path a disk has on the destination. */
  function TargetPath(overrides: map<string, string>, d: MovingDisk): string {
    if d.path in overrides then overrides[d.path] else d.path
  }

  function Sizes(overrides: map<string, string>, ds: seq<MovingDisk>): map<string, nat> {
    if ds == [] then map[]
    else
      var d := ds[|ds| - 1];
      Sizes(overrides, ds[..|ds| - 1])[TargetPath(overrides, d) := d.virtualSize]
  }

  /** The export a mirror writes to. */
  function MirrorTarget(name: Namer, overrides: map<string, string>, path: string, shortName: string): Option<string> {
    if path in overrides then name(overrides[path]) else Some(shortName)
  }

  /** The names of a list of paths, unless one of them names no backend. */
  function ShortNames(name: Namer, paths: seq<string>): Option<seq<string>> {
    if paths == [] then Some([])
    else
      match (ShortNames(name, paths[..|paths| - 1]), name(paths[|paths| - 1]))
      case (Some(ns), Some(n)) => Some(ns + [n])
      case _ => None
  }

  // ---------------------------------------------------------------------------
  // The two tasks

  class MigrationTask {
    var movingDisks: seq<MovingDisk>
    var overrides: map<string, string>

    constructor (disks: seq<MovingDisk>, overrides: map<string, string>)
      ensures this.movingDisks == disks && this.overrides == overrides
    {
      this.movingDisks, this.overrides := disks, overrides;
    }

    method NormaliseOverrides()
      modifies this`overrides
      ensures overrides == Normalised(old(overrides), movingDisks)
    {
      if |overrides| > 0 {
        var valid := map[];
        for i := 0 to |movingDisks|
          invariant overrides == old(overrides)
          invariant valid == Normalised(overrides, movingDisks[..i])
        {
          var d := movingDisks[i];
          assert movingDisks[..i + 1][..i] == movingDisks[..i];
          if d.path in overrides {
            valid := valid[d.path := overrides[d.path]];
          } else if d.shortName in overrides {
            valid := valid[d.path := overrides[d.shortName]];
          }
        }
        assert movingDisks[..|movingDisks|] == movingDisks;
        overrides := valid;
      } else {
        NothingRequested(movingDisks);
      }
    }

    method RequestedDisks() returns (sizes: map<string, nat>)
      ensures sizes == Sizes(overrides, movingDisks)
    {
      sizes := map[];
      for i := 0 to |movingDisks|
        invariant sizes == Sizes(overrides, movingDisks[..i])
      {
        var d := movingDisks[i];
        assert movingDisks[..i + 1][..i] == movingDisks[..i];
        if d.path in overrides {
          sizes := sizes[overrides[d.path] := d.virtualSize];
        } else {
          sizes := sizes[d.path := d.virtualSize];
        }
      }
      assert movingDisks[..|movingDisks|] == movingDisks;
    }
  }

  class IncomingTask {
    var disks: map<string, nat>
    var hasFirmwareFlash: bool
    var exports: seq<string>

    constructor (disks: map<string, nat>, hasFlash: bool)
      ensures this.disks == disks && this.hasFirmwareFlash == hasFlash && exports == []
    {
      this.disks, this.hasFirmwareFlash, this.exports := disks, hasFlash, [];
    }

    /** Starts the server, if QEMU does (`started`), and exports the disks in `order`, the
        order in which the map happens to be iterated. QEMU refuses a name it already exports,
        and may refuse others. */
    method StartNBDServer(name: Namer, order: seq<string>, started: bool, refused: set<string>) returns (ok: bool)
      requires exports == [] && multiset(order) == multiset(disks.Keys)
      modifies this`exports
      ensures ok <==> started && ShortNames(name, order).Some? &&
                      Acceptable(ExportList(name, hasFirmwareFlash, order), refused)
      ensures ok ==> exports == ExportList(name, hasFirmwareFlash, order)
      ensures !started ==> exports == []
      ensures ok ==> forall i :: 0 <= i < |exports| ==> exports[i] !in refused
      ensures ok ==> forall i, j :: 0 <= i < j < |exports| ==> exports[i] != exports[j]
    {
      if !started { return false; }
      if hasFirmwareFlash {
        if FWFLASH in refused {
          assert ExportList(name, true, order[..0])[0] == FWFLASH;
          NoWayOn(name, true, order, 0, refused);
          return false;
        }
        exports := exports + [FWFLASH];
      }
      for i := 0 to |order|
        invariant ShortNames(name, order[..i]).Some? && exports == ExportList(name, hasFirmwareFlash, order[..i])
        invariant Acceptable(exports, refused)
      {
        assert order[..i + 1][..i] == order[..i];
        var n := name(order[i]);
        if n.None? || n.value in refused || n.value in exports {
          if n.Some? {
            assert ExportList(name, hasFirmwareFlash, order[..i + 1]) == exports + [n.value];
            OneTooMany(exports, n.value, refused);
          }
          NoWayOn(name, hasFirmwareFlash, order, i + 1, refused);
          return false;
        }
        exports := exports + [n.value];
      }
      assert order[..|order|] == order;
      ok := true;
    }
  }

  function ExportList(name: Namer, flash: bool, order: seq<string>): seq<string> {
    (if flash then [FWFLASH] else []) + ShortNames(name, order).GetOr([])
  }

  /** QEMU accepts the names one after the other. */
  ghost predicate Acceptable(names: seq<string>, refused: set<string>) {
    && (forall i :: 0 <= i < |names| ==> names[i] !in refused)
    && (forall i, j :: 0 <= i < j < |names| ==> names[i] != names[j])
  }

  lemma OneTooMany(names: seq<string>, n: string, refused: set<string>)
    requires n in refused || n in names
    ensures !Acceptable(names + [n], refused)
  {
    var longer := names + [n];
    assert longer[|names|] == n;
    if n in names {
      var j :| 0 <= j < |names| && names[j] == n;
      assert longer[j] == n;
    }
  }

  /** Once a prefix of the order has no name or is unacceptable, so is the whole. */
  lemma {:induction false} NoWayOn(name: Namer, flash: bool, order: seq<string>, k: nat, refused: set<string>)
    requires k <= |order|
    requires ShortNames(name, order[..k]).None? || !Acceptable(ExportList(name, flash, order[..k]), refused)
    ensures ShortNames(name, order).None? || !Acceptable(ExportList(name, flash, order), refused)
    decreases |order|
  {
    if k == |order| {
      assert order[..k] == order;
    } else {
      var n := |order| - 1;
      assert order[..n][..k] == order[..k];
      NoWayOn(name, flash, order[..n], k, refused);
      if ShortNames(name, order).Some? {
        var short, long := ExportList(name, flash, order[..n]), ExportList(name, flash, order);
        assert long == short + [name(order[n]).value];
        assert forall i :: 0 <= i < |short| ==> short[i] == long[i];
      }
    }
  }

  // ---------------------------------------------------------------------------
  // Proofs

  lemma {:induction false} NothingRequested(ds: seq<MovingDisk>)
    ensures Normalised(map[], ds) == map[]
  {
    if ds != [] {
      NothingRequested(ds[..|ds| - 1]);
    }
  }

  lemma {:induction false} NormalisedAgrees(name: Namer, raw: map<string, string>, ds: seq<MovingDisk>, d: MovingDisk)
    requires AllFromPath(name, ds) && FromPath(name, d)
    ensures d.path in Normalised(raw, ds) ==> Requested(raw, d) == Some(Normalised(raw, ds)[d.path])
    ensures d in ds && Requested(raw, d).Some? ==> d.path in Normalised(raw, ds)
  {
    if ds != [] {
      NormalisedAgrees(name, raw, ds[..|ds| - 1], d);
    }
  }

  /** After normalisation each moving disk has exactly the override the user asked for,
      whichever spelling the user used. */
  lemma OverridesByEitherName(name: Namer, raw: map<string, string>, ds: seq<MovingDisk>, d: MovingDisk)
    requires AllFromPath(name, ds) && d in ds
    ensures TargetPath(Normalised(raw, ds), d) == Requested(raw, d).GetOr(d.path)
    ensures TargetPath(Normalised(raw, ds), d) ==
              if d.path in raw then raw[d.path] else if d.shortName in raw then raw[d.shortName] else d.path
  {
    NormalisedAgrees(name, raw, ds, d);
  }

  lemma {:induction false} SizesKeys(overrides: map<string, string>, ds: seq<MovingDisk>)
    ensures Sizes(overrides, ds).Keys == set d | d in ds :: TargetPath(overrides, d)
  {
    if ds != [] {
      var n := |ds| - 1;
      SizesKeys(overrides, ds[..n]);
      assert ds == ds[..n] + [ds[n]];
    }
  }

  lemma {:induction false} ShortNamesMeaning(name: Namer, paths: seq<string>)
    requires ShortNames(name, paths).Some?
    ensures forall p :: p in paths ==> name(p).Some? && name(p).value in ShortNames(name, paths).value
    ensures forall n :: n in ShortNames(name, paths).value ==> exists p :: p in paths && name(p) == Some(n)
  {
    if paths != [] {
      var k := |paths| - 1;
      ShortNamesMeaning(name, paths[..k]);
      assert paths == paths[..k] + [paths[k]];
      forall n | n in ShortNames(name, paths).value
        ensures exists p :: p in paths && name(p) == Some(n)
      {
        if n in ShortNames(name, paths[..k]).value {
          var p :| p in paths[..k] && name(p) == Some(n);
          assert p in paths;
        } else {
          assert paths[k] in paths;
        }
      }
    }
  }

  /** Everything the two sides agree on before data flows. `order` lists the keys of the
      requested disks; `exports` is what a successful NBD start offers. */
  ghost predicate Agreed(name: Namer, raw: map<string, string>, ds: seq<MovingDisk>, flash: bool,
                         order: seq<string>, exports: seq<string>) {
    && AllFromPath(name, ds)
    && multiset(order) == multiset(Sizes(Normalised(raw, ds), ds).Keys)
    && ShortNames(name, order).Some?
    && exports == ExportList(name, flash, order)
  }

  /** Every mirror writes to a name the destination exports. */
  lemma MirrorTargetsAreExported(name: Namer, raw: map<string, string>, ds: seq<MovingDisk>, flash: bool,
                                 order: seq<string>, exports: seq<string>, d: MovingDisk)
    requires Agreed(name, raw, ds, flash, order, exports) && d in ds
    ensures var t := MirrorTarget(name, Normalised(raw, ds), d.path, d.shortName);
            t.Some? && t.value in exports
  {
    var o := Normalised(raw, ds);
    SizesKeys(o, ds);
    assert TargetPath(o, d) in order by { assert TargetPath(o, d) in multiset(order); }
    ShortNamesMeaning(name, order);
    assert FromPath(name, d);
  }

  /** The same for the firmware flash device, even when its path is that of a moving disk. */
  lemma FlashTargetIsExported(name: Namer, raw: map<string, string>, ds: seq<MovingDisk>,
                              order: seq<string>, exports: seq<string>, flashPath: string)
    requires Agreed(name, raw, ds, true, order, exports)
    ensures var t := MirrorTarget(name, Normalised(raw, ds), flashPath, FWFLASH);
            t.Some? && t.value in exports
  {
    var o := Normalised(raw, ds);
    if flashPath in o {
      NormalisedDomain(raw, ds, flashPath);
      var d :| d in ds && d.path == flashPath;
      MirrorTargetsAreExported(name, raw, ds, true, order, exports, d);
    } else {
      assert exports[0] == FWFLASH;
    }
  }

  lemma {:induction false} NormalisedDomain(raw: map<string, string>, ds: seq<MovingDisk>, p: string)
    requires p in Normalised(raw, ds)
    ensures exists d :: d in ds && d.path == p
  {
    var n := |ds| - 1;
    assert ds[n] in ds;
    if p in Normalised(raw, ds[..n]) {
      NormalisedDomain(raw, ds[..n], p);
    }
  }

  /** Conversely nothing is exported in vain: every export is the flash device or the
      target of some moving disk. */
  lemma ExportsAreTargets(name: Namer, raw: map<string, string>, ds: seq<MovingDisk>, flash: bool,
                          order: seq<string>, exports: seq<string>, n: string)
    requires Agreed(name, raw, ds, flash, order, exports) && n in exports
    ensures (flash && n == FWFLASH) ||
            exists d :: d in ds && MirrorTarget(name, Normalised(raw, ds), d.path, d.shortName) == Some(n)
  {
    if !(flash && n == FWFLASH) {
      var o := Normalised(raw, ds);
      assert n in ShortNames(name, order).value;
      ShortNamesMeaning(name, order);
      var p :| p in order && name(p) == Some(n);
      SizesKeys(o, ds);
      assert p in multiset(order);
      var d :| d in ds && TargetPath(o, d) == p;
      assert FromPath(name, d);
    }
  }

  // ---------------------------------------------------------------------------
  // Whether every mirror has an export of its own

  lemma {:induction false} ShortNameAt(name: Namer, paths: seq<string>, i: nat)
    requires ShortNames(name, paths).Some? && i < |paths|
    ensures |ShortNames(name, paths).value| == |paths|
    ensures name(paths[i]) == Some(ShortNames(name, paths).value[i])
  {
    var n := |paths| - 1;
    if i < n {
      ShortNameAt(name, paths[..n], i);
    } else if n > 0 {
      ShortNameAt(name, paths[..n], 0);
    }
  }

  /** Names that were all accepted are those of different paths. */
  lemma SameNameSamePath(name: Namer, flash: bool, order: seq<string>, refused: set<string>, p: string, q: string)
    requires ShortNames(name, order).Some? && Acceptable(ExportList(name, flash, order), refused)
    requires p in order && q in order && name(p) == name(q)
    ensures p == q
  {
    var ns, exports := ShortNames(name, order).value, ExportList(name, flash, order);
    var off := if flash then 1 else 0;
    var i :| 0 <= i < |order| && order[i] == p;
    var j :| 0 <= j < |order| && order[j] == q;
    ShortNameAt(name, order, i);
    ShortNameAt(name, order, j);
    assert exports[off + i] == ns[i] && exports[off + j] == ns[j];
  }

  /** The target of a mirror is the name of the path its disk gets on the destination. */
  lemma TargetIsNameOfPath(name: Namer, raw: map<string, string>, ds: seq<MovingDisk>, flash: bool,
                           order: seq<string>, exports: seq<string>, d: MovingDisk)
    requires Agreed(name, raw, ds, flash, order, exports) && d in ds
    ensures var o := Normalised(raw, ds);
            TargetPath(o, d) in order && MirrorTarget(name, o, d.path, d.shortName) == name(TargetPath(o, d))
  {
    var o := Normalised(raw, ds);
    SizesKeys(o, ds);
    assert TargetPath(o, d) in order by { assert TargetPath(o, d) in multiset(order); }
    assert FromPath(name, d);
  }

  /** Two mirrors write to one export if and only if their disks were asked for under one path
      on the destination. */
  lemma SharedExportIff(name: Namer, raw: map<string, string>, ds: seq<MovingDisk>, flash: bool,
                        order: seq<string>, exports: seq<string>, refused: set<string>, d: MovingDisk, e: MovingDisk)
    requires Agreed(name, raw, ds, flash, order, exports) && Acceptable(exports, refused) && d in ds && e in ds
    ensures var o := Normalised(raw, ds);
            MirrorTarget(name, o, d.path, d.shortName) == MirrorTarget(name, o, e.path, e.shortName)
            <==> Requested(raw, d).GetOr(d.path) == Requested(raw, e).GetOr(e.path)
  {
    var o := Normalised(raw, ds);
    OverridesByEitherName(name, raw, ds, d);
    OverridesByEitherName(name, raw, ds, e);
    TargetIsNameOfPath(name, raw, ds, flash, order, exports, d);
    TargetIsNameOfPath(name, raw, ds, flash, order, exports, e);
    if name(TargetPath(o, d)) == name(TargetPath(o, e)) {
      SameNameSamePath(name, flash, order, refused, TargetPath(o, d), TargetPath(o, e));
    }
  }

  /** The flash device has an export that no disk is mirrored to if and only if no moving disk
      with its path has an override. */
  lemma FlashHasItsOwnIff(name: Namer, raw: map<string, string>, ds: seq<MovingDisk>,
                          order: seq<string>, exports: seq<string>, refused: set<string>, flashPath: string)
    requires Agreed(name, raw, ds, true, order, exports) && Acceptable(exports, refused)
    ensures var o := Normalised(raw, ds);
            (forall d :: d in ds ==>
               MirrorTarget(name, o, d.path, d.shortName) != MirrorTarget(name, o, flashPath, FWFLASH))
            <==> !exists d :: d in ds && d.path == flashPath && Requested(raw, d).Some?
  {
    var o := Normalised(raw, ds);
    NormalisedIff(name, raw, ds, flashPath);
    if flashPath in o {
      var d :| d in ds && d.path == flashPath && Requested(raw, d).Some?;
      assert MirrorTarget(name, o, d.path, d.shortName) == MirrorTarget(name, o, flashPath, FWFLASH);
    } else {
      forall d | d in ds
        ensures MirrorTarget(name, o, d.path, d.shortName) != MirrorTarget(name, o, flashPath, FWFLASH)
      {
        TargetIsNameOfPath(name, raw, ds, true, order, exports, d);
        FlashIsNoDisk(name, order, refused, TargetPath(o, d));
      }
    }
  }

  lemma NormalisedIff(name: Namer, raw: map<string, string>, ds: seq<MovingDisk>, p: string)
    requires AllFromPath(name, ds)
    ensures p in Normalised(raw, ds) <==> exists d :: d in ds && d.path == p && Requested(raw, d).Some?
  {
    if p in Normalised(raw, ds) {
      NormalisedDomain(raw, ds, p);
      var d :| d in ds && d.path == p;
      NormalisedAgrees(name, raw, ds, d);
    }
    if d :| d in ds && d.path == p && Requested(raw, d).Some? {
      NormalisedAgrees(name, raw, ds, d);
    }
  }

  lemma FlashIsNoDisk(name: Namer, order: seq<string>, refused: set<string>, p: string)
    requires ShortNames(name, order).Some? && Acceptable(ExportList(name, true, order), refused) && p in order
    ensures name(p) != Some(FWFLASH)
  {
    var exports := ExportList(name, true, order);
    var i :| 0 <= i < |order| && order[i] == p;
    ShortNameAt(name, order, i);
    assert exports[0] == FWFLASH && exports[1 + i] == ShortNames(name, order).value[i];
  }

  /** Inputs where it happens: two disks overridden to one path are requested as one, the
      destination accepts that, and both mirrors write to its one export. */
  lemma TwoMirrorsOneExport(name: Namer, d: MovingDisk, e: MovingDisk, p: string)
    returns (raw: map<string, string>, order: seq<string>, exports: seq<string>)
    requires FromPath(name, d) && FromPath(name, e) && d.path != e.path && name(p).Some?
    ensures Agreed(name, raw, [d, e], false, order, exports) && Acceptable(exports, {}) && |exports| == 1
    ensures var o := Normalised(raw, [d, e]);
            MirrorTarget(name, o, d.path, d.shortName) == MirrorTarget(name, o, e.path, e.shortName) == Some(exports[0])
  {
    raw, order := map[d.path := p, e.path := p], [p];
    var ds, o := [d, e], Normalised(raw, [d, e]);
    OverridesByEitherName(name, raw, ds, d);
    OverridesByEitherName(name, raw, ds, e);
    SizesKeys(o, ds);
    assert Sizes(o, ds).Keys == {p};
    assert order[..0] == [];
    assert ShortNames(name, order) == Some([] + [name(p).value]);
    exports := ExportList(name, false, order);
    TargetIsNameOfPath(name, raw, ds, false, order, exports, d);
    TargetIsNameOfPath(name, raw, ds, false, order, exports, e);
  }

  /** The size asked of the destination is that of the last disk moved to a path, so a disk
      is given its own size when no later disk of another size shares its path. */
  lemma {:induction false} SizeAskedFor(overrides: map<string, string>, ds: seq<MovingDisk>, i: nat)
    requires i < |ds|
    requires forall j :: i < j < |ds| && TargetPath(overrides, ds[j]) == TargetPath(overrides, ds[i])
               ==> ds[j].virtualSize == ds[i].virtualSize
    ensures TargetPath(overrides, ds[i]) in Sizes(overrides, ds)
    ensures Sizes(overrides, ds)[TargetPath(overrides, ds[i])] == ds[i].virtualSize
  {
    var n := |ds| - 1;
    if i < n {
      SizeAskedFor(overrides, ds[..n], i);
    }
  }
}
