/**
 The disks of a configuration file: how they are loaded, and why the command line can be
 generated from what was loaded.
 */
module ConfLoader {
  import opened Wrappers
  import opened DiskBackend
  import opened Pool
  import opened DiskPool
  import ScsiArgs

  /** An entry of the file. */
  datatype Saved = Saved(path: string, driver: Driver, iopsRd: int, iopsWr: int, bootindex: int, qemuAddr: string)

  function DiskFrom(name: Namer, s: Saved): Disk {
    Disk(s.path, s.driver, s.iopsRd, s.iopsWr, s.bootindex, name(s.path), s.qemuAddr)
  }

  function DisksFrom(name: Namer, saved: seq<Saved>): seq<Disk> {
    seq(|saved|, i requires 0 <= i < |saved| => DiskFrom(name, saved[i]))
  }

  function KeysOf(ds: seq<Disk>): seq<string> {
    seq(|ds|, i requires 0 <= i < |ds| => KeyOf(ds[i]))
  }

  /** Keys that a pool takes one after the other. */
  ghost predicate Fit(ds: seq<Disk>) {
    "" !in KeysOf(ds) && Distinct(KeysOf(ds))
  }

  /** The file is accepted: every path names a backend, and no short name is empty or occurs
      twice. */
  ghost predicate Accepted(name: Namer, saved: seq<Saved>) {
    && (forall i :: 0 <= i < |saved| ==> name(saved[i].path).Some?)
    && Fit(DisksFrom(name, saved))
  }

  /** The pool holds exactly these disks, in this order. */
  ghost predicate Holds(p: Pool<Disk>, ds: seq<Disk>)
    reads p
  {
    p.Valid() && p.keys == KeysOf(ds) && Files(p.items, ds)
  }

  ghost predicate Files(items: map<string, Disk>, ds: seq<Disk>) {
    forall d :: d in ds ==> KeyOf(d) in items && items[KeyOf(d)] == d
  }

  lemma FilesOneMore(items: map<string, Disk>, ds: seq<Disk>, d: Disk)
    requires Files(items, ds) && KeyOf(d) !in items
    ensures Files(items[KeyOf(d) := d], ds + [d]) && KeysOf(ds + [d]) == KeysOf(ds) + [KeyOf(d)]
  {
    forall e | e in ds + [d] ensures e in ds || e == d {
    }
  }

  lemma Prefix(ds: seq<Disk>, i: nat)
    requires i < |ds|
    ensures ds[..i + 1] == ds[..i] + [ds[i]] && KeysOf(ds[..i]) == KeysOf(ds)[..i]
  {
  }

  /** Everything about a disk is as the file has it; the short name is that of its path. */
  lemma DisksAreAsSaved(name: Namer, saved: seq<Saved>, i: nat)
    requires i < |saved|
    ensures |DisksFrom(name, saved)| == |saved|
    ensures var d, s := DisksFrom(name, saved)[i], saved[i];
            && d.path == s.path && d.driver == s.driver && d.iopsRd == s.iopsRd && d.iopsWr == s.iopsWr
            && d.bootindex == s.bootindex && d.qemuAddr == s.qemuAddr && d.shortName == name(s.path)
  {
  }

  /** Reading the file fails at the first entry that the pool refuses. A path without a
      backend is not noticed here. */
  method Unmarshal(name: Namer, saved: seq<Saved>) returns (p: Pool<Disk>, ok: bool)
    ensures fresh(p)
    ensures ok <==> Fit(DisksFrom(name, saved))
    ensures ok ==> Holds(p, DisksFrom(name, saved))
  {
    p := new Pool<Disk>();
    ghost var ds := DisksFrom(name, saved);
    for i := 0 to |saved|
      invariant fresh(p) && p.Valid() && p.keys == KeysOf(ds[..i]) && Files(p.items, ds[..i])
    {
      Prefix(ds, i);
      ghost var was := p.items;
      var a := DiskPool.Append(p, DiskFrom(name, saved[i]));
      if a.Err? {
        NoFit(ds, i);
        return p, false;
      }
      FilesOneMore(was, ds[..i], ds[i]);
    }
    assert ds[..|saved|] == ds;
    ItFits(p, ds);
    ok := true;
  }

  lemma ItFits(p: Pool<Disk>, ds: seq<Disk>)
    requires p.Valid() && p.keys == KeysOf(ds)
    ensures Fit(ds)
  {
  }

  lemma NoFit(ds: seq<Disk>, i: nat)
    requires i < |ds| && (KeyOf(ds[i]) == "" || KeyOf(ds[i]) in KeysOf(ds)[..i])
    ensures !Fit(ds)
  {
    var ks := KeysOf(ds);
    assert ks[i] in ks;
    if ks[i] != "" {
      var j :| 0 <= j < i && ks[j] == ks[i];
    }
  }

  /** Both kinds of configuration are checked the same way after reading. */
  method Load(name: Namer, saved: seq<Saved>) returns (p: Pool<Disk>, ok: bool)
    ensures ok <==> Accepted(name, saved)
    ensures ok ==> Holds(p, DisksFrom(name, saved))
  {
    p, ok := Unmarshal(name, saved);
    if !ok { return; }
    var disks := DisksOf(p, DisksFrom(name, saved));
    for i := 0 to |disks|
      invariant forall j :: 0 <= j < i ==> name(saved[j].path).Some?
    {
      if disks[i].shortName.None? { return p, false; }
    }
  }

  datatype StartError = NotLoaded | NotGenerated(error: ScsiArgs.Error)

  /** What the launcher does with the disks: load them, then generate the command line. */
  method CommandLine(name: Namer, cdroms: seq<ScsiArgs.Cdrom>, saved: seq<Saved>)
    returns (r: Result<seq<ScsiArgs.Arg>, StartError>)
    ensures r == Err(NotLoaded) <==> !Accepted(name, saved)
    ensures Accepted(name, saved) ==> r == Generated(cdroms, DisksFrom(name, saved))
    ensures forall path :: r != Err(NotGenerated(ScsiArgs.Crash(path)))
  {
    var p, ok := Load(name, saved);
    if !ok { return Err(NotLoaded); }
    var disks := DisksOf(p, DisksFrom(name, saved));
    NeverCrashes(cdroms, name, saved);
    var g := ScsiArgs.Gen(cdroms, disks);
    match g
    case Ok(args) => r := Ok(args);
    case Err(e) => r := Err(NotGenerated(e));
  }

  /** DiskPool.Values. */
  method DisksOf(p: Pool<Disk>, ghost ds: seq<Disk>) returns (r: seq<Disk>)
    requires Holds(p, ds)
    ensures r == ds
  {
    var values := p.Values([]);
    r := [];
    for i := 0 to |values|
      invariant r == ds[..i]
    {
      assert ds[i] in ds;
      r := r + [values[i].value];
    }
  }

  function Generated(cdroms: seq<ScsiArgs.Cdrom>, disks: seq<Disk>): Result<seq<ScsiArgs.Arg>, StartError> {
    match ScsiArgs.FirstError(cdroms, ScsiArgs.CdromError)
    case Some(e) => Err(NotGenerated(e))
    case None =>
      match ScsiArgs.FirstError(disks, ScsiArgs.DiskError)
      case Some(e) => Err(NotGenerated(e))
      case None =>
        Ok(ScsiArgs.Compile(ScsiArgs.Items(cdroms, ScsiArgs.CdromItem) + ScsiArgs.Items(disks, ScsiArgs.DiskItem), {}))
  }

  /** No accepted file makes the generation crash. */
  lemma NeverCrashes(cdroms: seq<ScsiArgs.Cdrom>, name: Namer, saved: seq<Saved>)
    requires Accepted(name, saved)
    ensures forall path ::
              && ScsiArgs.FirstError(cdroms, ScsiArgs.CdromError) != Some(ScsiArgs.Crash(path))
              && ScsiArgs.FirstError(DisksFrom(name, saved), ScsiArgs.DiskError) != Some(ScsiArgs.Crash(path))
  {
    forall path
      ensures ScsiArgs.FirstError(cdroms, ScsiArgs.CdromError) != Some(ScsiArgs.Crash(path))
      ensures ScsiArgs.FirstError(DisksFrom(name, saved), ScsiArgs.DiskError) != Some(ScsiArgs.Crash(path))
    {
      ScsiArgs.CrashesIff(cdroms, DisksFrom(name, saved), path);
    }
  }
}
