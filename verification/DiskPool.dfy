/** A pool of disks, whose members may be called by short name or by path. */
module DiskPool {
  import opened Wrappers
  import opened DiskBackend
  import opened Pool

  datatype Driver = VirtioBlkPci | ScsiHd | IdeHd | UnknownDriver
  {
    predicate HotPluggable() { VirtioBlkPci? || ScsiHd? }
  }

  /** `shortName` is that of the backend made from the path, if the path names one. */
  datatype Disk = Disk(
    path: string,
    driver: Driver,
    iopsRd: int,
    iopsWr: int,
    bootindex: int,
    shortName: Option<string>,
    qemuAddr: string)

  /** The short name of the disk's backend, or its path when that names no backend. */
  function KeyOf(d: Disk): string {
    d.shortName.GetOr(d.path)
  }

  /** Every disk is filed under its own key, with the short name its path leads to. */
  ghost predicate Filed(name: Namer, items: map<string, Disk>) {
    forall k :: k in items ==> k == KeyOf(items[k]) && items[k].shortName == name(items[k].path)
  }

  /** The key a spelling stands for, if there is such a disk. */
  function Resolve(name: Namer, items: map<string, Disk>, spelling: string): Option<string> {
    if spelling in items then Some(spelling)
    else
      match name(spelling)
      case Some(s) => if s in items then Some(s) else None
      case None => None
  }

  method Exists(p: Pool<Disk>, name: Namer, spelling: string) returns (found: bool)
    ensures found <==> Resolve(name, p.items, spelling).Some?
  {
    found := p.Exists(spelling);
    if !found {
      var s := name(spelling);
      if s.Some? {
        found := p.Exists(s.value);
      }
    }
  }

  method Get(p: Pool<Disk>, name: Namer, spelling: string) returns (d: Option<Disk>)
    ensures d.Some? <==> Resolve(name, p.items, spelling).Some?
    ensures d.Some? ==> d.value == p.items[Resolve(name, p.items, spelling).value]
  {
    d := p.Get(spelling);
    if d.None? {
      var s := name(spelling);
      if s.Some? {
        d := p.Get(s.value);
      }
    }
  }

  method Append(p: Pool<Disk>, d: Disk) returns (r: Result<(), PoolError>)
    requires p.Valid()
    modifies p
    ensures p.Valid()
    ensures r == if KeyOf(d) == "" then Err(EmptyKey)
                 else if KeyOf(d) in old(p.items) then Err(AlreadyExists) else Ok(())
    ensures r.Err? ==> p.items == old(p.items) && p.keys == old(p.keys)
    ensures r.Ok? ==> p.items == old(p.items)[KeyOf(d) := d] && p.keys == old(p.keys) + [KeyOf(d)]
  {
    r := p.Append(KeyOf(d), d, false);
  }

  method Insert(p: Pool<Disk>, d: Disk, position: int) returns (r: Result<(), PoolError>)
    requires p.Valid()
    modifies p
    ensures p.Valid()
    ensures r == if KeyOf(d) == "" then Err(EmptyKey)
                 else if KeyOf(d) in old(p.items) then Err(AlreadyExists) else Ok(())
    ensures r.Err? ==> p.items == old(p.items) && p.keys == old(p.keys)
    ensures r.Ok? ==> p.items == old(p.items)[KeyOf(d) := d] && p.keys == InsertAt(old(p.keys), KeyOf(d), position)
  {
    r := p.Insert(KeyOf(d), d, position);
  }

  /** Succeeds for exactly the spellings that Exists and Get accept, and removes the very
      disk that Get returns for them. */
  method Remove(p: Pool<Disk>, name: Namer, spelling: string) returns (r: Result<(), PoolError>)
    requires p.Valid()
    modifies p
    ensures p.Valid()
    ensures r == if Resolve(name, old(p.items), spelling).Some? then Ok(()) else Err(NotFound)
    ensures r.Ok? ==> var k := Resolve(name, old(p.items), spelling).value;
                      p.items == old(p.items) - {k} && p.keys == Without(old(p.keys), k)
    ensures r.Err? ==> p.items == old(p.items) && p.keys == old(p.keys)
  {
    r := p.Remove(spelling);
    if r.Err? {
      var s := name(spelling);
      if s.Some? {
        r := p.Remove(s.value);
      }
    }
  }

  /** A path is found exactly under its short name: no key of a pool reads as a path. */
  lemma PathResolvesToShortName(name: Namer, items: map<string, Disk>, path: string)
    requires NamesAreNoPaths(name) && Filed(name, items) && name(path).Some?
    ensures Resolve(name, items, path) == (if name(path).value in items then name(path) else None)
    ensures path !in items
  {
    forall k | k in items ensures k != path {
      var d := items[k];
      assert name(d.path) == d.shortName;
    }
  }

  /** All spellings with one short name mean the same disk, and so does the name itself. */
  lemma SpellingsAgree(name: Namer, items: map<string, Disk>, path: string, other: string)
    requires NamesAreNoPaths(name) && Filed(name, items) && name(path).Some? && name(path) == name(other)
    ensures Resolve(name, items, path) == Resolve(name, items, other)
    ensures Resolve(name, items, path) == Resolve(name, items, name(path).value)
  {
    PathResolvesToShortName(name, items, path);
    PathResolvesToShortName(name, items, other);
  }

  /** After a removal, the spelling that was used finds nothing any more. */
  lemma RemovedIsGone(name: Namer, items: map<string, Disk>, spelling: string)
    requires NamesAreNoPaths(name) && Filed(name, items) && Resolve(name, items, spelling).Some?
    ensures var rest := items - {Resolve(name, items, spelling).value};
            Resolve(name, rest, spelling) == None && Filed(name, rest)
  {
    if name(spelling).Some? {
      PathResolvesToShortName(name, items, spelling);
    }
  }
}
