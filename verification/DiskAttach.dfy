/**
 Attaching and detaching a disk of a machine: the running instance first, if there is one,
 then the configuration. Both must end up with the same answer to "is this disk there, and
 with which limits".
 */
module DiskAttach {
  import opened Wrappers
  import opened Text
  import opened DiskBackend
  import opened Pool
  import opened DiskPool

  datatype Options = Options(path: string, driver: Driver, iopsRd: int, iopsWr: int, bootindex: int)

  /** How the surroundings answer: which short name a path has, whether the device is
      available, whether QEMU and the chroot go along with adding a disk, with either
      throttle command and with removing a disk, and whether the configuration is saved. */
  datatype Env = Env(
    name: Namer,
    available: bool,
    appendOk: bool,
    readOk: bool,
    writeOk: bool,
    removeOk: bool,
    saveOk: bool)

  datatype DiskError = AlreadyConnected | NotConnected | Rejected

  predicate IsValid(o: Options) {
    o.path != "" && !o.driver.UnknownDriver? && o.iopsRd >= 0 && o.iopsWr >= 0 && o.bootindex >= 0
  }

  function DiskOf(name: Namer, o: Options): Disk {
    Disk(o.path, o.driver, o.iopsRd, o.iopsWr, o.bootindex, name(o.path), "")
  }

  /** A pool in good order. */
  ghost predicate Good(p: Pool<Disk>, name: Namer)
    reads p
  {
    p.Valid() && Filed(name, p.items)
  }

  /** The running instance only knows disks whose path names a backend. */
  ghost predicate AllNamed(items: map<string, Disk>) {
    forall k :: k in items ==> items[k].shortName.Some?
  }

  // ---------------------------------------------------------------------------
  // Limits: alike in both instances, except that QEMU's consent is needed in one

  method SetReadIops(p: Pool<Disk>, name: Namer, spelling: string, iops: int, consent: bool)
    returns (r: Result<(), DiskError>)
    requires Good(p, name)
    modifies p
    ensures Good(p, name) && p.keys == old(p.keys)
    ensures r.Ok? <==> iops >= 0 && Resolve(name, old(p.items), spelling).Some? && consent
    ensures r.Err? ==> p.items == old(p.items)
    ensures r.Ok? ==> var k := Resolve(name, old(p.items), spelling).value;
                      p.items == old(p.items)[k := old(p.items)[k].(iopsRd := iops)]
  {
    if iops < 0 { return Err(Rejected); }
    var d := DiskPool.Get(p, name, spelling);
    if d.None? { return Err(NotConnected); }
    if !consent { return Err(Rejected); }
    p.items := p.items[KeyOf(d.value) := d.value.(iopsRd := iops)];
    r := Ok(());
  }

  method SetWriteIops(p: Pool<Disk>, name: Namer, spelling: string, iops: int, consent: bool)
    returns (r: Result<(), DiskError>)
    requires Good(p, name)
    modifies p
    ensures Good(p, name) && p.keys == old(p.keys)
    ensures r.Ok? <==> iops >= 0 && Resolve(name, old(p.items), spelling).Some? && consent
    ensures r.Err? ==> p.items == old(p.items)
    ensures r.Ok? ==> var k := Resolve(name, old(p.items), spelling).value;
                      p.items == old(p.items)[k := old(p.items)[k].(iopsWr := iops)]
  {
    if iops < 0 { return Err(Rejected); }
    var d := DiskPool.Get(p, name, spelling);
    if d.None? { return Err(NotConnected); }
    if !consent { return Err(Rejected); }
    p.items := p.items[KeyOf(d.value) := d.value.(iopsWr := iops)];
    r := Ok(());
  }

  // ---------------------------------------------------------------------------
  // What attaching means for one instance

  /** The items after a successful attach: the disk is there with the requested limits. */
  function AttachedItems(name: Namer, items: map<string, Disk>, o: Options): map<string, Disk> {
    var d := DiskOf(name, o);
    var k := KeyOf(d);
    items[k := if k in items then items[k].(iopsRd := o.iopsRd, iopsWr := o.iopsWr) else d]
  }

  /** And the order: a new disk goes last, or to the given position of the configuration. */
  function AttachedKeys(name: Namer, keys: seq<string>, o: Options, position: int): seq<string> {
    var k := KeyOf(DiskOf(name, o));
    if k in keys then keys
    else if position >= 0 then InsertAt(keys, k, position)
    else keys + [k]
  }

  /** The running instance. Its pool is not asked whether it took the disk: one without a
      short name is added to QEMU but not kept. */
  method RuntimeAppend(p: Pool<Disk>, e: Env, o: Options) returns (r: Result<(), DiskError>)
    requires NamesAreNoPaths(e.name) && Good(p, e.name) && AllNamed(p.items)
    modifies p
    ensures Good(p, e.name) && AllNamed(p.items)
    ensures r == (
      if !IsValid(o) || !o.driver.HotPluggable() || e.name(o.path).None? || !e.available then Err(Rejected)
      else if e.name(o.path).value in old(p.items) then Err(AlreadyConnected)
      else if !e.appendOk then Err(Rejected) else Ok(()))
    ensures r.Ok? && e.name(o.path) != Some("") ==>
              p.items == AttachedItems(e.name, old(p.items), o) && p.keys == AttachedKeys(e.name, old(p.keys), o, -1)
    ensures r.Err? || e.name(o.path) == Some("") ==> p.items == old(p.items) && p.keys == old(p.keys)
    // only these two drivers can be added to a running machine
    ensures o.driver != VirtioBlkPci && o.driver != ScsiHd ==> r == Err(Rejected)
    ensures r.Ok? ==> e.available && e.appendOk
  {
    if !IsValid(o) || !o.driver.HotPluggable() { return Err(Rejected); }
    var d := DiskOf(e.name, o);
    if d.shortName.None? || !e.available { return Err(Rejected); }
    var found := DiskPool.Exists(p, e.name, d.shortName.value);
    if found { return Err(AlreadyConnected); }
    if !e.appendOk { return Err(Rejected); }
    var ignored := DiskPool.Append(p, d);
    r := Ok(());
  }

  method ConfAppend(p: Pool<Disk>, e: Env, o: Options, position: int) returns (r: Result<(), DiskError>)
    requires Good(p, e.name)
    modifies p
    ensures Good(p, e.name)
    ensures r == (
      if !IsValid(o) || e.name(o.path).None? || e.name(o.path).value == "" then Err(Rejected)
      else if e.name(o.path).value in old(p.items) then Err(AlreadyConnected) else Ok(()))
    ensures r.Err? ==> p.items == old(p.items) && p.keys == old(p.keys)
    ensures r.Ok? ==> p.items == AttachedItems(e.name, old(p.items), o) &&
                      p.keys == AttachedKeys(e.name, old(p.keys), o, position)
    ensures r == Err(Rejected) <==>
              || o.path == "" || o.driver == UnknownDriver || o.iopsRd < 0 || o.iopsWr < 0 || o.bootindex < 0
              || e.name(o.path).None? || e.name(o.path) == Some("")
  {
    if !IsValid(o) { return Err(Rejected); }
    var d := DiskOf(e.name, o);
    if d.shortName.None? { return Err(Rejected); }
    var a;
    if position >= 0 {
      a := DiskPool.Insert(p, d, position);
    } else {
      a := DiskPool.Append(p, d);
    }
    match a
    case Ok(_) => r := Ok(());
    case Err(x) => r := Err(if x == AlreadyExists then AlreadyConnected else Rejected);
  }

  /** What re-setting the limits leaves behind: both, or the first, or none. */
  function LimitedItems(name: Namer, items: map<string, Disk>, o: Options, readOk: bool, writeOk: bool)
    : map<string, Disk>
  {
    var k := KeyOf(DiskOf(name, o));
    if !readOk || k !in items then items
    else if !writeOk then items[k := items[k].(iopsRd := o.iopsRd)]
    else AttachedItems(name, items, o)
  }

  /** Both limits of a connected disk, one after the other, up to the first failure. */
  method SetLimits(p: Pool<Disk>, name: Namer, o: Options, readOk: bool, writeOk: bool)
    returns (r: Result<(), DiskError>)
    requires NamesAreNoPaths(name) && Good(p, name) && IsValid(o)
    requires name(o.path).Some? && name(o.path).value in p.items
    modifies p
    ensures Good(p, name) && p.keys == old(p.keys)
    ensures AllNamed(old(p.items)) ==> AllNamed(p.items)
    ensures r.Ok? <==> readOk && writeOk
    ensures p.items == LimitedItems(name, old(p.items), o, readOk, writeOk)
    ensures p.keys == AttachedKeys(name, old(p.keys), o, -1)
  {
    PathResolvesToShortName(name, p.items, o.path);
    r := SetReadIops(p, name, o.path, o.iopsRd, readOk);
    if r.Err? { return; }
    PathResolvesToShortName(name, p.items, o.path);
    r := SetWriteIops(p, name, o.path, o.iopsWr, writeOk);
  }

  /** Whether the running instance can end up with the disk. */
  predicate RuntimeTakes(e: Env, items: map<string, Disk>, o: Options) {
    && o.driver.HotPluggable() && e.available && e.name(o.path).Some?
    && if e.name(o.path).value in items then e.readOk && e.writeOk else e.appendOk
  }

  datatype Contents = Contents(items: map<string, Disk>, keys: seq<string>)

  function ContentsOf(p: Pool<Disk>): Contents
    reads p
  {
    Contents(p.items, p.keys)
  }

  /** What an attachment leaves in the running instance, whether it succeeds or not. */
  function RuntimeAfter(e: Env, was: Contents, o: Options): Contents {
    var n := e.name(o.path);
    if !o.driver.HotPluggable() || !e.available || n.None? then was
    else if n.value in was.items then was.(items := LimitedItems(e.name, was.items, o, e.readOk, e.writeOk))
    else if !e.appendOk || n.value == "" then was
    else Contents(AttachedItems(e.name, was.items, o), AttachedKeys(e.name, was.keys, o, -1))
  }

  /** And in the configuration, which refuses only a disk without a short name. */
  function ConfAfter(e: Env, was: Contents, o: Options, position: int): Contents {
    if e.name(o.path).None? || e.name(o.path).value == "" then was
    else Contents(AttachedItems(e.name, was.items, o), AttachedKeys(e.name, was.keys, o, position))
  }

  /** Whether the running instance can end up without the disk. */
  predicate RuntimeGives(e: Env, items: map<string, Disk>, spelling: string) {
    match Resolve(e.name, items, spelling)
    case None => true
    case Some(k) => items[k].driver.HotPluggable() && e.removeOk
  }

  /** Add the disk to the running instance, or re-set the limits of one that is there. */
  method RuntimeAttach(p: Pool<Disk>, e: Env, o: Options) returns (r: Result<(), DiskError>)
    requires NamesAreNoPaths(e.name) && Good(p, e.name) && AllNamed(p.items) && IsValid(o)
    modifies p
    ensures Good(p, e.name) && AllNamed(p.items)
    ensures r.Ok? <==> RuntimeTakes(e, old(p.items), o)
    ensures ContentsOf(p) == RuntimeAfter(e, old(ContentsOf(p)), o)
    ensures r.Ok? <==>
              && (o.driver == VirtioBlkPci || o.driver == ScsiHd) && e.available && e.name(o.path).Some?
              && (e.name(o.path).value in old(p.items) ==> e.readOk && e.writeOk)
              && (e.name(o.path).value !in old(p.items) ==> e.appendOk)
  {
    r := RuntimeAppend(p, e, o);
    if r == Err(AlreadyConnected) {
      r := SetLimits(p, e.name, o, e.readOk, e.writeOk);
    }
  }

  /** The same for the configuration. */
  method ConfAttach(p: Pool<Disk>, e: Env, o: Options, position: int) returns (r: Result<(), DiskError>)
    requires NamesAreNoPaths(e.name) && Good(p, e.name) && IsValid(o)
    modifies p
    ensures Good(p, e.name)
    ensures r.Ok? <==> e.name(o.path).Some? && e.name(o.path).value != ""
    ensures ContentsOf(p) == ConfAfter(e, old(ContentsOf(p)), o, position)
  {
    r := ConfAppend(p, e, o, position);
    if r == Err(AlreadyConnected) {
      r := SetLimits(p, e.name, o, true, true);
    }
  }

  // ---------------------------------------------------------------------------
  // The two operations of the service

  class Machine {
    const conf: Pool<Disk>
    const runtime: Option<Pool<Disk>>

    constructor (conf: Pool<Disk>, runtime: Option<Pool<Disk>>)
      ensures this.conf == conf && this.runtime == runtime
    {
      this.conf, this.runtime := conf, runtime;
    }

    ghost function Footprint(): set<object> {
      {conf} + (if runtime.Some? then {runtime.value} else {})
    }

    ghost predicate Valid(name: Namer)
      reads Footprint()
    {
      && Good(conf, name)
      && (runtime.Some? ==> runtime.value != conf && Good(runtime.value, name) && AllNamed(runtime.value.items))
    }

    /** Whatever fails, the running instance and the configuration are left as described by
        RuntimeAfter and ConfAfter; a step that fails does not undo those before it. */
    method DiskAttach(e: Env, opts: Options, position: int, live: bool) returns (r: Result<(), DiskError>)
      requires NamesAreNoPaths(e.name) && Valid(e.name)
      modifies Footprint()
      ensures Valid(e.name)
      ensures var o := opts.(path := TrimSpace(opts.path));
              r.Ok? <==>
                && IsValid(o) && e.name(o.path).Some? && e.name(o.path).value != "" && e.saveOk
                && (live && runtime.Some? ==> position < 0 && RuntimeTakes(e, old(runtime.value.items), o))
      ensures var o := opts.(path := TrimSpace(opts.path));
              runtime.Some? ==>
                ContentsOf(runtime.value) ==
                  if live && IsValid(o) && position < 0 then RuntimeAfter(e, old(ContentsOf(runtime.value)), o)
                  else old(ContentsOf(runtime.value))
      ensures var o := opts.(path := TrimSpace(opts.path));
              ContentsOf(conf) ==
                if && IsValid(o)
                   && (live && runtime.Some? ==> position < 0 && RuntimeTakes(e, old(runtime.value.items), o))
                then ConfAfter(e, old(ContentsOf(conf)), o, position)
                else old(ContentsOf(conf))
    {
      var o := opts.(path := TrimSpace(opts.path));
      if !IsValid(o) { return Err(Rejected); }
      if live && runtime.Some? {
        if position >= 0 { return Err(Rejected); }
        r := RuntimeAttach(runtime.value, e, o);
        if r.Err? { return; }
      }
      r := ConfAttach(conf, e, o, position);
      if r.Err? { return; }
      r := if e.saveOk then Ok(()) else Err(Rejected);
    }

    /** A disk that was detached live is in neither place, whichever way it was spelled;
        the others stay as they were. */
    method DiskDetach(e: Env, diskname: string, live: bool) returns (r: Result<(), DiskError>)
      requires NamesAreNoPaths(e.name) && Valid(e.name)
      modifies Footprint()
      ensures Valid(e.name)
      ensures var n := TrimSpace(diskname);
              r.Ok? <==> n != "" && e.saveOk && (live && runtime.Some? ==> RuntimeGives(e, old(runtime.value.items), n))
      ensures var n := TrimSpace(diskname);
              r.Ok? ==> Resolve(e.name, conf.items, n) == None &&
                        IsDetached(e.name, old(conf.items), old(conf.keys), conf.items, conf.keys, n)
      ensures var n := TrimSpace(diskname);
              r.Ok? && live && runtime.Some? ==>
                && Resolve(e.name, runtime.value.items, n) == None
                && IsDetached(e.name, old(runtime.value.items), old(runtime.value.keys),
                              runtime.value.items, runtime.value.keys, n)
      ensures r.Err? && e.saveOk ==> conf.items == old(conf.items) && conf.keys == old(conf.keys)
      ensures runtime.Some? && !live ==>
                runtime.value.items == old(runtime.value.items) && runtime.value.keys == old(runtime.value.keys)
    {
      var n := TrimSpace(diskname);
      if n == "" { return Err(Rejected); }
      if live && runtime.Some? {
        r := RuntimeRemove(runtime.value, e, n);
        if r.Err? && r != Err(NotConnected) { return; }
      }
      ghost var was := conf.items;
      var removed := DiskPool.Remove(conf, e.name, n);
      if removed.Ok? {
        RemovedIsGone(e.name, was, n);
      }
      r := if e.saveOk then Ok(()) else Err(Rejected);
    }
  }

  /** Exactly the disk the spelling stood for, if any, is missing. */
  ghost predicate IsDetached(name: Namer, was: map<string, Disk>, wasKeys: seq<string>,
                             items: map<string, Disk>, keys: seq<string>, spelling: string) {
    match Resolve(name, was, spelling)
    case None => items == was && keys == wasKeys
    case Some(k) => items == was - {k} && keys == Without(wasKeys, k)
  }

  method RuntimeRemove(p: Pool<Disk>, e: Env, spelling: string) returns (r: Result<(), DiskError>)
    requires NamesAreNoPaths(e.name) && Good(p, e.name) && AllNamed(p.items)
    modifies p
    ensures Good(p, e.name) && AllNamed(p.items)
    ensures r == (
      if Resolve(e.name, old(p.items), spelling) == None then Err(NotConnected)
      else if RuntimeGives(e, old(p.items), spelling) then Ok(()) else Err(Rejected))
    ensures r.Err? ==> p.items == old(p.items) && p.keys == old(p.keys)
    ensures r.Ok? || r == Err(NotConnected) ==>
              && Resolve(e.name, p.items, spelling) == None
              && IsDetached(e.name, old(p.items), old(p.keys), p.items, p.keys, spelling)
    // a disk that is there goes exactly if its driver allows it and QEMU does
    ensures Resolve(e.name, old(p.items), spelling).Some? ==>
              var d := old(p.items)[Resolve(e.name, old(p.items), spelling).value];
              (r.Ok? <==> e.removeOk && (d.driver == VirtioBlkPci || d.driver == ScsiHd))
  {
    var d := DiskPool.Get(p, e.name, spelling);
    if d.None? { return Err(NotConnected); }
    if !d.value.driver.HotPluggable() || !e.removeOk { return Err(Rejected); }
    RemovedIsGone(e.name, p.items, spelling);
    var removed := DiskPool.Remove(p, e.name, d.value.shortName.value);
    r := Ok(());
  }

  // ---------------------------------------------------------------------------
  // What the two operations add up to

  /** The path that goes with the short name of `o` in a pool, or that of `o` if none does. */
  function PathAt(name: Namer, items: map<string, Disk>, o: Options): string {
    var k := KeyOf(DiskOf(name, o));
    if k in items then items[k].path else o.path
  }

  /** After a live success both places hold a disk of the short name with the limits asked for.
      It is the disk asked for, in either place, exactly if no other path of that name was
      connected there; and the two places agree on the path exactly if they did before. */
  lemma SuccessMeansAttached(e: Env, runtime: Contents, conf: Contents, o: Options)
    requires IsValid(o) && RuntimeTakes(e, runtime.items, o) && e.name(o.path).value != ""
    requires Filed(e.name, runtime.items) && Filed(e.name, conf.items)
    requires forall k :: k in runtime.keys <==> k in runtime.items
    ensures var k := e.name(o.path).value;
            var r, c := RuntimeAfter(e, runtime, o), ConfAfter(e, conf, o, -1);
            && r == Contents(AttachedItems(e.name, runtime.items, o), AttachedKeys(e.name, runtime.keys, o, -1))
            && c == Contents(AttachedItems(e.name, conf.items, o), AttachedKeys(e.name, conf.keys, o, -1))
            && (k !in runtime.items ==> k in r.items && r.items[k] == NewDisk(o, k))
            && (k !in conf.items ==> k in c.items && c.items[k] == NewDisk(o, k))
            && k in r.items && r.items[k].iopsRd == o.iopsRd && r.items[k].iopsWr == o.iopsWr
            && k in c.items && c.items[k].iopsRd == o.iopsRd && c.items[k].iopsWr == o.iopsWr
            && (HasPath(r.items, o.path) <==> PathAt(e.name, runtime.items, o) == o.path)
            && (HasPath(c.items, o.path) <==> PathAt(e.name, conf.items, o) == o.path)
            && (r.items[k].path == c.items[k].path <==>
                  PathAt(e.name, runtime.items, o) == PathAt(e.name, conf.items, o))
  {
    AttachedPathIff(e.name, runtime.items, o);
    AttachedPathIff(e.name, conf.items, o);
  }

  ghost predicate HasPath(items: map<string, Disk>, path: string) {
    exists k :: k in items && items[k].path == path
  }

  /** The disk asked for is there afterwards if and only if its short name was free, or was
      its own already. */
  lemma AttachedPathIff(name: Namer, items: map<string, Disk>, o: Options)
    requires Filed(name, items) && name(o.path).Some?
    ensures var after := AttachedItems(name, items, o);
            && after[name(o.path).value].path == PathAt(name, items, o)
            && (HasPath(after, o.path) <==> PathAt(name, items, o) == o.path)
  {
    var after, k := AttachedItems(name, items, o), name(o.path).value;
    assert k in after;
    forall x | x in after && x != k ensures after[x].path != o.path {
      assert items[x].shortName == name(items[x].path);
    }
  }

  /** Inputs where it is not: a volume of another group has the same name. The call succeeds in
      both places, sets the limits of that volume and attaches nothing. */
  lemma OtherGroupIsUpdated(u: Uris, connected: string, vg: string, lv: string)
    returns (e: Env, was: Contents, o: Options)
    requires connected != vg
    requires lv != "" && '/' !in lv && !IsSpace(lv[|lv| - 1])
    ensures e.name == NamerOf(u)
    ensures UpdatesAnother(e, was, o, VolumePath(connected, lv), VolumePath(vg, lv))
  {
    NameOfVolume(u, connected, lv);
    NameOfVolume(u, vg, lv);
    VolumesDiffer(connected, vg, lv);
    e, was, o := SameName(NamerOf(u), VolumePath(connected, lv), VolumePath(vg, lv), lv);
  }

  /** Attaching `path` to a machine with the disk `other`, in both places, succeeds and changes
      the limits there, but afterwards no disk has the path. */
  ghost predicate UpdatesAnother(e: Env, was: Contents, o: Options, other: string, path: string) {
    && e.saveOk && IsValid(o) && o.path == path
    && |was.keys| == 1 && HasPath(was.items, other) && Filed(e.name, was.items)
    && RuntimeTakes(e, was.items, o)
    && var after := RuntimeAfter(e, was, o);
       && ConfAfter(e, was, o, -1) == after && after != was && after.keys == was.keys
       && !HasPath(after.items, path)
  }

  lemma SameName(name: Namer, path: string, other: string, k: string)
    returns (e: Env, was: Contents, o: Options)
    requires name(path) == Some(k) && name(other) == Some(k) && path != other && other != ""
    requires k != ""
    ensures e.name == name && UpdatesAnother(e, was, o, path, other)
  {
    e := Env(name, true, true, true, true, true, true);
    var d := Disk(path, VirtioBlkPci, 0, 0, 0, Some(k), "");
    was := Contents(map[k := d], [k]);
    o := Options(other, VirtioBlkPci, 5, 5, 0);
    assert k in was.items;
    AttachedPathIff(name, was.items, o);
    assert RuntimeAfter(e, was, o).items[k].iopsRd == 5;
  }

  /** Exactly when the running instance has changed although the configuration has not: a
      write limit was refused after the read limit was set. */
  lemma RuntimeAheadIff(e: Env, was: Contents, o: Options)
    requires IsValid(o) && !RuntimeTakes(e, was.items, o)
    requires forall k :: k in was.keys <==> k in was.items
    ensures RuntimeAfter(e, was, o) != was <==>
              && o.driver.HotPluggable() && e.available && e.name(o.path).Some? && e.name(o.path).value in was.items
              && e.readOk && !e.writeOk && was.items[e.name(o.path).value].iopsRd != o.iopsRd
  {
    var n := e.name(o.path);
    if n.Some? && n.value in was.items {
      var d := was.items[n.value];
      assert d.(iopsRd := o.iopsRd) == d <==> d.iopsRd == o.iopsRd;
      assert was.items[n.value := d] == was.items;
    }
  }

  /** A disk that was not there before, with everything as it was asked for. */
  function NewDisk(o: Options, k: string): (d: Disk)
    ensures d.path == o.path && d.driver == o.driver && d.bootindex == o.bootindex
    ensures d.iopsRd == o.iopsRd && d.iopsWr == o.iopsWr && d.shortName == Some(k) && d.qemuAddr == ""
  {
    Disk(o.path, o.driver, o.iopsRd, o.iopsWr, o.bootindex, Some(k), "")
  }

  /** What answers to the path and to its short name has exactly the limits asked for, and
      the path asked for unless another one held the name; every other disk is as before;
      attaching once more changes nothing. */
  lemma AttachedHolds(name: Namer, items: map<string, Disk>, o: Options)
    requires NamesAreNoPaths(name) && Filed(name, items) && name(o.path).Some?
    ensures var after := AttachedItems(name, items, o); var k := name(o.path).value;
            && Filed(name, after)
            && Resolve(name, after, o.path) == Some(k) && Resolve(name, after, k) == Some(k)
            && after[k].iopsRd == o.iopsRd && after[k].iopsWr == o.iopsWr
            && (after[k].path == o.path <==> (k in items ==> items[k].path == o.path))
            && (k !in items ==> after[k] == NewDisk(o, k))
            && (k in items ==> after[k] == items[k].(iopsRd := o.iopsRd, iopsWr := o.iopsWr))
            && after - {k} == items - {k}
            && AttachedItems(name, after, o) == after
  {
    var after := AttachedItems(name, items, o);
    assert Filed(name, after);
    PathResolvesToShortName(name, after, o.path);
  }

  lemma AttachedOnce(name: Namer, keys: seq<string>, o: Options, position: int, again: int)
    requires Distinct(keys)
    ensures var after := AttachedKeys(name, keys, o, position); var k := KeyOf(DiskOf(name, o));
            && Distinct(after) && k in after && (forall x :: x in after <==> x in keys || x == k)
            && AttachedKeys(name, after, o, again) == after
            && Without(after, k) == Without(keys, k)
  {
    var k := KeyOf(DiskOf(name, o));
    if k !in keys {
      InsertAtMembers(keys, k, if position >= 0 then position else |keys|);
      InsertThenRemove(keys, k, if position >= 0 then position else |keys|);
      WithoutAbsent(keys, k);
      assert InsertAt(keys, k, |keys|) == keys + [k];
    }
  }

  /** Attaching a new disk and detaching it, by whichever spelling, restores the machine. */
  lemma DetachUndoesAttach(name: Namer, items: map<string, Disk>, keys: seq<string>, o: Options, position: int,
                           spelling: string)
    requires NamesAreNoPaths(name) && Filed(name, items) && name(o.path).Some?
    requires forall k :: k in keys <==> k in items
    requires name(o.path).value !in items
    requires spelling == name(o.path).value || name(spelling) == name(o.path)
    ensures var after := AttachedItems(name, items, o);
            && Resolve(name, after, spelling) == name(o.path)
            && after - {name(o.path).value} == items
            && Without(AttachedKeys(name, keys, o, position), name(o.path).value) == keys
  {
    AttachedHolds(name, items, o);
    var k := name(o.path).value;
    SpellingsAgree(name, AttachedItems(name, items, o), o.path, if spelling == k then o.path else spelling);
    InsertThenRemove(keys, k, if position >= 0 then position else |keys|);
    assert InsertAt(keys, k, |keys|) == keys + [k];
  }
}
