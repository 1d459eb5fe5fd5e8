/**
 The part of QEMU's command line that declares drives: first the cdroms, then the disks,
 each SCSI bus in front of the first device that sits on it.
 */
module ScsiArgs {
  import opened Wrappers
  import opened Text
  import DiskPool

  // ---------------------------------------------------------------------------
  // SCSI addresses, like scsi0:0x10/1

  datatype ScsiAddr = ScsiAddr(bus: string, addr: string, lun: string)

  const DEFAULT_BUS := "scsi0"

  function ParseScsiAddr(s: string): ScsiAddr {
    var parts := Split(s, '/');
    var names := Split(parts[0], ':');
    ScsiAddr(
      if |names[0]| > 0 then names[0] else DEFAULT_BUS,
      if |names| > 1 then names[1] else "",
      if |parts| > 1 then parts[1] else "")
  }

  /** How the running instance spells the address that QEMU reports. */
  function PrintScsiAddr(a: ScsiAddr): string {
    a.bus + ":" + a.addr + "/" + a.lun
  }

  /** What the running instance prints, the command line reads back. */
  lemma ScsiAddrRoundTrip(a: ScsiAddr)
    requires '/' !in a.bus && ':' !in a.bus && '/' !in a.addr && ':' !in a.addr && '/' !in a.lun
    ensures ParseScsiAddr(PrintScsiAddr(a)) == a.(bus := if a.bus == "" then "scsi0" else a.bus)
    ensures ParseScsiAddr(PrintScsiAddr(a)) == a <==> a.bus != ""
  {
    var front := a.bus + ":" + a.addr;
    SplitFirst(front, a.lun, '/');
    SplitOne(a.lun, '/');
    assert PrintScsiAddr(a) == front + (['/'] + a.lun);
    SplitFirst(a.bus, a.addr, ':');
    SplitOne(a.addr, ':');
    assert front == a.bus + ([':'] + a.addr);
  }

  /** An address may also be left out, and so may the unit. */
  lemma ShortScsiAddr(bus: string, addr: string)
    requires '/' !in bus && ':' !in bus && '/' !in addr && ':' !in addr
    ensures ParseScsiAddr(bus) == ScsiAddr(if bus == "" then "scsi0" else bus, "", "")
    ensures ParseScsiAddr(bus + ":" + addr) == ScsiAddr(if bus == "" then "scsi0" else bus, addr, "")
  {
    SplitOne(bus, '/');
    SplitOne(bus, ':');
    SplitOne(bus + ":" + addr, '/');
    SplitFirst(bus, addr, ':');
    SplitOne(addr, ':');
    assert bus + ":" + addr == bus + ([':'] + addr);
  }

  // ---------------------------------------------------------------------------
  // Devices and arguments

  datatype CdromDriver = ScsiCd | IdeCd | UnknownCdrom

  datatype Cdrom = Cdrom(
    name: string,
    media: string,
    driver: CdromDriver,
    readonly: bool,
    bootindex: int,
    qemuAddr: string)

  /** `Crash` is no error that is returned: a disk without a backend would make the program
      call a method of a nil interface. Whoever loads a configuration has to rule that out. */
  datatype Error = InvalidCdrom(name: string) | InvalidDisk(path: string) | Crash(path: string)

  datatype Driver = Cd(cd: CdromDriver) | Hd(hd: DiskPool.Driver)
  {
    predicate IsScsi() { this == Cd(ScsiCd) || this == Hd(DiskPool.ScsiHd) }
  }

  datatype Limits = Limits(rd: int, wr: int)

  datatype Arg =
    | Bus(id: string, addr: string)
    | Drive(file: string, id: string, readonly: bool, limits: Option<Limits>)
    | Device(driver: Driver, drive: string, id: string, bus: string, addr: string, lun: string, bootindex: int)
  {
    predicate OnScsi() { Device? && driver.IsScsi() }
  }

  function BusOf(name: string): string {
    name + ".0"
  }

  function CdromError(c: Cdrom): Option<Error> {
    if TrimSpace(c.name) == "" || c.driver.UnknownCdrom? || c.bootindex < 0 then Some(InvalidCdrom(c.name)) else None
  }

  predicate IsValid(d: DiskPool.Disk) {
    TrimSpace(d.path) != "" && !d.driver.UnknownDriver? && d.iopsRd >= 0 && d.iopsWr >= 0 && d.bootindex >= 0
  }

  function DiskError(d: DiskPool.Disk): Option<Error> {
    if !IsValid(d) then Some(InvalidDisk(d.path))
    else if d.shortName.None? then Some(Crash(d.path))
    else None
  }

  /** The arguments of a cdrom whose name and media were trimmed by the validation. */
  function CdromArgs(c: Cdrom, name: string, media: string, a: ScsiAddr): seq<Arg> {
    var scsi := c.driver.ScsiCd?;
    [Drive(media, name, c.readonly, None),
     Device(Cd(c.driver), name, "cdrom_" + name,
            if scsi then BusOf(a.bus) else "", "", if scsi then a.lun else "", c.bootindex)]
  }

  function DiskArgs(d: DiskPool.Disk, path: string, a: ScsiAddr): seq<Arg> {
    var name := d.shortName.GetOr("");
    [Drive(path, name, false, Some(Limits(d.iopsRd, d.iopsWr))),
     match d.driver
     case VirtioBlkPci => Device(Hd(d.driver), name, "blk_" + name, "pci.0", d.qemuAddr, "", d.bootindex)
     case ScsiHd => Device(Hd(d.driver), name, "blk_" + name, BusOf(a.bus), "", a.lun, d.bootindex)
     case _ => Device(Hd(d.driver), name, "blk_" + name, "", "", "", d.bootindex)]
  }

  // ---------------------------------------------------------------------------
  // What both loops do with a device

  /** A device's own arguments, and the bus (with its address) that it has to find there. */
  datatype Item = Item(bus: Option<ScsiAddr>, args: seq<Arg>)

  function CdromItem(c: Cdrom): (i: Item)
    ensures Proper(i)
  {
    var a := ParseScsiAddr(c.qemuAddr);
    CdromIsProper(c, TrimSpace(c.name), TrimSpace(c.media), a);
    Item(if c.driver.ScsiCd? then Some(a) else None, CdromArgs(c, TrimSpace(c.name), TrimSpace(c.media), a))
  }

  function DiskItem(d: DiskPool.Disk): (i: Item)
    ensures Proper(i)
  {
    var a := ParseScsiAddr(d.qemuAddr);
    DiskIsProper(d, TrimSpace(d.path), a);
    Item(if d.driver.ScsiHd? then Some(a) else None, DiskArgs(d, TrimSpace(d.path), a))
  }

  /** A device brings no bus of its own, and its SCSI arguments sit on the bus it names. */
  ghost predicate Proper(i: Item) {
    forall a :: a in i.args ==> !a.Bus? && (a.OnScsi() ==> i.bus.Some? && a.bus == BusOf(i.bus.value.bus))
  }

  lemma CdromIsProper(c: Cdrom, name: string, media: string, a: ScsiAddr)
    ensures Proper(Item(if c.driver.ScsiCd? then Some(a) else None, CdromArgs(c, name, media, a)))
  {
    assert CdromArgs(c, name, media, a)[1].OnScsi() ==> c.driver.ScsiCd?;
  }

  lemma DiskIsProper(d: DiskPool.Disk, path: string, a: ScsiAddr)
    ensures Proper(Item(if d.driver.ScsiHd? then Some(a) else None, DiskArgs(d, path, a)))
  {
    assert DiskArgs(d, path, a)[1].OnScsi() ==> d.driver.ScsiHd?;
  }

  /** What a disk's arguments tell QEMU. */
  lemma DiskArgsSay(d: DiskPool.Disk)
    ensures var a := ParseScsiAddr(d.qemuAddr); var i := DiskItem(d);
            && |i.args| == 2 && i.args[0].Drive? && i.args[1].Device?
            && i.args[0].file == TrimSpace(d.path) && i.args[0].id == d.shortName.GetOr("")
            && i.args[0].limits.Some? && i.args[0].limits.value.rd == d.iopsRd && i.args[0].limits.value.wr == d.iopsWr
            && !i.args[0].readonly && i.args[1].drive == i.args[0].id && i.args[1].id == "blk_" + i.args[0].id
            && i.args[1].driver == Hd(d.driver) && i.args[1].bootindex == d.bootindex
            && (d.driver.VirtioBlkPci? ==>
                  i.bus == None && i.args[1].bus == "pci.0" && i.args[1].addr == d.qemuAddr && i.args[1].lun == "")
            && (d.driver.ScsiHd? ==>
                  i.bus == Some(a) && i.args[1].bus == BusOf(a.bus) && i.args[1].lun == a.lun && i.args[1].addr == "")
            && (d.driver.IdeHd? ==> i.bus == None && i.args[1].bus == "" && i.args[1].addr == "" && i.args[1].lun == "")
  {
    DiskItemIs(d);
    DiskArgsAre(d, TrimSpace(d.path), ParseScsiAddr(d.qemuAddr));
  }

  lemma DiskItemIs(d: DiskPool.Disk)
    ensures var a := ParseScsiAddr(d.qemuAddr);
            && DiskItem(d).args == DiskArgs(d, TrimSpace(d.path), a)
            && DiskItem(d).bus == if d.driver == DiskPool.ScsiHd then Some(a) else None
  {
  }

  lemma DiskArgsAre(d: DiskPool.Disk, path: string, a: ScsiAddr)
    ensures var args := DiskArgs(d, path, a); var name := d.shortName.GetOr("");
            && |args| == 2 && args[0] == Drive(path, name, false, Some(Limits(d.iopsRd, d.iopsWr)))
            && args[1].Device? && args[1].driver == Hd(d.driver) && args[1].drive == name && args[1].id == "blk_" + name
            && args[1].bootindex == d.bootindex
            && args[1].bus == (
                 if d.driver.VirtioBlkPci? then "pci.0" else if d.driver.ScsiHd? then BusOf(a.bus) else "")
            && args[1].addr == (if d.driver.VirtioBlkPci? then d.qemuAddr else "")
            && args[1].lun == (if d.driver.ScsiHd? then a.lun else "")
  {
  }

  /** What a cdrom's arguments tell QEMU. */
  lemma CdromArgsSay(c: Cdrom)
    ensures var a := ParseScsiAddr(c.qemuAddr); var i := CdromItem(c); var name := TrimSpace(c.name);
            && |i.args| == 2 && i.args[0] == Drive(TrimSpace(c.media), name, c.readonly, None)
            && i.args[1].Device? && i.args[1].drive == name && i.args[1].id == "cdrom_" + name
            && i.args[1].driver == Cd(c.driver) && i.args[1].bootindex == c.bootindex && i.args[1].addr == ""
            && (c.driver.ScsiCd? ==>
                  i.bus == Some(a) && i.args[1].bus == BusOf(a.bus) && i.args[1].lun == a.lun)
            && (!c.driver.ScsiCd? ==> i.bus == None && i.args[1].bus == "" && i.args[1].lun == "")
  {
    CdromItemIs(c);
    CdromArgsAre(c, TrimSpace(c.name), TrimSpace(c.media), ParseScsiAddr(c.qemuAddr));
  }

  lemma CdromItemIs(c: Cdrom)
    ensures var a := ParseScsiAddr(c.qemuAddr);
            && CdromItem(c).args == CdromArgs(c, TrimSpace(c.name), TrimSpace(c.media), a)
            && CdromItem(c).bus == if c.driver == ScsiCd then Some(a) else None
  {
  }

  lemma CdromArgsAre(c: Cdrom, name: string, media: string, a: ScsiAddr)
    ensures var args := CdromArgs(c, name, media, a);
            && |args| == 2 && args[0] == Drive(media, name, c.readonly, None)
            && args[1].Device? && args[1].driver == Cd(c.driver) && args[1].drive == name
            && args[1].id == "cdrom_" + name && args[1].bootindex == c.bootindex && args[1].addr == ""
            && args[1].bus == (if c.driver.ScsiCd? then BusOf(a.bus) else "")
            && args[1].lun == (if c.driver.ScsiCd? then a.lun else "")
  {
  }

  function Items<D>(ds: seq<D>, item: D -> Item): seq<Item> {
    if ds == [] then [] else [item(ds[0])] + Items(ds[1..], item)
  }

  function Needed(i: Item, seen: set<string>): seq<Arg> {
    if i.bus.Some? && i.bus.value.bus !in seen then [Bus(i.bus.value.bus, i.bus.value.addr)] else []
  }

  function Named(i: Item): set<string> {
    if i.bus.Some? then {i.bus.value.bus} else {}
  }

  function AllNamed(items: seq<Item>): set<string> {
    if items == [] then {} else Named(items[0]) + AllNamed(items[1..])
  }

  function Compile(items: seq<Item>, seen: set<string>): seq<Arg>
    decreases |items|
  {
    if items == [] then []
    else Needed(items[0], seen) + items[0].args + Compile(items[1..], seen + Named(items[0]))
  }

  /** The first complaint about a device, in the order of the loop. */
  function FirstError<D>(ds: seq<D>, error: D -> Option<Error>): Option<Error> {
    if ds == [] then None else if error(ds[0]).Some? then error(ds[0]) else FirstError(ds[1..], error)
  }

  /** The loop over the cdroms, and the one over the disks. */
  method Loop<D>(devs: seq<D>, item: D -> Item, error: D -> Option<Error>, before: seq<Arg>, known: set<string>)
    returns (bad: Option<Error>, args: seq<Arg>, scsiBuses: set<string>)
    ensures bad == FirstError(devs, error)
    ensures bad == None ==> args == before + Compile(Items(devs, item), known)
    ensures bad == None ==> scsiBuses == known + AllNamed(Items(devs, item))
  {
    bad, args, scsiBuses := None, before, known;
    assert devs[0..] == devs;
    ghost var all, buses := before + Compile(Items(devs, item), known), known + AllNamed(Items(devs, item));
    for i := 0 to |devs|
      invariant bad == None && FirstError(devs[i..], error) == FirstError(devs, error)
      invariant args + Compile(Items(devs[i..], item), scsiBuses) == all
      invariant scsiBuses + AllNamed(Items(devs[i..], item)) == buses
    {
      assert devs[i..][1..] == devs[i + 1..];
      bad := error(devs[i]);
      if bad.Some? { return; }
      var it := item(devs[i]);
      CompileCons(args, it, Items(devs[i + 1..], item), scsiBuses);
      ghost var was, seen := args, scsiBuses;
      if it.bus.Some? {
        if it.bus.value.bus !in scsiBuses {
          args := args + [Bus(it.bus.value.bus, it.bus.value.addr)];
          scsiBuses := scsiBuses + {it.bus.value.bus};
        }
      }
      args := args + it.args;
      assert args == was + (Needed(it, seen) + it.args) && scsiBuses == seen + Named(it);
    }
  }

  /** Both loops, for whatever they make of a device. */
  method GenWith<C, D>(cdroms: seq<C>, disks: seq<D>, cdrom: C -> Item, cdromError: C -> Option<Error>,
                       disk: D -> Item, diskError: D -> Option<Error>) returns (r: Result<seq<Arg>, Error>)
    ensures r == match FirstError(cdroms, cdromError)
                 case Some(e) => Err(e)
                 case None =>
                   match FirstError(disks, diskError)
                   case Some(e) => Err(e)
                   case None => Ok(Compile(Items(cdroms, cdrom) + Items(disks, disk), {}))
  {
    var bad, args, scsiBuses := Loop(cdroms, cdrom, cdromError, [], {});
    if bad.Some? { return Err(bad.value); }
    assert [] + Compile(Items(cdroms, cdrom), {}) == Compile(Items(cdroms, cdrom), {});
    bad, args, scsiBuses := Loop(disks, disk, diskError, args, scsiBuses);
    if bad.Some? { return Err(bad.value); }
    CompileConcat(Items(cdroms, cdrom), Items(disks, disk), {});
    r := Ok(args);
  }

  method Gen(cdroms: seq<Cdrom>, disks: seq<DiskPool.Disk>) returns (r: Result<seq<Arg>, Error>)
    ensures r == match FirstError(cdroms, CdromError)
                 case Some(e) => Err(e)
                 case None =>
                   match FirstError(disks, DiskError)
                   case Some(e) => Err(e)
                   case None => Ok(Compile(Items(cdroms, CdromItem) + Items(disks, DiskItem), {}))
  {
    r := GenWith(cdroms, disks, CdromItem, CdromError, DiskItem, DiskError);
  }

  lemma {:induction false} FirstErrorIsFirst<D>(ds: seq<D>, error: D -> Option<Error>, e: Error)
    ensures FirstError(ds, error) == Some(e) <==>
            exists k :: 0 <= k < |ds| && error(ds[k]) == Some(e) && forall j :: 0 <= j < k ==> error(ds[j]) == None
  {
    if ds != [] {
      var rest := ds[1..];
      FirstErrorIsFirst(rest, error, e);
      if error(ds[0]).None? && FirstError(ds, error) == Some(e) {
        var k :| 0 <= k < |rest| && error(rest[k]) == Some(e) && forall j :: 0 <= j < k ==> error(rest[j]) == None;
        forall j | 0 <= j < k + 1 ensures error(ds[j]) == None {
          if j > 0 { assert ds[j] == rest[j - 1]; }
        }
        assert ds[k + 1] == rest[k];
      }
      if k :| 0 <= k < |ds| && error(ds[k]) == Some(e) && forall j :: 0 <= j < k ==> error(ds[j]) == None {
        if k > 0 {
          assert rest[k - 1] == ds[k];
          forall j | 0 <= j < k - 1 ensures error(rest[j]) == None { assert rest[j] == ds[j + 1]; }
        }
      }
    }
  }

  /** No device is found fault with exactly if each has a name or path, a known driver, a
      backend, and no negative number. */
  lemma NoErrorIff(cdroms: seq<Cdrom>, disks: seq<DiskPool.Disk>)
    ensures FirstError(cdroms, CdromError) == None <==>
            forall k :: 0 <= k < |cdroms| ==>
              TrimSpace(cdroms[k].name) != "" && cdroms[k].driver != UnknownCdrom && cdroms[k].bootindex >= 0
    ensures FirstError(disks, DiskError) == None <==>
            forall k :: 0 <= k < |disks| ==> IsSound(disks[k])
  {
    NoErrorMeans(cdroms, CdromError);
    NoErrorMeans(disks, DiskError);
    forall k | 0 <= k < |disks| ensures DiskError(disks[k]) == None <==> IsSound(disks[k]) {
      SoundDisk(disks[k]);
    }
  }

  predicate IsSound(d: DiskPool.Disk) {
    && TrimSpace(d.path) != "" && d.driver != DiskPool.UnknownDriver && d.shortName != None
    && d.iopsRd >= 0 && d.iopsWr >= 0 && d.bootindex >= 0
  }

  lemma SoundDisk(d: DiskPool.Disk)
    ensures DiskError(d) == None <==> IsSound(d)
  {
  }

  lemma {:induction false} NoErrorMeans<D>(ds: seq<D>, error: D -> Option<Error>)
    ensures FirstError(ds, error) == None <==> forall k :: 0 <= k < |ds| ==> error(ds[k]) == None
  {
    if ds != [] {
      NoErrorMeans(ds[1..], error);
      assert forall k :: 0 < k < |ds| ==> ds[k] == ds[1..][k - 1];
    }
  }

  predicate IsCrash(d: DiskPool.Disk, path: string) {
    d.path == path && d.shortName.None? && IsValid(d)
  }

  lemma DiskErrorMeaning(d: DiskPool.Disk, path: string)
    ensures DiskError(d) == Some(Crash(path)) <==> IsCrash(d, path)
    ensures DiskError(d) == None <==> IsValid(d) && d.shortName.Some?
  {
  }

  /** What Gen asks of its caller: it would crash on a disk if and only if that is a valid one
      without a backend and no earlier disk is found fault with; on a cdrom it never would. */
  lemma CrashesIff(cdroms: seq<Cdrom>, disks: seq<DiskPool.Disk>, path: string)
    ensures FirstError(cdroms, CdromError) != Some(Crash(path))
    ensures FirstError(disks, DiskError) == Some(Crash(path)) <==>
            exists k :: 0 <= k < |disks| && IsCrash(disks[k], path) &&
              forall j :: 0 <= j < k ==> IsValid(disks[j]) && disks[j].shortName.Some?
  {
    FirstErrorIsFirst(cdroms, CdromError, Crash(path));
    FirstErrorIsFirst(disks, DiskError, Crash(path));
    forall k | 0 <= k < |disks|
      ensures DiskError(disks[k]) == Some(Crash(path)) <==> IsCrash(disks[k], path)
      ensures DiskError(disks[k]) == None <==> IsValid(disks[k]) && disks[k].shortName.Some?
    {
      DiskErrorMeaning(disks[k], path);
    }
  }

  lemma CompileCons(args: seq<Arg>, first: Item, rest: seq<Item>, seen: set<string>)
    ensures args + (Needed(first, seen) + first.args) + Compile(rest, seen + Named(first))
            == args + Compile([first] + rest, seen)
  {
    assert ([first] + rest)[1..] == rest;
  }

  lemma Associates(a: seq<Arg>, b: seq<Arg>, c: seq<Arg>)
    ensures a + (b + c) == a + b + c
  {
  }

  lemma {:induction false} CompileConcat(front: seq<Item>, back: seq<Item>, seen: set<string>)
    ensures Compile(front + back, seen) == Compile(front, seen) + Compile(back, seen + AllNamed(front))
    decreases |front|
  {
    if front == [] {
      assert front + back == back;
      assert seen + AllNamed(front) == seen;
    } else {
      var now := seen + Named(front[0]);
      CompileConcat(front[1..], back, now);
      assert now + AllNamed(front[1..]) == seen + AllNamed(front);
      var both := front + back;
      assert both[0] == front[0] && both[1..] == front[1..] + back;
      var head := Needed(front[0], seen) + front[0].args;
      assert Compile(both, seen) == head + Compile(both[1..], now);
      Associates(head, Compile(front[1..], now), Compile(back, now + AllNamed(front[1..])));
    }
  }

  // ---------------------------------------------------------------------------
  // What QEMU needs of the list

  /** Reading from the left, with some buses already there: no bus twice, and no SCSI device
      before its bus. */
  ghost predicate Ordered(args: seq<Arg>, there: set<string>)
    decreases |args|
  {
    args == [] ||
    if args[0].Bus? then args[0].id !in there && Ordered(args[1..], there + {args[0].id})
    else (args[0].OnScsi() ==> exists b :: b in there && args[0].bus == BusOf(b)) && Ordered(args[1..], there)
  }

  /** The buses a list declares, with their addresses, in order. */
  function Declared(args: seq<Arg>): seq<(string, string)> {
    if args == [] then []
    else (if args[0].Bus? then [(args[0].id, args[0].addr)] else []) + Declared(args[1..])
  }

  /** The list without the buses. */
  function Others(args: seq<Arg>): seq<Arg> {
    if args == [] then [] else (if args[0].Bus? then [] else [args[0]]) + Others(args[1..])
  }

  function AllArgs(items: seq<Item>): seq<Arg> {
    if items == [] then [] else items[0].args + AllArgs(items[1..])
  }

  /** The first mention of each bus, with the address given there. */
  function FirstMentions(items: seq<Item>, seen: set<string>): seq<(string, string)>
    decreases |items|
  {
    if items == [] then []
    else Mention(items[0], seen) + FirstMentions(items[1..], seen + Named(items[0]))
  }

  function Mention(i: Item, seen: set<string>): seq<(string, string)> {
    if i.bus.Some? && i.bus.value.bus !in seen then [(i.bus.value.bus, i.bus.value.addr)] else []
  }

  lemma {:induction false} ItemsAreProper<D>(ds: seq<D>, item: D -> Item)
    requires forall d :: Proper(item(d))
    ensures forall i :: i in Items(ds, item) ==> Proper(i)
  {
    if ds != [] {
      ItemsAreProper(ds[1..], item);
    }
  }

  lemma {:induction false} ArgsAreOrdered(args: seq<Arg>, more: seq<Arg>, there: set<string>)
    requires Ordered(more, there)
    requires forall a :: a in args ==> !a.Bus? && (a.OnScsi() ==> exists b :: b in there && a.bus == BusOf(b))
    ensures Ordered(args + more, there)
    ensures Declared(args + more) == Declared(more) && Others(args + more) == args + Others(more)
  {
    if args == [] {
      assert args + more == more;
    } else {
      assert (args + more)[1..] == args[1..] + more;
      assert args[0] in args;
      ArgsAreOrdered(args[1..], more, there);
      assert args + Others(more) == [args[0]] + (args[1..] + Others(more));
    }
  }

  /** The whole story of the list: in order, each mentioned bus declared with the address of
      its first mention, everything else untouched and in the order of the devices. */
  lemma {:induction false} CompileIsOrdered(items: seq<Item>, seen: set<string>)
    requires forall i :: i in items ==> Proper(i)
    ensures Ordered(Compile(items, seen), seen)
    ensures Declared(Compile(items, seen)) == FirstMentions(items, seen)
    ensures Others(Compile(items, seen)) == AllArgs(items)
    decreases |items|
  {
    if items != [] {
      var i := items[0];
      assert Proper(i);
      var now := seen + Named(i);
      CompileIsOrdered(items[1..], now);
      var tail := Compile(items[1..], now);
      ItemIsOrdered(i, tail, seen);
      Associates(Needed(i, seen), i.args, tail);
    }
  }

  lemma ItemIsOrdered(i: Item, tail: seq<Arg>, seen: set<string>)
    requires Proper(i) && Ordered(tail, seen + Named(i))
    ensures var args := Needed(i, seen) + (i.args + tail);
            && Ordered(args, seen)
            && Others(args) == i.args + Others(tail)
            && Declared(args) == Mention(i, seen) + Declared(tail)
  {
    DeviceIsOrdered(i, tail, seen + Named(i));
    NeededIsOrdered(i, i.args + tail, seen);
  }

  lemma NeededIsOrdered(i: Item, body: seq<Arg>, seen: set<string>)
    requires Ordered(body, seen + Named(i))
    ensures var args := Needed(i, seen) + body;
            Ordered(args, seen) && Others(args) == Others(body) && Declared(args) == Mention(i, seen) + Declared(body)
  {
    if Mention(i, seen) == [] {
      assert Needed(i, seen) + body == body;
      assert seen + Named(i) == seen;
    } else {
      BusInFront(i.bus.value, body, seen);
    }
  }

  lemma DeviceIsOrdered(i: Item, tail: seq<Arg>, there: set<string>)
    requires Proper(i) && Named(i) <= there && Ordered(tail, there)
    ensures Ordered(i.args + tail, there)
    ensures Declared(i.args + tail) == Declared(tail) && Others(i.args + tail) == i.args + Others(tail)
  {
    forall a | a in i.args ensures !a.Bus? && (a.OnScsi() ==> exists b :: b in there && a.bus == BusOf(b)) {
      if a.OnScsi() {
        assert i.bus.value.bus in there;
      }
    }
    ArgsAreOrdered(i.args, tail, there);
  }

  lemma BusInFront(a: ScsiAddr, rest: seq<Arg>, seen: set<string>)
    requires a.bus !in seen && Ordered(rest, seen + {a.bus})
    ensures var args := [Bus(a.bus, a.addr)] + rest;
            Ordered(args, seen) && Others(args) == Others(rest) && Declared(args) == [(a.bus, a.addr)] + Declared(rest)
  {
    assert ([Bus(a.bus, a.addr)] + rest)[1..] == rest;
  }

  // ---------------------------------------------------------------------------
  // The same by position

  /** In an ordered list every SCSI device finds its bus further left, and no bus has the
      name of an earlier one. */
  lemma {:induction false} OrderedByPosition(args: seq<Arg>, there: set<string>, k: nat)
    requires Ordered(args, there) && k < |args|
    ensures args[k].OnScsi() ==>
              || (exists b :: b in there && args[k].bus == BusOf(b))
              || (exists j :: 0 <= j < k && args[j].Bus? && args[k].bus == BusOf(args[j].id))
    ensures args[k].Bus? ==> args[k].id !in there && forall j :: 0 <= j < k && args[j].Bus? ==> args[j].id != args[k].id
    decreases |args|
  {
    if k > 0 {
      var first := args[0];
      var now := if first.Bus? then there + {first.id} else there;
      OrderedByPosition(args[1..], now, k - 1);
      assert args[k] == args[1..][k - 1];
      if args[k].OnScsi() {
        if j :| 0 <= j < k - 1 && args[1..][j].Bus? && args[k].bus == BusOf(args[1..][j].id) {
          assert args[j + 1] == args[1..][j];
        }
      }
      if args[k].Bus? {
        forall j | 0 <= j < k && args[j].Bus? ensures args[j].id != args[k].id {
          if j > 0 { assert args[j] == args[1..][j - 1]; }
        }
      }
    }
  }

  /** The buses declared are exactly those some SCSI device asks for, each once. */
  lemma {:induction false} MentionsAreExact(items: seq<Item>, seen: set<string>, bus: string)
    ensures (exists m :: m in FirstMentions(items, seen) && m.0 == bus)
            <==> bus !in seen && exists i :: i in items && i.bus.Some? && i.bus.value.bus == bus
    decreases |items|
  {
    if items != [] {
      MentionsAreExact(items[1..], seen + Named(items[0]), bus);
      assert items == [items[0]] + items[1..];
    }
  }

  /** Each bus is declared with the address that the first device on it has. */
  lemma {:induction false} MentionsHaveFirstAddress(items: seq<Item>, seen: set<string>, m: (string, string))
    requires m in FirstMentions(items, seen)
    ensures exists k :: 0 <= k < |items| && items[k].bus.Some? && items[k].bus.value.bus == m.0 &&
              items[k].bus.value.addr == m.1 && forall j :: 0 <= j < k ==> m.0 !in Named(items[j])
    ensures m.0 !in seen
    decreases |items|
  {
    var rest := items[1..];
    if m in Mention(items[0], seen) {
      assert items[0].bus.Some?;
    } else {
      MentionsHaveFirstAddress(rest, seen + Named(items[0]), m);
      var k :| 0 <= k < |rest| && rest[k].bus.Some? && rest[k].bus.value.bus == m.0 &&
        rest[k].bus.value.addr == m.1 && forall j :: 0 <= j < k ==> m.0 !in Named(rest[j]);
      assert items[k + 1] == rest[k];
      forall j | 0 <= j < k + 1 ensures m.0 !in Named(items[j]) {
        if j > 0 { assert items[j] == rest[j - 1]; }
      }
    }
  }

  /** The argument list of any machine whose devices pass validation. */
  lemma GeneratedListIsSound(cdroms: seq<Cdrom>, disks: seq<DiskPool.Disk>)
    ensures var items := Items(cdroms, CdromItem) + Items(disks, DiskItem); var args := Compile(items, {});
            && (forall k :: 0 <= k < |args| && args[k].OnScsi() ==>
                  exists j :: 0 <= j < k && args[j].Bus? && args[k].bus == BusOf(args[j].id))
            && (forall j, k :: 0 <= j < k < |args| && args[j].Bus? && args[k].Bus? ==> args[j].id != args[k].id)
            && Declared(args) == FirstMentions(items, {})
            && Others(args) == AllArgs(items)
  {
    ItemsAreProper(cdroms, CdromItem);
    ItemsAreProper(disks, DiskItem);
    SoundList(Items(cdroms, CdromItem) + Items(disks, DiskItem));
  }

  lemma SoundList(items: seq<Item>)
    requires forall i :: i in items ==> Proper(i)
    ensures var args := Compile(items, {});
            && (forall k :: 0 <= k < |args| && args[k].OnScsi() ==>
                  exists j :: 0 <= j < k && args[j].Bus? && args[k].bus == BusOf(args[j].id))
            && (forall j, k :: 0 <= j < k < |args| && args[j].Bus? && args[k].Bus? ==> args[j].id != args[k].id)
            && Declared(args) == FirstMentions(items, {})
            && Others(args) == AllArgs(items)
  {
    CompileIsOrdered(items, {});
    var args := Compile(items, {});
    forall k | 0 <= k < |args|
      ensures args[k].OnScsi() ==> exists j :: 0 <= j < k && args[j].Bus? && args[k].bus == BusOf(args[j].id)
      ensures args[k].Bus? ==> forall j :: 0 <= j < k && args[j].Bus? ==> args[j].id != args[k].id
    {
      OrderedByPosition(args, {}, k);
    }
  }
}
