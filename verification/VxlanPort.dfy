/**
 The life of VXLAN ports: a bridge `xbr_V` and a device `vxlan_V` appear with the first
 port of network V and go with the last one.
 */
module VxlanPort {
  import opened Wrappers
  import opened Netlink
  import Decimal

  function Xbr(vni: nat): string { "xbr_" + Decimal.Render(vni) }
  function Vx(vni: nat): string { "vxlan_" + Decimal.Render(vni) }

  // ---------------------------------------------------------------------------
  // The operations as functions of the link table and the number of calls that succeed

  function CreateBridge(s: Session, name: string): Session {
    var s1 := Call(s, s.net);
    if s1.failed then s1
    else if name in s1.net.links then
      if s1.net.links[name].kind.Bridge? then SetUp(s1, name) else Fail(s1)
    else
      var s2 := Add(s1, name, Bridge);
      if s2.failed then s2 else SetUp(s2, name)
  }

  function CreateVxlan(s: Session, name: string, vni: nat): Session {
    var s1 := Call(s, s.net);
    if s1.failed then s1
    else if name in s1.net.links then
      if s1.net.links[name].kind == Vxlan(vni) then SetUp(s1, name) else Fail(s1)
    else
      var s2 := Add(s1, name, Vxlan(vni));
      if s2.failed then s2 else SetUp(s2, name)
  }

  function EnslaveVxlan(s: Session, vni: nat): Session {
    var s1 := CreateBridge(s, Xbr(vni));
    if s1.failed then s1
    else
      var s2 := CreateVxlan(s1, Vx(vni), vni);
      if s2.failed then s2 else SetMaster(s2, Vx(vni), Xbr(vni))
  }

  function EnslavePort(s: Session, port: string, vni: nat): Session {
    var s1 := Call(s, s.net);
    if s1.failed then s1
    else if port !in s1.net.links then Fail(s1)
    else
      var s2 := SetMaster(s1, port, Xbr(vni));
      if s2.failed then s2 else SetUp(s2, port)
  }

  function SetMTUs(s: Session, port: string, vni: nat, mtu: nat): Session {
    if mtu < 68 then s
    else
      var s1 := SetMTU(s, Xbr(vni), mtu);
      if s1.failed then s1
      else
        var s2 := SetMTU(s1, Vx(vni), mtu);
        if s2.failed then s2 else SetMTU(s2, port, mtu)
  }

  function Configure(s: Session, port: string, vni: nat, mtu: nat): Session {
    var s1 := EnslaveVxlan(s, vni);
    if s1.failed then s1
    else
      var s2 := EnslavePort(s1, port, vni);
      if s2.failed then s2 else SetMTUs(s2, port, vni, mtu)
  }

  function RemoveLink(s: Session, name: string): Session {
    var s1 := Call(s, s.net);
    if s1.failed || name !in s1.net.links then s1
    else
      match s1.net.links[name].kind
      case Vlan => Delete(s1, name)
      case Vxlan(_) => Delete(s1, name)
      case Tuntap => Delete(s1, name)
      case _ => Fail(s1)
  }

  predicate Belongs(n: Net, name: string, bridge: string) {
    name in n.links && n.links[name].master == Some(bridge)
  }

  /** Some link other than the vxlan device is a port of the bridge of this network. */
  predicate HasPort(n: Net, vni: nat) {
    exists name :: name in n.links && name != Vx(vni) && Belongs(n, name, Xbr(vni))
  }

  function Deconfigure(s: Session, port: string, vni: nat): Session {
    var s1 := RemoveLink(s, port);
    if s1.failed then s1
    else
      var s2 := Call(s1, s1.net);
      if s2.failed then s2
      else if Xbr(vni) !in s2.net.links then RemoveLink(s2, Vx(vni))
      else
        var s3 := Call(s2, s2.net);
        if s3.failed || HasPort(s3.net, vni) then s3
        else
          var s4 := RemoveLink(s3, Vx(vni));
          if s4.failed then s4 else Delete(s4, Xbr(vni))
  }

  // ---------------------------------------------------------------------------
  // The operations as they are carried out

  method CreateBridgeIfNotExist(k: Handle, name: string) returns (ok: bool)
    modifies k
    ensures k.Now(!ok) == CreateBridge(old(k.Now(false)), name)
  {
    var l := k.LinkByName(name);
    match l
    case Error => return false;
    case Found(link) =>
      if !link.kind.Bridge? { return false; }
      ok := k.LinkSetUp(name);
    case NotFound =>
      ok := k.LinkAdd(name, Bridge);
      if !ok { return; }
      ok := k.LinkSetUp(name);
  }

  method CreateVxlanIfNotExist(k: Handle, name: string, vni: nat) returns (ok: bool)
    modifies k
    ensures k.Now(!ok) == CreateVxlan(old(k.Now(false)), name, vni)
  {
    var l := k.LinkByName(name);
    match l
    case Error => return false;
    case Found(link) =>
      if link.kind != Vxlan(vni) { return false; }
      ok := k.LinkSetUp(name);
    case NotFound =>
      ok := k.LinkAdd(name, Vxlan(vni));
      if !ok { return; }
      ok := k.LinkSetUp(name);
  }

  method VxlanPortConfigure(k: Handle, port: string, vni: nat, mtu: nat, secondStage: bool) returns (ok: bool)
    modifies k
    ensures secondStage ==> ok && k.Now(!ok) == old(k.Now(false))
    ensures !secondStage ==> k.Now(!ok) == Configure(old(k.Now(false)), port, vni, mtu)
  {
    if secondStage { return true; }
    ok := CreateBridgeIfNotExist(k, Xbr(vni));
    if !ok { return; }
    ok := CreateVxlanIfNotExist(k, Vx(vni), vni);
    if !ok { return; }
    ok := k.LinkSetMaster(Vx(vni), Xbr(vni));
    if !ok { return; }
    var l := k.LinkByName(port);
    if !l.Found? { return false; }
    ok := k.LinkSetMaster(port, Xbr(vni));
    if !ok { return; }
    ok := k.LinkSetUp(port);
    if !ok { return; }
    if mtu >= 68 {
      ok := k.LinkSetMTU(Xbr(vni), mtu);
      if !ok { return; }
      ok := k.LinkSetMTU(Vx(vni), mtu);
      if !ok { return; }
      ok := k.LinkSetMTU(port, mtu);
    }
  }

  method RemoveLinkIfExist(k: Handle, name: string) returns (ok: bool)
    modifies k
    ensures k.Now(!ok) == RemoveLink(old(k.Now(false)), name)
  {
    var l := k.LinkByName(name);
    match l
    case Error => return false;
    case NotFound => return true;
    case Found(link) =>
      if !(link.kind.Vlan? || link.kind.Vxlan? || link.kind.Tuntap?) { return false; }
      ok := k.LinkDel(name);
  }

  method VxlanPortDeconfigure(k: Handle, port: string, vni: nat) returns (ok: bool)
    modifies k
    ensures k.Now(!ok) == Deconfigure(old(k.Now(false)), port, vni)
  {
    ok := RemoveLinkIfExist(k, port);
    if !ok { return; }
    var l := k.LinkByName(Xbr(vni));
    match l
    case Error => return false;
    case NotFound =>
      ok := RemoveLinkIfExist(k, Vx(vni));
    case Found(br) =>
      if k.budget == 0 { return false; }
      k.budget := k.budget - 1;          // LinkList
      var rest := k.net.links.Keys;
      while rest != {}
        invariant rest <= k.net.links.Keys
        invariant forall name :: name in k.net.links && name != Vx(vni) && Belongs(k.net, name, Xbr(vni)) ==>
                    name in rest
      {
        var name :| name in rest;
        if k.net.links[name].master == Some(Xbr(vni)) && name != Vx(vni) {
          return true;
        }
        rest := rest - {name};
      }
      ok := RemoveLinkIfExist(k, Vx(vni));
      if !ok { return; }
      ok := k.LinkDel(Xbr(vni));
  }
}
