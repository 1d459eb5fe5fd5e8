/**
 The kernel's table of network links and the netlink calls made on it. Any call may fail;
 since every caller gives up at the first failure, how many calls still succeed (`budget`)
 says all there is to say about failures.
 */
module Netlink {
  import opened Wrappers

  datatype Kind = Bridge | Vxlan(vni: nat) | Vlan | Tuntap | Other

  /** `master` is the bridge the link belongs to. The kernel refers to it by its index, which
      is unique among the links that exist, just as its name is. */
  datatype Link = Link(kind: Kind, master: Option<string>, up: bool, mtu: nat)

  datatype Net = Net(links: map<string, Link>)

  /** The link table during a sequence of calls. */
  datatype Session = Session(net: Net, budget: nat, failed: bool)

  /** No link belongs to a bridge that is gone. */
  ghost predicate NetOk(n: Net) {
    forall a :: a in n.links && n.links[a].master.Some? ==> IsMaster(n, n.links[a].master.value)
  }

  predicate IsMaster(n: Net, name: string) {
    name in n.links && (n.links[name].kind.Bridge? || n.links[name].kind.Other?)
  }

  function Fail(s: Session): Session {
    s.(failed := true)
  }

  /** One netlink call whose effect on the table would be `net`. */
  function Call(s: Session, net: Net): Session {
    if s.failed then s
    else if s.budget == 0 then Fail(s)
    else Session(net, s.budget - 1, false)
  }

  function Update(n: Net, name: string, l: Link): Net {
    n.(links := n.links[name := l])
  }

  function Add(s: Session, name: string, kind: Kind): Session {
    if name in s.net.links then Fail(s)
    else
      Call(s, Update(s.net, name, Link(kind, None, false, 1500)))
  }

  function SetUp(s: Session, name: string): Session {
    if name !in s.net.links then Fail(s)
    else Call(s, Update(s.net, name, s.net.links[name].(up := true)))
  }

  function SetMTU(s: Session, name: string, mtu: nat): Session {
    if name !in s.net.links then Fail(s)
    else Call(s, Update(s.net, name, s.net.links[name].(mtu := mtu)))
  }

  /** Only a bridge can be made a master here, and a bridge cannot become the port of one. */
  predicate CanEnslave(n: Net, name: string, bridge: string) {
    name in n.links && bridge in n.links && n.links[bridge].kind.Bridge? && !n.links[name].kind.Bridge?
  }

  function SetMaster(s: Session, name: string, bridge: string): Session {
    if !CanEnslave(s.net, name, bridge) then Fail(s)
    else Call(s, Update(s.net, name, s.net.links[name].(master := Some(bridge))))
  }

  /** A deleted link no longer has ports. */
  function Without(n: Net, name: string): Net {
    Net(map a | a in n.links && a != name ::
          if n.links[a].master == Some(name) then n.links[a].(master := None) else n.links[a])
  }

  function Delete(s: Session, name: string): Session {
    if name !in s.net.links then Fail(s) else Call(s, Without(s.net, name))
  }

  // ---------------------------------------------------------------------------
  // Every call keeps the table in order

  lemma AddKeepsOk(s: Session, name: string, kind: Kind)
    requires NetOk(s.net)
    ensures NetOk(Add(s, name, kind).net)
  {
  }

  lemma SetMasterKeepsOk(s: Session, name: string, bridge: string)
    requires NetOk(s.net)
    ensures NetOk(SetMaster(s, name, bridge).net)
  {
  }

  lemma DeleteKeepsOk(s: Session, name: string)
    requires NetOk(s.net)
    ensures NetOk(Delete(s, name).net)
  {
  }

  datatype Lookup = Found(link: Link) | NotFound | Error

  class Handle {
    var net: Net
    var budget: nat

    constructor (net: Net, budget: nat)
      ensures this.net == net && this.budget == budget
    {
      this.net, this.budget := net, budget;
    }

    ghost function Now(failed: bool): Session
      reads this
    {
      Session(net, budget, failed)
    }

    method LinkByName(name: string) returns (r: Lookup)
      modifies this`budget
      ensures Now(r.Error?) == Call(old(Now(false)), net)
      ensures !r.Error? ==> r == (if name in net.links then Found(net.links[name]) else NotFound)
    {
      if budget == 0 { return Error; }
      budget := budget - 1;
      r := if name in net.links then Found(net.links[name]) else NotFound;
    }

    method LinkAdd(name: string, kind: Kind) returns (ok: bool)
      modifies this
      ensures Now(!ok) == Add(old(Now(false)), name, kind)
    {
      if name in net.links || budget == 0 { return false; }
      budget := budget - 1;
      net := Update(net, name, Link(kind, None, false, 1500));
      ok := true;
    }

    method LinkSetUp(name: string) returns (ok: bool)
      modifies this
      ensures Now(!ok) == SetUp(old(Now(false)), name)
    {
      if name !in net.links || budget == 0 { return false; }
      budget := budget - 1;
      net := Update(net, name, net.links[name].(up := true));
      ok := true;
    }

    method LinkSetMTU(name: string, mtu: nat) returns (ok: bool)
      modifies this
      ensures Now(!ok) == SetMTU(old(Now(false)), name, mtu)
    {
      if name !in net.links || budget == 0 { return false; }
      budget := budget - 1;
      net := Update(net, name, net.links[name].(mtu := mtu));
      ok := true;
    }

    method LinkSetMaster(name: string, bridge: string) returns (ok: bool)
      modifies this
      ensures Now(!ok) == SetMaster(old(Now(false)), name, bridge)
    {
      if !CanEnslave(net, name, bridge) || budget == 0 { return false; }
      budget := budget - 1;
      net := Update(net, name, net.links[name].(master := Some(bridge)));
      ok := true;
    }

    method LinkDel(name: string) returns (ok: bool)
      modifies this
      ensures Now(!ok) == Delete(old(Now(false)), name)
    {
      if name !in net.links || budget == 0 { return false; }
      budget := budget - 1;
      net := Without(net, name);
      ok := true;
    }
  }
}
