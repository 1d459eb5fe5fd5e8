/** What configuring and deconfiguring a VXLAN port come to, and when they succeed. */
module VxlanResults {
  import opened Wrappers
  import opened Netlink
  import opened VxlanPort
  import opened VxlanTheorems

  // ---------------------------------------------------------------------------
  // Configuring

  function BridgeUp(n: Net, v: nat): Link {
    if Xbr(v) in n.links then n.links[Xbr(v)].(up := true) else Link(Bridge, None, true, 1500)
  }

  function VxlanUp(n: Net, v: nat): Link {
    (if Vx(v) in n.links then n.links[Vx(v)] else Link(Vxlan(v), None, false, 1500)).(
      up := true,
      master := Some(Xbr(v)))
  }

  function PortUp(n: Net, port: string, v: nat): Link
    requires port in n.links
  {
    n.links[port].(up := true, master := Some(Xbr(v)))
  }

  function Sized(l: Link, mtu: nat): Link {
    if mtu >= 68 then l.(mtu := mtu) else l
  }

  /** All three links are up, the port and the vxlan device are in the bridge, and they have
      the MTU asked for if it is a possible one. */
  function Configured(n: Net, port: string, v: nat, mtu: nat): Net
    requires port in n.links
  {
    Net(n.links[Xbr(v) := Sized(BridgeUp(n, v), mtu)]
               [Vx(v) := Sized(VxlanUp(n, v), mtu)]
               [port := Sized(PortUp(n, port, v), mtu)])
  }

  /** The devices that are there are of the right kinds. */
  predicate DevicesFit(n: Net, v: nat) {
    && (Xbr(v) in n.links ==> n.links[Xbr(v)].kind.Bridge?)
    && (Vx(v) in n.links ==> n.links[Vx(v)].kind == Vxlan(v))
  }

  predicate Fits(n: Net, port: string, v: nat) {
    port in n.links && !n.links[port].kind.Bridge? && DevicesFit(n, v)
  }

  lemma BridgeResult(s: Session, v: nat)
    requires !s.failed
    ensures var r := CreateBridge(s, Xbr(v));
            && (!r.failed ==>
                  && (Xbr(v) in s.net.links ==> s.net.links[Xbr(v)].kind.Bridge?)
                  && r.net.links == s.net.links[Xbr(v) := BridgeUp(s.net, v)] && r.budget + 3 >= s.budget)
            && (s.budget >= 3 && (Xbr(v) in s.net.links ==> s.net.links[Xbr(v)].kind.Bridge?) ==> !r.failed)
  {
  }

  lemma VxlanResult(s: Session, v: nat)
    requires !s.failed
    ensures var r := CreateVxlan(s, Vx(v), v);
            && (!r.failed ==>
                  && (Vx(v) in s.net.links ==> s.net.links[Vx(v)].kind == Vxlan(v))
                  && r.net.links == s.net.links[Vx(v) := VxlanUp(s.net, v).(
                       master := if Vx(v) in s.net.links then s.net.links[Vx(v)].master else None)]
                  && r.budget + 3 >= s.budget)
            && (s.budget >= 3 && (Vx(v) in s.net.links ==> s.net.links[Vx(v)].kind == Vxlan(v)) ==> !r.failed)
  {
  }

  lemma DevicesResult(s: Session, v: nat)
    requires !s.failed
    ensures var r := EnslaveVxlan(s, v); var n := s.net;
            && (!r.failed ==>
                  && DevicesFit(n, v)
                  && r.net.links == n.links[Xbr(v) := BridgeUp(n, v)][Vx(v) := VxlanUp(n, v)]
                  && r.budget + 7 >= s.budget)
            && (s.budget >= 7 && DevicesFit(n, v) ==> !r.failed)
  {
    NamesDiffer(v, v);
    BridgeResult(s, v);
    var s1 := CreateBridge(s, Xbr(v));
    if !s1.failed {
      VxlanResult(s1, v);
      var s2 := CreateVxlan(s1, Vx(v), v);
      if !s2.failed {
        assert SetMaster(s2, Vx(v), Xbr(v)).failed <==> s2.budget == 0;
      }
    }
  }

  lemma PortResult(s: Session, port: string, v: nat)
    requires !s.failed && Xbr(v) in s.net.links && s.net.links[Xbr(v)].kind.Bridge?
    ensures var r := EnslavePort(s, port, v);
            && (!r.failed ==>
                  && port in s.net.links && !s.net.links[port].kind.Bridge?
                  && r.net.links == s.net.links[port := PortUp(s.net, port, v)] && r.budget + 3 >= s.budget)
            && (s.budget >= 3 && port in s.net.links && !s.net.links[port].kind.Bridge? ==> !r.failed)
  {
  }

  lemma MTUResult(s: Session, port: string, v: nat, mtu: nat)
    requires !s.failed && port in s.net.links && Xbr(v) in s.net.links && Vx(v) in s.net.links
    requires port != Xbr(v) && port != Vx(v) && Xbr(v) != Vx(v)
    ensures var r := SetMTUs(s, port, v, mtu); var l := s.net.links;
            && (!r.failed ==>
                  r.net.links
                  == l[Xbr(v) := Sized(l[Xbr(v)], mtu)][Vx(v) := Sized(l[Vx(v)], mtu)][port := Sized(l[port], mtu)])
            && (s.budget >= 3 ==> !r.failed)
  {
  }

  /** Configuring succeeds, given thirteen calls that do, exactly if the devices fit, and then
      comes to what is described. */
  lemma ConfigureResult(s: Session, port: string, v: nat, mtu: nat)
    requires !s.failed && IsPortName(port)
    ensures var r := Configure(s, port, v, mtu);
            && (!r.failed ==> Fits(s.net, port, v) && r.net == Configured(s.net, port, v, mtu))
            && (s.budget >= 13 && Fits(s.net, port, v) ==> !r.failed)
  {
    NamesDiffer(v, v);
    DevicesResult(s, v);
    var s1 := EnslaveVxlan(s, v);
    if !s1.failed {
      BridgeIsThere(s.net, s1.net, v);
      PortResult(s1, port, v);
      var s2 := EnslavePort(s1, port, v);
      if !s2.failed {
        MTUResult(s2, port, v, mtu);
        SameLinks(s.net, port, v, mtu, s1.net, s2.net);
      }
    }
  }

  lemma BridgeIsThere(n: Net, n1: Net, v: nat)
    requires Xbr(v) != Vx(v) && (Xbr(v) in n.links ==> n.links[Xbr(v)].kind.Bridge?)
    requires n1.links == n.links[Xbr(v) := BridgeUp(n, v)][Vx(v) := VxlanUp(n, v)]
    ensures Xbr(v) in n1.links && n1.links[Xbr(v)].kind.Bridge?
  {
  }

  lemma SameLinks(n: Net, port: string, v: nat, mtu: nat, n1: Net, n2: Net)
    requires port in n.links && port != Xbr(v) && port != Vx(v) && Xbr(v) != Vx(v)
    requires n1.links == n.links[Xbr(v) := BridgeUp(n, v)][Vx(v) := VxlanUp(n, v)]
    requires n2.links == n1.links[port := PortUp(n1, port, v)]
    ensures var l := n2.links;
            l[Xbr(v) := Sized(l[Xbr(v)], mtu)][Vx(v) := Sized(l[Vx(v)], mtu)][port := Sized(l[port], mtu)]
            == Configured(n, port, v, mtu).links
  {
  }

  /** In particular the three links are up, in the bridge, and of the MTU asked for. */
  lemma ConfiguredIsUp(s: Session, port: string, v: nat, mtu: nat)
    requires !s.failed && IsPortName(port) && !Configure(s, port, v, mtu).failed
    ensures var n := Configure(s, port, v, mtu).net;
            && port in n.links && Xbr(v) in n.links && Vx(v) in n.links
            && n.links[port].up && n.links[Xbr(v)].up && n.links[Vx(v)].up
            && n.links[port].master == Some(Xbr(v)) && n.links[Vx(v)].master == Some(Xbr(v))
            && (mtu >= 68 ==> n.links[port].mtu == n.links[Xbr(v)].mtu == n.links[Vx(v)].mtu == mtu)
            && (mtu < 68 ==> forall a :: a in s.net.links ==> a in n.links && n.links[a].mtu == s.net.links[a].mtu)
            && forall a :: a in s.net.links ==> a in n.links && n.links[a].kind == s.net.links[a].kind
  {
    NamesDiffer(v, v);
    ConfigureResult(s, port, v, mtu);
  }

  // ---------------------------------------------------------------------------
  // Deconfiguring

  function Gone(n: Net, name: string): Net {
    if name in n.links then Without(n, name) else n
  }

  /** Vlan, vxlan and tap devices may be removed, and nothing need be done for a missing one. */
  predicate IsRemovable(n: Net, name: string) {
    name in n.links ==> n.links[name].kind == Vlan || n.links[name].kind == Tuntap || n.links[name].kind.Vxlan?
  }

  lemma RemoveResult(s: Session, name: string)
    requires !s.failed
    ensures var r := RemoveLink(s, name);
            && (!r.failed ==> IsRemovable(s.net, name) && r.net == Gone(s.net, name) && r.budget + 2 >= s.budget)
            && (s.budget >= 2 && IsRemovable(s.net, name) ==> !r.failed)
  {
  }

  /** The port is gone; and with the last port of the network its devices. */
  function Deconfigured(n: Net, port: string, v: nat): Net {
    var n1 := Gone(n, port);
    if Xbr(v) in n1.links && HasPort(n1, v) then n1 else Gone(Gone(n1, Vx(v)), Xbr(v))
  }

  /** Deconfiguring succeeds, given seven calls that do, exactly if the port can be removed
      and, when it was the last one, the vxlan device can. */
  lemma DeconfigureResult(s: Session, port: string, v: nat)
    requires !s.failed && IsPortName(port)
    ensures var r := Deconfigure(s, port, v); var n1 := Gone(s.net, port);
            var fits := IsRemovable(s.net, port) && ((Xbr(v) in n1.links && HasPort(n1, v)) || IsRemovable(n1, Vx(v)));
            && (!r.failed ==> fits && r.net == Deconfigured(s.net, port, v))
            && (s.budget >= 7 && fits ==> !r.failed)
  {
    NamesDiffer(v, v);
    RemoveResult(s, port);
    var s1 := RemoveLink(s, port);
    if !s1.failed {
      var s2 := Call(s1, s1.net);
      var s3 := Call(s2, s2.net);
      if !s2.failed && Xbr(v) !in s2.net.links {
        RemoveResult(s2, Vx(v));
        assert Xbr(v) !in Gone(s2.net, Vx(v)).links;
      } else if !s3.failed && !HasPort(s3.net, v) {
        RemoveResult(s3, Vx(v));
        assert Xbr(v) in Gone(s3.net, Vx(v)).links;
      }
    }
  }
}
