/** What VXLAN ports keep over any runs, failures included. */
module VxlanTheorems {
  import opened Wrappers
  import opened Netlink
  import opened VxlanPort
  import Decimal

  /** Ports are not named like the devices kept for them. */
  ghost predicate IsPortName(port: string) {
    forall v :: port != Xbr(v) && port != Vx(v)
  }

  lemma NamesDiffer(v: nat, w: nat)
    ensures Xbr(v) != Vx(w)
    ensures v != w ==> Xbr(v) != Xbr(w) && Vx(v) != Vx(w)
  {
    assert Xbr(v)[0] == 'x' && Vx(w)[0] == 'v';
    if Xbr(v) == Xbr(w) || Vx(v) == Vx(w) {
      assert Xbr(v)[4..] == Decimal.Render(v) && Xbr(w)[4..] == Decimal.Render(w);
      assert Vx(v)[6..] == Decimal.Render(v) && Vx(w)[6..] == Decimal.Render(w);
      Decimal.RenderInjective(v, w);
    }
  }

  /** Nothing outside `names` has changed. */
  ghost predicate Untouched(n: Net, n': Net, names: set<string>) {
    forall a :: a !in names ==> (a in n.links <==> a in n'.links) && (a in n.links ==> n.links[a] == n'.links[a])
  }

  lemma UntouchedTrans(n: Net, n1: Net, n2: Net, names: set<string>, names1: set<string>)
    requires Untouched(n, n1, names) && Untouched(n1, n2, names1)
    ensures Untouched(n, n2, names + names1)
  {
  }

  /** Only `name` may have changed; it keeps its master, or is new and has none. */
  ghost predicate Refreshed(n: Net, n': Net, name: string) {
    && Untouched(n, n', {name})
    && (name in n.links ==> name in n'.links && n'.links[name].master == n.links[name].master
                            && n'.links[name].kind == n.links[name].kind)
    && (name !in n.links && name in n'.links ==> n'.links[name].master == None)
  }

  lemma CreateBridgeFacts(s: Session, name: string)
    requires NetOk(s.net) && !s.failed
    ensures var r := CreateBridge(s, name);
            && NetOk(r.net) && Refreshed(s.net, r.net, name)
            && (!r.failed ==> name in r.net.links && r.net.links[name].kind == Bridge)
  {
    AddKeepsOk(Call(s, s.net), name, Bridge);
  }

  lemma CreateVxlanFacts(s: Session, name: string, v: nat)
    requires NetOk(s.net) && !s.failed
    ensures var r := CreateVxlan(s, name, v);
            && NetOk(r.net) && Refreshed(s.net, r.net, name)
            && (!r.failed ==> name in r.net.links && r.net.links[name].kind == Vxlan(v))
  {
    AddKeepsOk(Call(s, s.net), name, Vxlan(v));
  }

  // ---------------------------------------------------------------------------
  // Ports imply a working vxlan device, at every point where a call may fail

  ghost predicate SafeAt(n: Net, v: nat) {
    HasPort(n, v) ==> Belongs(n, Vx(v), Xbr(v))
  }

  /** Links whose masters are as before leave every network as safe as it was. */
  lemma RefreshedStaysSafe(n: Net, n': Net, name: string, v: nat)
    requires NetOk(n) && NetOk(n') && Refreshed(n, n', name) && SafeAt(n, v)
    ensures SafeAt(n', v)
  {
    if HasPort(n', v) {
      var a :| a in n'.links && a != Vx(v) && Belongs(n', a, Xbr(v));
      assert Belongs(n, a, Xbr(v));
    }
  }

  /** Handing the vxlan device, or then a port, to the bridge of `v`. */
  lemma MasterStaysSafe(s: Session, name: string, v: nat, w: nat)
    requires NetOk(s.net) && SafeAt(s.net, w)
    requires name == Vx(v) || (IsPortName(name) && Belongs(s.net, Vx(v), Xbr(v)))
    ensures SafeAt(SetMaster(s, name, Xbr(v)).net, w)
  {
    NamesDiffer(v, w);
    NamesDiffer(w, v);
    NamesDiffer(v, v);
    var n, n' := s.net, SetMaster(s, name, Xbr(v)).net;
    if HasPort(n', w) && v != w {
      var a :| a in n'.links && a != Vx(w) && Belongs(n', a, Xbr(w));
      assert a == name ==> n' == n;
      assert Belongs(n, a, Xbr(w));
    }
  }

  lemma EnslaveVxlanFacts(s: Session, v: nat)
    requires NetOk(s.net) && !s.failed
    ensures var r := EnslaveVxlan(s, v);
            && NetOk(r.net) && Untouched(s.net, r.net, {Xbr(v), Vx(v)})
            && (!r.failed ==>
                  && Belongs(r.net, Vx(v), Xbr(v)) && r.net.links[Xbr(v)].kind == Bridge
                  && r.net.links[Vx(v)].kind == Vxlan(v))
  {
    NamesDiffer(v, v);
    var s1 := CreateBridge(s, Xbr(v));
    CreateBridgeFacts(s, Xbr(v));
    if !s1.failed {
      var s2 := CreateVxlan(s1, Vx(v), v);
      CreateVxlanFacts(s1, Vx(v), v);
      UntouchedTrans(s.net, s1.net, s2.net, {Xbr(v)}, {Vx(v)});
      if !s2.failed {
        SetMasterKeepsOk(s2, Vx(v), Xbr(v));
      }
    }
  }

  /** The bridge of this network has no other ports than before; for other networks nothing
      changes at all. */
  lemma EnslaveVxlanStaysSafe(s: Session, v: nat, w: nat)
    requires NetOk(s.net) && !s.failed && SafeAt(s.net, w)
    ensures SafeAt(EnslaveVxlan(s, v).net, w)
  {
    NamesDiffer(v, v);
    NamesDiffer(v, w);
    NamesDiffer(w, v);
    var s1 := CreateBridge(s, Xbr(v));
    CreateBridgeFacts(s, Xbr(v));
    RefreshedStaysSafe(s.net, s1.net, Xbr(v), w);
    if !s1.failed {
      var s2 := CreateVxlan(s1, Vx(v), v);
      CreateVxlanFacts(s1, Vx(v), v);
      RefreshedStaysSafe(s1.net, s2.net, Vx(v), w);
      if !s2.failed {
        SetMasterKeepsOk(s2, Vx(v), Xbr(v));
        MasterStaysSafe(s2, Vx(v), v, w);
      }
    }
  }

  lemma EnslavePortFacts(s: Session, port: string, v: nat)
    requires NetOk(s.net) && !s.failed && IsPortName(port)
    requires Belongs(s.net, Vx(v), Xbr(v)) && s.net.links[Xbr(v)].kind == Bridge
    ensures var r := EnslavePort(s, port, v);
            && NetOk(r.net) && Untouched(s.net, r.net, {port})
            && (forall w :: SafeAt(s.net, w) ==> SafeAt(r.net, w))
            && (!r.failed ==> Belongs(r.net, port, Xbr(v)))
  {
    var s1 := Call(s, s.net);
    var s2 := SetMaster(s1, port, Xbr(v));
    SetMasterKeepsOk(s1, port, Xbr(v));
    forall w | SafeAt(s.net, w) ensures SafeAt(EnslavePort(s, port, v).net, w) {
      MasterStaysSafe(s1, port, v, w);
      RefreshedStaysSafe(s2.net, SetUp(s2, port).net, port, w);
    }
  }

  /** Changing MTUs changes no master and no kind. */
  ghost predicate SameShape(n: Net, n': Net) {
    && n.links.Keys == n'.links.Keys
    && forall a :: a in n.links ==>
         (n'.links[a].master == n.links[a].master && n'.links[a].kind == n.links[a].kind)
  }

  lemma SetMTUFacts(s: Session, name: string, mtu: nat)
    ensures SameShape(s.net, SetMTU(s, name, mtu).net) && Untouched(s.net, SetMTU(s, name, mtu).net, {name})
  {
  }

  lemma SetMTUsFacts(s: Session, port: string, v: nat, mtu: nat)
    ensures var r := SetMTUs(s, port, v, mtu);
            SameShape(s.net, r.net) && Untouched(s.net, r.net, {port, Xbr(v), Vx(v)})
  {
    if mtu >= 68 {
      var s1 := SetMTU(s, Xbr(v), mtu);
      SetMTUFacts(s, Xbr(v), mtu);
      var s2 := SetMTU(s1, Vx(v), mtu);
      SetMTUFacts(s1, Vx(v), mtu);
      SetMTUFacts(s2, port, mtu);
    }
  }

  lemma SameShapeSameFacts(n: Net, n': Net, v: nat)
    requires SameShape(n, n')
    ensures NetOk(n) ==> NetOk(n')
    ensures HasPort(n, v) <==> HasPort(n', v)
    ensures forall a, b :: Belongs(n, a, b) <==> Belongs(n', a, b)
  {
  }

  /** Configuring a port touches only the port and the two devices of its network. */
  lemma ConfigureTouchesOnly(s: Session, port: string, v: nat, mtu: nat)
    requires NetOk(s.net) && !s.failed && IsPortName(port)
    ensures Untouched(s.net, Configure(s, port, v, mtu).net, {port, Xbr(v), Vx(v)})
  {
    var s1 := EnslaveVxlan(s, v);
    EnslaveVxlanFacts(s, v);
    if !s1.failed {
      var s2 := EnslavePort(s1, port, v);
      EnslavePortFacts(s1, port, v);
      UntouchedTrans(s.net, s1.net, s2.net, {Xbr(v), Vx(v)}, {port});
      SetMTUsFacts(s2, port, v, mtu);
      UntouchedTrans(s.net, s2.net, SetMTUs(s2, port, v, mtu).net, {Xbr(v), Vx(v)} + {port}, {port, Xbr(v), Vx(v)});
    }
  }

  /** Whatever call fails, every network stays safe. */
  lemma ConfigureStaysSafe(s: Session, port: string, v: nat, mtu: nat, w: nat)
    requires NetOk(s.net) && SafeAt(s.net, w) && !s.failed && IsPortName(port)
    ensures NetOk(Configure(s, port, v, mtu).net) && SafeAt(Configure(s, port, v, mtu).net, w)
  {
    var s1 := EnslaveVxlan(s, v);
    EnslaveVxlanFacts(s, v);
    EnslaveVxlanStaysSafe(s, v, w);
    if !s1.failed {
      var s2 := EnslavePort(s1, port, v);
      EnslavePortFacts(s1, port, v);
      SetMTUsFacts(s2, port, v, mtu);
      SameShapeSameFacts(s2.net, SetMTUs(s2, port, v, mtu).net, w);
    }
  }

  /** When no call fails, the port and the vxlan device are in the bridge of the network. */
  lemma ConfigureConnects(s: Session, port: string, v: nat, mtu: nat)
    requires NetOk(s.net) && !s.failed && IsPortName(port) && !Configure(s, port, v, mtu).failed
    ensures var n := Configure(s, port, v, mtu).net;
            Belongs(n, port, Xbr(v)) && Belongs(n, Vx(v), Xbr(v)) && Xbr(v) in n.links
  {
    var s1 := EnslaveVxlan(s, v);
    EnslaveVxlanFacts(s, v);
    var s2 := EnslavePort(s1, port, v);
    EnslavePortFacts(s1, port, v);
    SetMTUsFacts(s2, port, v, mtu);
    SameShapeSameFacts(s2.net, SetMTUs(s2, port, v, mtu).net, v);
  }

  // ---------------------------------------------------------------------------
  // Deconfiguring

  lemma DeleteFacts(n: Net, name: string)
    requires NetOk(n) && name in n.links
    ensures NetOk(Without(n, name)) && name !in Without(n, name).links
    ensures (forall a :: !Belongs(n, a, name)) ==> Untouched(n, Without(n, name), {name})
  {
    DeleteKeepsOk(Session(n, 1, false), name);
    if forall a :: !Belongs(n, a, name) {
      forall a | a in n.links && a != name ensures Without(n, name).links[a] == n.links[a] {
        assert !Belongs(n, a, name);
      }
    }
  }

  lemma OnlyMastersHavePorts(n: Net, name: string)
    requires NetOk(n) && !IsMaster(n, name)
    ensures forall a :: !Belongs(n, a, name)
  {
    forall a ensures !Belongs(n, a, name) {
      assert a in n.links && n.links[a].master.Some? ==> IsMaster(n, n.links[a].master.value);
    }
  }

  /** A vlan, vxlan or tap device has no ports, so removing it disturbs nobody. */
  lemma RemoveFacts(s: Session, name: string)
    requires NetOk(s.net) && !s.failed
    ensures var r := RemoveLink(s, name);
            NetOk(r.net) && Untouched(s.net, r.net, {name}) && (!r.failed ==> name !in r.net.links)
  {
    if name in s.net.links && !s.net.links[name].kind.Bridge? && !s.net.links[name].kind.Other? {
      OnlyMastersHavePorts(s.net, name);
    }
    if name in s.net.links {
      DeleteFacts(s.net, name);
    }
  }

  /** Removing one link only takes ports away; the vxlan device goes only if it has none. */
  lemma RemoveStaysSafe(s: Session, name: string, w: nat)
    requires NetOk(s.net) && SafeAt(s.net, w) && !s.failed
    requires name != Vx(w) || !HasPort(s.net, w)
    ensures SafeAt(RemoveLink(s, name).net, w)
  {
    RemoveFacts(s, name);
    var n, n' := s.net, RemoveLink(s, name).net;
    if HasPort(n', w) {
      var a :| a in n'.links && a != Vx(w) && Belongs(n', a, Xbr(w));
      assert a == name ==> n' == n;
      assert Belongs(n, a, Xbr(w));
    }
  }

  /** The state of Deconfigure when it looks for other ports. */
  function AfterPort(s: Session, port: string): Session {
    var s1 := RemoveLink(s, port);
    Call(Call(s1, s1.net), s1.net)
  }

  lemma DeconfigureStaysSafe(s: Session, port: string, v: nat, w: nat)
    requires NetOk(s.net) && SafeAt(s.net, w) && !s.failed && IsPortName(port)
    ensures NetOk(Deconfigure(s, port, v).net) && SafeAt(Deconfigure(s, port, v).net, w)
  {
    NamesDiffer(v, w);
    var s1 := RemoveLink(s, port);
    RemoveFacts(s, port);
    RemoveStaysSafe(s, port, w);
    if !s1.failed {
      var s2 := Call(s1, s1.net);
      var s3 := Call(s2, s2.net);
      if !s2.failed && Xbr(v) !in s2.net.links {
        NoBridgeNoPort(s2.net, v);
        RemoveFacts(s2, Vx(v));
        RemoveStaysSafe(s2, Vx(v), w);
      } else if !s3.failed && !HasPort(s3.net, v) {
        RemoveFacts(s3, Vx(v));
        RemoveStaysSafe(s3, Vx(v), w);
        var s4 := RemoveLink(s3, Vx(v));
        if !s4.failed {
          DeleteFacts(s4.net, Xbr(v));
          LastBridgeStaysSafe(s4, v, w);
        }
      }
    }
  }

  lemma NoBridgeNoPort(n: Net, v: nat)
    requires NetOk(n) && Xbr(v) !in n.links
    ensures !HasPort(n, v)
  {
  }

  lemma LastBridgeStaysSafe(s: Session, v: nat, w: nat)
    requires NetOk(s.net) && SafeAt(s.net, w) && Vx(v) !in s.net.links && !HasPort(s.net, v) && Xbr(v) in s.net.links
    ensures SafeAt(Without(s.net, Xbr(v)), w)
    ensures Untouched(s.net, Without(s.net, Xbr(v)), {Xbr(v)})
  {
    NamesDiffer(v, w);
    NamesDiffer(w, v);
    var n, n' := s.net, Without(s.net, Xbr(v));
    assert forall a :: !Belongs(n, a, Xbr(v));
    DeleteFacts(n, Xbr(v));
    if HasPort(n', w) {
      var a :| a in n'.links && a != Vx(w) && Belongs(n', a, Xbr(w));
      assert Belongs(n, a, Xbr(w));
    }
  }

  /** Deconfiguring a port touches only the port and the two devices of its network. */
  lemma DeconfigureTouchesOnly(s: Session, port: string, v: nat)
    requires NetOk(s.net) && !s.failed
    ensures Untouched(s.net, Deconfigure(s, port, v).net, {port, Xbr(v), Vx(v)})
  {
    var s1 := RemoveLink(s, port);
    RemoveFacts(s, port);
    if !s1.failed {
      var s2 := Call(s1, s1.net);
      var s3 := Call(s2, s2.net);
      if !s2.failed && Xbr(v) !in s2.net.links {
        RemoveFacts(s2, Vx(v));
        UntouchedTrans(s.net, s2.net, RemoveLink(s2, Vx(v)).net, {port}, {Vx(v)});
      } else if !s3.failed && !HasPort(s3.net, v) {
        var s4 := RemoveLink(s3, Vx(v));
        RemoveFacts(s3, Vx(v));
        UntouchedTrans(s.net, s3.net, s4.net, {port}, {Vx(v)});
        if !s4.failed {
          LastBridgeGoesQuietly(s3, v);
          UntouchedTrans(s.net, s4.net, Without(s4.net, Xbr(v)), {port} + {Vx(v)}, {Xbr(v)});
        }
      }
    }
  }

  lemma LastBridgeGoesQuietly(s: Session, v: nat)
    requires NetOk(s.net) && !s.failed && !HasPort(s.net, v) && Xbr(v) in s.net.links && !RemoveLink(s, Vx(v)).failed
    ensures var n := RemoveLink(s, Vx(v)).net;
            NetOk(n) && Vx(v) !in n.links && Xbr(v) in n.links && Untouched(n, Without(n, Xbr(v)), {Xbr(v)})
  {
    NamesDiffer(v, v);
    RemoveFacts(s, Vx(v));
    var n := RemoveLink(s, Vx(v)).net;
    assert forall a :: Belongs(n, a, Xbr(v)) ==> Belongs(s.net, a, Xbr(v)) && a != Vx(v);
    DeleteFacts(n, Xbr(v));
  }

  /** A bridge with another port is never deleted, and neither is its vxlan device. */
  lemma BridgeInUseSurvives(s: Session, port: string, v: nat, other: string)
    requires NetOk(s.net) && !s.failed
    requires other != port && other != Vx(v) && Belongs(s.net, other, Xbr(v))
    ensures Untouched(s.net, Deconfigure(s, port, v).net, {port})
  {
    RemoveFacts(s, port);
    var s1 := RemoveLink(s, port);
    assert Belongs(s1.net, other, Xbr(v));
    assert IsMaster(s1.net, Xbr(v));
  }

  // ---------------------------------------------------------------------------
  // Devices exist exactly as long as they are needed

  /** The bridge exists, the vxlan device exists, and some port exists: all or none. */
  ghost predicate TidyAt(n: Net, v: nat) {
    && (Xbr(v) in n.links <==> HasPort(n, v))
    && (Vx(v) in n.links <==> HasPort(n, v))
  }

  /** A port that is in no other network. */
  ghost predicate NotElsewhere(n: Net, port: string, v: nat) {
    forall w :: w != v ==> !Belongs(n, port, Xbr(w))
  }

  /** Once a port has been configured without error, its network is tidy, whatever earlier
      failures left behind. */
  lemma ConfigureTidies(s: Session, port: string, v: nat, mtu: nat)
    requires NetOk(s.net) && !s.failed && IsPortName(port) && !Configure(s, port, v, mtu).failed
    ensures TidyAt(Configure(s, port, v, mtu).net, v)
  {
    ConfigureConnects(s, port, v, mtu);
  }

  /** The same after a port has been deconfigured without error. */
  lemma DeconfigureTidies(s: Session, port: string, v: nat)
    requires NetOk(s.net) && SafeAt(s.net, v) && !s.failed && IsPortName(port) && !Deconfigure(s, port, v).failed
    ensures TidyAt(Deconfigure(s, port, v).net, v)
    ensures port !in Deconfigure(s, port, v).net.links
  {
    NamesDiffer(v, v);
    var s1 := RemoveLink(s, port);
    RemoveFacts(s, port);
    RemoveStaysSafe(s, port, v);
    var s2 := Call(s1, s1.net);
    var s3 := Call(s2, s2.net);
    if Xbr(v) !in s2.net.links {
      RemoveFacts(s2, Vx(v));
      NoBridgeNoPort(RemoveLink(s2, Vx(v)).net, v);
    } else if HasPort(s3.net, v) {
      assert Belongs(s3.net, Vx(v), Xbr(v));
    } else {
      RemoveFacts(s3, Vx(v));
      LastBridgeGoesQuietly(s3, v);
      var n := RemoveLink(s3, Vx(v)).net;
      DeleteFacts(n, Xbr(v));
      NoBridgeNoPort(Without(n, Xbr(v)), v);
    }
  }

  /** Changes that avoid a network's devices and ports leave it as tidy as it was. */
  lemma UntouchedStaysTidy(n: Net, n': Net, port: string, v: nat, w: nat)
    requires Untouched(n, n', {port, Xbr(v), Vx(v)}) && v != w && IsPortName(port) && TidyAt(n, w) && SafeAt(n, w)
    requires !Belongs(n, port, Xbr(w)) && !Belongs(n', port, Xbr(w))
    requires !Belongs(n', Xbr(v), Xbr(w)) && !Belongs(n', Vx(v), Xbr(w))
    requires !Belongs(n, Xbr(v), Xbr(w)) && !Belongs(n, Vx(v), Xbr(w))
    ensures TidyAt(n', w)
  {
    NamesDiffer(v, w);
    NamesDiffer(w, v);
    if HasPort(n, w) {
      var a :| a in n.links && a != Vx(w) && Belongs(n, a, Xbr(w));
      assert a in n'.links && Belongs(n', a, Xbr(w));
    }
    if HasPort(n', w) {
      var a :| a in n'.links && a != Vx(w) && Belongs(n', a, Xbr(w));
      assert a in n.links && Belongs(n, a, Xbr(w));
    }
  }

  /** The devices of a network are in no bridge but their own. */
  ghost predicate OwnedAt(n: Net, v: nat) {
    && (Xbr(v) in n.links ==> n.links[Xbr(v)].master == None)
    && (Vx(v) in n.links ==> n.links[Vx(v)].master == None || n.links[Vx(v)].master == Some(Xbr(v)))
  }

  lemma EnslaveVxlanOwned(s: Session, v: nat)
    requires NetOk(s.net) && OwnedAt(s.net, v) && !s.failed
    ensures OwnedAt(EnslaveVxlan(s, v).net, v)
  {
    NamesDiffer(v, v);
    var s1 := CreateBridge(s, Xbr(v));
    CreateBridgeFacts(s, Xbr(v));
    if !s1.failed {
      CreateVxlanFacts(s1, Vx(v), v);
    }
  }

  lemma ConfigureOwned(s: Session, port: string, v: nat, mtu: nat, w: nat)
    requires NetOk(s.net) && OwnedAt(s.net, w) && !s.failed && IsPortName(port)
    ensures OwnedAt(Configure(s, port, v, mtu).net, w)
  {
    NamesDiffer(v, w);
    NamesDiffer(w, v);
    if v != w {
      ConfigureTouchesOnly(s, port, v, mtu);
    } else {
      var s1 := EnslaveVxlan(s, v);
      EnslaveVxlanFacts(s, v);
      EnslaveVxlanOwned(s, v);
      if !s1.failed {
        EnslavePortFacts(s1, port, v);
        SetMTUsFacts(EnslavePort(s1, port, v), port, v, mtu);
      }
    }
  }

  /** Links that remain keep their master or lose it. */
  ghost predicate Shrunk(n: Net, n': Net) {
    forall a :: a in n'.links ==>
      a in n.links && (n'.links[a].master == n.links[a].master || n'.links[a].master == None)
  }

  lemma RemoveShrinks(s: Session, name: string)
    ensures Shrunk(s.net, RemoveLink(s, name).net)
  {
  }

  lemma DeconfigureOwned(s: Session, port: string, v: nat, w: nat)
    requires OwnedAt(s.net, w)
    ensures OwnedAt(Deconfigure(s, port, v).net, w)
  {
    RemoveShrinks(s, port);
    var s3 := AfterPort(s, port);
    RemoveShrinks(s3, Vx(v));
    RemoveShrinks(Call(RemoveLink(s, port), RemoveLink(s, port).net), Vx(v));
    assert Shrunk(s.net, Deconfigure(s, port, v).net);
  }

  // ---------------------------------------------------------------------------
  // Runs

  /** `budget` is how many netlink calls succeed before one fails. */
  datatype Op =
    | AddPort(port: string)       // QEMU creates its tap device
    | LosePort(port: string)      // and may take it away again
    | ConfigureOp(port: string, vni: nat, mtu: nat, budget: nat)
    | DeconfigureOp(port: string, vni: nat, budget: nat)

  function Step(n: Net, op: Op): Session {
    match op
    case AddPort(p) =>
      Session(if p in n.links then n else Update(n, p, Link(Tuntap, None, false, 1500)), 0, false)
    case LosePort(p) =>
      Session(if p in n.links && n.links[p].kind.Tuntap? then Without(n, p) else n, 0, false)
    case ConfigureOp(p, v, mtu, b) => Configure(Session(n, b, false), p, v, mtu)
    case DeconfigureOp(p, v, b) => Deconfigure(Session(n, b, false), p, v)
  }

  function After(n: Net, ops: seq<Op>): Net
    decreases |ops|
  {
    if ops == [] then n else After(Step(n, ops[0]).net, ops[1..])
  }

  ghost predicate InvAt(n: Net, v: nat) {
    NetOk(n) && SafeAt(n, v) && OwnedAt(n, v)
  }

  lemma StepKeepsInv(n: Net, op: Op, w: nat)
    requires InvAt(n, w) && IsPortName(op.port)
    ensures InvAt(Step(n, op).net, w)
  {
    NamesDiffer(w, w);
    match op
    case AddPort(p) =>
      RefreshedStaysSafe(n, Step(n, op).net, p, w);
    case LosePort(p) =>
      var s := Session(n, 2, false);
      RemoveFacts(s, p);
      RemoveStaysSafe(s, p, w);
      RemoveShrinks(s, p);
    case ConfigureOp(p, v, mtu, b) =>
      ConfigureStaysSafe(Session(n, b, false), p, v, mtu, w);
      ConfigureOwned(Session(n, b, false), p, v, mtu, w);
    case DeconfigureOp(p, v, b) =>
      DeconfigureStaysSafe(Session(n, b, false), p, v, w);
      DeconfigureOwned(Session(n, b, false), p, v, w);
  }

  /** Over any run, with failures anywhere: a network with a port has its bridge, and its
      vxlan device is in it. */
  lemma {:induction false} PortsAlwaysConnected(n: Net, ops: seq<Op>, w: nat)
    requires InvAt(n, w) && forall i :: 0 <= i < |ops| ==> IsPortName(ops[i].port)
    ensures InvAt(After(n, ops), w)
    ensures HasPort(After(n, ops), w) ==> Xbr(w) in After(n, ops).links && Belongs(After(n, ops), Vx(w), Xbr(w))
    decreases |ops|
  {
    if ops != [] {
      StepKeepsInv(n, ops[0], w);
      PortsAlwaysConnected(Step(n, ops[0]).net, ops[1..], w);
    }
  }

  /** No call fails, and a port stays in one network from its configuration until it is
      deconfigured (or lost while it is in none). */
  ghost predicate Orderly(n: Net, ops: seq<Op>)
    decreases |ops|
  {
    ops == [] ||
    (&& IsPortName(ops[0].port)
     && !Step(n, ops[0]).failed
     && (ops[0].ConfigureOp? || ops[0].DeconfigureOp? ==> NotElsewhere(n, ops[0].port, ops[0].vni))
     && (ops[0].LosePort? ==> forall v :: !Belongs(n, ops[0].port, Xbr(v)))
     && Orderly(Step(n, ops[0]).net, ops[1..]))
  }

  /** What is done to one network leaves another one tidy, unless the port moved. */
  lemma OthersStayTidy(n: Net, n': Net, port: string, v: nat, w: nat)
    requires Untouched(n, n', {port, Xbr(v), Vx(v)}) && v != w && IsPortName(port)
    requires InvAt(n, v) && InvAt(n', v) && InvAt(n, w) && TidyAt(n, w)
    requires !Belongs(n, port, Xbr(w)) && !Belongs(n', port, Xbr(w))
    ensures TidyAt(n', w)
  {
    NamesDiffer(v, w);
    UntouchedStaysTidy(n, n', port, v, w);
  }

  lemma ConfigureStepTidy(n: Net, port: string, v: nat, mtu: nat, budget: nat, w: nat)
    requires InvAt(n, v) && InvAt(n, w) && TidyAt(n, w) && IsPortName(port) && NotElsewhere(n, port, v)
    requires !Configure(Session(n, budget, false), port, v, mtu).failed
    requires InvAt(Configure(Session(n, budget, false), port, v, mtu).net, v)
    ensures TidyAt(Configure(Session(n, budget, false), port, v, mtu).net, w)
  {
    var s := Session(n, budget, false);
    ConfigureTidies(s, port, v, mtu);
    ConfigureTouchesOnly(s, port, v, mtu);
    ConfigureConnects(s, port, v, mtu);
    if v != w {
      NamesDiffer(v, w);
      OthersStayTidy(n, Configure(s, port, v, mtu).net, port, v, w);
    }
  }

  lemma DeconfigureStepTidy(n: Net, port: string, v: nat, budget: nat, w: nat)
    requires InvAt(n, v) && InvAt(n, w) && TidyAt(n, w) && IsPortName(port) && NotElsewhere(n, port, v)
    requires !Deconfigure(Session(n, budget, false), port, v).failed
    requires InvAt(Deconfigure(Session(n, budget, false), port, v).net, v)
    ensures TidyAt(Deconfigure(Session(n, budget, false), port, v).net, w)
  {
    var s := Session(n, budget, false);
    DeconfigureTidies(s, port, v);
    DeconfigureTouchesOnly(s, port, v);
    if v != w {
      OthersStayTidy(n, Deconfigure(s, port, v).net, port, v, w);
    }
  }

  lemma StepKeepsTidy(n: Net, op: Op, w: nat)
    requires forall v :: InvAt(n, v)
    requires TidyAt(n, w) && Orderly(n, [op])
    ensures TidyAt(Step(n, op).net, w)
  {
    assert InvAt(n, w);
    match op
    case AddPort(p) => PortStepTidy(n, op, w);
    case LosePort(p) => PortStepTidy(n, op, w);
    case ConfigureOp(p, v, mtu, b) =>
      assert InvAt(n, v);
      StepKeepsInv(n, op, v);
      ConfigureStepTidy(n, p, v, mtu, b, w);
    case DeconfigureOp(p, v, b) =>
      assert InvAt(n, v);
      StepKeepsInv(n, op, v);
      DeconfigureStepTidy(n, p, v, b, w);
  }

  lemma PortStepTidy(n: Net, op: Op, w: nat)
    requires InvAt(n, w) && TidyAt(n, w) && Orderly(n, [op])
    requires op.AddPort? || op.LosePort?
    ensures TidyAt(Step(n, op).net, w)
  {
    var n' := Step(n, op).net;
    if n' != n {
      if op.LosePort? {
        RemoveFacts(Session(n, 2, false), op.port);
      }
      PortOutsideStaysTidy(n, n', op.port, w);
    }
  }

  /** A port that is in no bridge comes or goes. */
  lemma PortOutsideStaysTidy(n: Net, n': Net, port: string, w: nat)
    requires IsPortName(port) && Untouched(n, n', {port}) && TidyAt(n, w)
    requires !Belongs(n, port, Xbr(w)) && !Belongs(n', port, Xbr(w))
    ensures TidyAt(n', w)
  {
    if HasPort(n, w) {
      var a :| a in n.links && a != Vx(w) && Belongs(n, a, Xbr(w));
      assert Belongs(n', a, Xbr(w));
    }
    if HasPort(n', w) {
      var a :| a in n'.links && a != Vx(w) && Belongs(n', a, Xbr(w));
      assert Belongs(n, a, Xbr(w));
    }
  }

  /** Over any orderly run, the bridge and the vxlan device of a network exist exactly as
      long as the network has a port. */
  lemma {:induction false} DevicesExistIffPorts(n: Net, ops: seq<Op>, w: nat)
    requires (forall v :: InvAt(n, v)) && TidyAt(n, w) && Orderly(n, ops)
    ensures Xbr(w) in After(n, ops).links <==> HasPort(After(n, ops), w)
    ensures Vx(w) in After(n, ops).links <==> HasPort(After(n, ops), w)
    decreases |ops|
  {
    if ops != [] {
      assert [ops[0]][1..] == [];
      StepKeepsTidy(n, ops[0], w);
      forall v ensures InvAt(Step(n, ops[0]).net, v) { StepKeepsInv(n, ops[0], v); }
      DevicesExistIffPorts(Step(n, ops[0]).net, ops[1..], w);
    }
  }

  /** Exactly when configuring a port for one network leaves another one tidy: when the port
      was not the last one of that network. */
  lemma MovingAPortTidyIff(n: Net, port: string, v: nat, mtu: nat, budget: nat, w: nat)
    requires (forall u :: InvAt(n, u)) && TidyAt(n, w) && IsPortName(port) && v != w
    requires !Step(n, ConfigureOp(port, v, mtu, budget)).failed
    ensures TidyAt(Step(n, ConfigureOp(port, v, mtu, budget)).net, w) <==>
            (Belongs(n, port, Xbr(w)) ==> exists a :: a != port && a != Vx(w) && Belongs(n, a, Xbr(w)))
  {
    var s := Session(n, budget, false);
    assert InvAt(n, v);
    ConfigureTouchesOnly(s, port, v, mtu);
    ConfigureConnects(s, port, v, mtu);
    ConfigureOwned(s, port, v, mtu, v);
    MovedAway(n, Configure(s, port, v, mtu).net, port, v, w);
  }

  lemma MovedAway(n: Net, n': Net, port: string, v: nat, w: nat)
    requires Untouched(n, n', {port, Xbr(v), Vx(v)}) && v != w && IsPortName(port) && TidyAt(n, w)
    requires Belongs(n', port, Xbr(v)) && OwnedAt(n, v) && OwnedAt(n', v)
    ensures TidyAt(n', w) <==>
            (Belongs(n, port, Xbr(w)) ==> exists a :: a != port && a != Vx(w) && Belongs(n, a, Xbr(w)))
  {
    NamesDiffer(v, w);
    NamesDiffer(w, v);
    if HasPort(n', w) {
      var a :| a in n'.links && a != Vx(w) && Belongs(n', a, Xbr(w));
      assert a != port && Belongs(n, a, Xbr(w));
    }
    if HasPort(n, w) {
      var b :| b in n.links && b != Vx(w) && Belongs(n, b, Xbr(w));
      assert b != port ==> Belongs(n', b, Xbr(w));
    }
    if a :| a != port && a != Vx(w) && Belongs(n, a, Xbr(w)) {
      assert a in n'.links && Belongs(n', a, Xbr(w));
    }
  }

  /** Nothing stands in the way of the first port of a network: with enough calls that
      succeed, configuring it does. */
  lemma FirstPortSucceeds(n: Net, port: string, v: nat, mtu: nat, budget: nat)
    requires IsPortName(port) && port in n.links && !n.links[port].kind.Bridge? && budget >= 13
    requires Xbr(v) !in n.links && Vx(v) !in n.links
    ensures !Step(n, ConfigureOp(port, v, mtu, budget)).failed
  {
    NamesDiffer(v, v);
    var s := Session(n, budget, false);
    var s1 := VxlanIsEnslaved(s, v);
    var s2 := PortIsEnslaved(s1, port, v);
    MTUsAreSet(s2, port, v, mtu);
  }

  lemma VxlanIsEnslaved(s: Session, v: nat) returns (r: Session)
    requires !s.failed && s.budget >= 7 && Xbr(v) !in s.net.links && Vx(v) !in s.net.links
    ensures r == EnslaveVxlan(s, v) && !r.failed && r.budget == s.budget - 7
    ensures Untouched(s.net, r.net, {Xbr(v), Vx(v)}) && Vx(v) in r.net.links
    ensures Xbr(v) in r.net.links && r.net.links[Xbr(v)].kind.Bridge?
  {
    NamesDiffer(v, v);
    var s1 := CreateBridge(s, Xbr(v));
    assert !s1.failed && s1.budget == s.budget - 3 && Xbr(v) in s1.net.links && Vx(v) !in s1.net.links;
    assert s1.net.links[Xbr(v)].kind.Bridge? && Untouched(s.net, s1.net, {Xbr(v)});
    var s2 := CreateVxlan(s1, Vx(v), v);
    assert !s2.failed && s2.budget == s1.budget - 3 && Vx(v) in s2.net.links && !s2.net.links[Vx(v)].kind.Bridge?;
    assert Untouched(s1.net, s2.net, {Vx(v)}) && s2.net.links[Xbr(v)].kind.Bridge?;
    r := EnslaveVxlan(s, v);
    assert r == SetMaster(s2, Vx(v), Xbr(v));
    UntouchedTrans(s.net, s1.net, s2.net, {Xbr(v)}, {Vx(v)});
  }

  lemma PortIsEnslaved(s: Session, port: string, v: nat) returns (r: Session)
    requires !s.failed && s.budget >= 3 && IsPortName(port) && port in s.net.links && !s.net.links[port].kind.Bridge?
    requires Xbr(v) in s.net.links && s.net.links[Xbr(v)].kind.Bridge?
    ensures r == EnslavePort(s, port, v) && !r.failed && r.budget == s.budget - 3
    ensures r.net.links.Keys == s.net.links.Keys
  {
    r := EnslavePort(s, port, v);
    var s1 := Call(s, s.net);
    var s2 := SetMaster(s1, port, Xbr(v));
    assert !s2.failed && port in s2.net.links && s2.budget == s.budget - 2;
  }

  lemma MTUsAreSet(s: Session, port: string, v: nat, mtu: nat)
    requires !s.failed && s.budget >= 3
    requires port in s.net.links && Xbr(v) in s.net.links && Vx(v) in s.net.links
    ensures !SetMTUs(s, port, v, mtu).failed
  {
    if mtu >= 68 {
      var s1 := SetMTU(s, Xbr(v), mtu);
      var s2 := SetMTU(s1, Vx(v), mtu);
      assert !s1.failed && !s2.failed && port in s2.net.links;
    }
  }

  /** In a table where every network is tidy, the only port of network 1 is configured for
      network 2. That succeeds, and the devices of network 1 stay behind without a port. */
  lemma MovedLastPortLeavesDevices() returns (n: Net, op: Op)
    ensures (forall v :: InvAt(n, v)) && (forall v :: TidyAt(n, v))
    ensures op.ConfigureOp? && IsPortName(op.port) && op.vni == 2 && Belongs(n, op.port, Xbr(1))
    ensures !Step(n, op).failed
    ensures Xbr(1) in Step(n, op).net.links && !HasPort(Step(n, op).net, 1) && !TidyAt(Step(n, op).net, 1)
  {
    var port := "tap1";
    PortNameIs(port);
    n := OnePort(port);
    op := ConfigureOp(port, 2, 1500, 13);
    forall v ensures InvAt(n, v) && TidyAt(n, v) { OnePortIsTidy(port, v); }
    NamesDiffer(1, 2);
    NamesDiffer(2, 1);
    NamesDiffer(1, 1);
    FirstPortSucceeds(n, port, 2, 1500, 13);
    MovingAPortTidyIff(n, port, 2, 1500, 13, 1);
    var s := Session(n, 13, false);
    ConfigureTouchesOnly(s, port, 2, 1500);
    ConfigureConnects(s, port, 2, 1500);
  }

  /** One network with one port. */
  function OnePort(port: string): Net {
    Net(map[Xbr(1) := Link(Bridge, None, true, 1500), Vx(1) := Link(Vxlan(1), Some(Xbr(1)), true, 1500),
            port := Link(Tuntap, Some(Xbr(1)), true, 1500)])
  }

  lemma PortNameIs(port: string)
    requires port != [] && port[0] != 'x' && port[0] != 'v'
    ensures IsPortName(port)
  {
    forall v ensures port != Xbr(v) && port != Vx(v) {
      assert Xbr(v)[0] == 'x' && Vx(v)[0] == 'v';
    }
  }

  lemma OnePortIsTidy(port: string, v: nat)
    requires IsPortName(port)
    ensures InvAt(OnePort(port), v) && TidyAt(OnePort(port), v)
  {
    NamesDiffer(1, v);
    NamesDiffer(v, 1);
    NamesDiffer(1, 1);
    var n := OnePort(port);
    assert Belongs(n, port, Xbr(1));
    assert v == 1 ==> HasPort(n, v);
  }
}
