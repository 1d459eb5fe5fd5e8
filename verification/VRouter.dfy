/** The gateways that a virtual router gives to its networks, and those it announces. */
module VRouter {
  import opened Wrappers
  import opened IpMath

  datatype Net = V4(ip4: bv32, bits4: bv6) | V6(ip6: Ip6, bits6: bv8)

  predicate IsNet(n: Net) {
    match n
    case V4(_, bits) => bits <= 32
    case V6(_, bits) => bits <= 128
  }

  /** The kernel's answer to new addresses, and to the routes and rules behind them. */
  datatype Kernel = Kernel(takesAddr: Net -> bool, takesRoute: Net -> bool)

  function Gateway4(ip: bv32, nbits: bv6): bv32
    requires nbits <= 30
  {
    GetLastIPv4(ip, nbits) - 1
  }

  /** Inside the network, and neither its first nor its last address. */
  lemma GatewayIsUsable(ip: bv32, nbits: bv6)
    requires nbits <= 30
    ensures SameNet4(ip, Gateway4(ip, nbits), nbits)
    ensures Gateway4(ip, nbits) < GetLastIPv4(ip, nbits)
    ensures ip & Mask32(nbits) < Gateway4(ip, nbits)
  {
  }

  /** The gateway comes right before the last, hence greatest, address of the network. */
  lemma GatewayIsSecondLast(ip: bv32, nbits: bv6)
    requires nbits <= 30
    ensures Gateway4(ip, nbits) + 1 == GetLastIPv4(ip, nbits)
    ensures Gateway4(ip, nbits) < GetLastIPv4(ip, nbits)
  {
  }

  lemma FirstIsLeast(ip: bv32, nbits: bv6, other: bv32)
    requires nbits <= 32
    ensures SameNet4(ip, ip & Mask32(nbits), nbits)
    ensures SameNet4(ip, other, nbits) ==> ip & Mask32(nbits) <= other
  {
  }

  // ---------------------------------------------------------------------------
  // Addresses of the router

  /** The address the router takes in a network, so that the network can reach it. */
  function RouterAddr(n: Net): Option<Net>
    requires IsNet(n)
  {
    match n
    case V4(ip, bits) => if bits <= 30 then Some(V4(Gateway4(ip, bits), bits)) else None
    case V6(ip, bits) => if bits <= 64 then Some(V6(GetLastIPv6(ip, bits), bits)) else None
  }

  /** Every network but the smallest gets an address of the router: an IPv4 one its gateway, an
      IPv6 one its last address. */
  lemma RouterAddrIs(n: Net)
    requires IsNet(n)
    ensures n.V4? ==> (RouterAddr(n).Some? <==> n.bits4 <= 30)
    ensures n.V6? ==> (RouterAddr(n).Some? <==> n.bits6 <= 64)
    ensures n.V4? && n.bits4 <= 30 ==> RouterAddr(n) == Some(V4(Gateway4(n.ip4, n.bits4), n.bits4))
    ensures n.V6? && n.bits6 <= 64 ==> RouterAddr(n) == Some(V6(GetLastIPv6(n.ip6, n.bits6), n.bits6))
  {
  }

  /** What is announced for a network: its gateway, or for one that is too small to have a
      gateway the common one, if there is one. */
  function Announces(n: Net, gateway4: Option<bv32>): Option<bv32>
    requires IsNet(n)
  {
    match n
    case V4(ip, bits) => if bits <= 30 then Some(Gateway4(ip, bits)) else gateway4
    case V6(_, _) => None
  }

  lemma AnnouncesIs(n: Net, gateway4: Option<bv32>)
    requires IsNet(n)
    ensures n.V4? && n.bits4 <= 30 ==> Announces(n, gateway4) == Some(Gateway4(n.ip4, n.bits4))
    ensures n.V4? && n.bits4 > 30 ==> Announces(n, gateway4) == gateway4
    ensures n.V6? ==> Announces(n, gateway4) == None
  {
  }

  /** All that can go wrong with one network. */
  predicate Fails(n: Net, k: Kernel)
    requires IsNet(n)
  {
    || (n.V6? && n.bits6 > 64)
    || (RouterAddr(n).Some? && !k.takesAddr(RouterAddr(n).value))
    || !k.takesRoute(n)
  }

  function RouterAddrs(nets: seq<Net>): seq<Net>
    requires forall n :: n in nets ==> IsNet(n)
  {
    if nets == [] then []
    else
      assert nets[0] in nets;
      (match RouterAddr(nets[0]) case Some(a) => [a] case None => []) + RouterAddrs(nets[1..])
  }

  function Announced(nets: seq<Net>, gateway4: Option<bv32>, known: set<bv32>): seq<bv32>
    requires forall n :: n in nets ==> IsNet(n)
    decreases |nets|
  {
    if nets == [] then []
    else
      assert nets[0] in nets;
      match Announces(nets[0], gateway4)
      case None => Announced(nets[1..], gateway4, known)
      case Some(g) => (if g in known then [] else [g]) + Announced(nets[1..], gateway4, known + {g})
  }

  class Link {
    var addrs: seq<Net>
    var announced: seq<bv32>

    constructor ()
      ensures addrs == [] && announced == []
    {
      addrs, announced := [], [];
    }

    method AddRoute(n: Net, k: Kernel) returns (ok: bool)
      requires IsNet(n)
      modifies this`addrs
      ensures ok <==> !Fails(n, k)
      ensures n.V6? && n.bits6 > 64 ==> !ok
      ensures ok ==> k.takesRoute(n) && (RouterAddr(n).Some? ==> k.takesAddr(RouterAddr(n).value))
      ensures n.V4? && k.takesRoute(n) && (RouterAddr(n).Some? ==> k.takesAddr(RouterAddr(n).value)) ==> ok
      ensures ok ==> addrs == old(addrs) + match RouterAddr(n) case Some(a) => [a] case None => []
      ensures !ok ==> old(addrs) <= addrs <= old(addrs) + match RouterAddr(n) case Some(a) => [a] case None => []
    {
      match n {
        case V4(ip, bits) =>
          if bits <= 30 {
            var gwAddr := V4(Gateway4(ip, bits), bits);
            if !k.takesAddr(gwAddr) { return false; }
            addrs := addrs + [gwAddr];
          }
        case V6(ip, bits) =>
          if bits > 64 { return false; }
          var lastAddr := V6(GetLastIPv6(ip, bits), bits);
          if !k.takesAddr(lastAddr) { return false; }
          addrs := addrs + [lastAddr];
      }
      ok := k.takesRoute(n);
    }

    method AnnounceGateways(nets: seq<Net>, gateway4: Option<bv32>)
      requires forall n :: n in nets ==> IsNet(n)
      modifies this`announced
      ensures announced == old(announced) + Announced(nets, gateway4, {})
    {
      var gws: set<bv32> := {};
      assert nets[0..] == nets;
      for i := 0 to |nets|
        invariant announced + Announced(nets[i..], gateway4, gws) == old(announced) + Announced(nets, gateway4, {})
      {
        assert nets[i..][1..] == nets[i + 1..];
        var gw := Announces(nets[i], gateway4);
        if gw.Some? {
          ghost var was := announced;
          if gw.value !in gws {
            announced := announced + [gw.value];
          }
          assert announced == was + if gw.value in gws then [] else [gw.value];
          gws := gws + {gw.value};
        }
      }
    }

    /** On success the router has its address in every network that is large enough, and
        every gateway was announced. */
    method ConfigureAddrs(nets: seq<Net>, gateway4: Option<bv32>, k: Kernel) returns (ok: bool)
      requires forall n :: n in nets ==> IsNet(n)
      modifies this
      ensures ok <==> forall n :: n in nets ==> !Fails(n, k)
      ensures ok ==> addrs == old(addrs) + RouterAddrs(nets)
      ensures ok ==> announced == old(announced) + Announced(nets, gateway4, {})
      ensures !ok ==> announced == old(announced)
    {
      assert nets[0..] == nets;
      for i := 0 to |nets|
        invariant forall j :: 0 <= j < i ==> !Fails(nets[j], k)
        invariant addrs + RouterAddrs(nets[i..]) == old(addrs) + RouterAddrs(nets)
        invariant announced == old(announced)
      {
        assert nets[i..][1..] == nets[i + 1..];
        var added := AddRoute(nets[i], k);
        if !added { return false; }
      }
      AnnounceGateways(nets, gateway4);
      ok := true;
    }
  }

  // ---------------------------------------------------------------------------
  // Configured and announced

  /** The gateways announced are exactly those of the networks, less the known ones, and
      each is announced once. */
  lemma {:induction false} AnnouncedExactly(nets: seq<Net>, gateway4: Option<bv32>, known: set<bv32>)
    requires forall n :: n in nets ==> IsNet(n)
    ensures forall g :: g in Announced(nets, gateway4, known) <==>
              g !in known && exists n :: n in nets && Announces(n, gateway4) == Some(g)
    ensures forall i, j :: 0 <= i < j < |Announced(nets, gateway4, known)| ==>
              Announced(nets, gateway4, known)[i] != Announced(nets, gateway4, known)[j]
    decreases |nets|
  {
    if nets != [] {
      assert nets[0] in nets;
      assert nets == [nets[0]] + nets[1..];
      var a := Announces(nets[0], gateway4);
      AnnouncedExactly(nets[1..], gateway4, if a.Some? then known + {a.value} else known);
    }
  }

  /** Every IPv4 address that the router takes is announced, exactly once. */
  lemma ConfiguredIsAnnounced(nets: seq<Net>, gateway4: Option<bv32>, a: Net)
    requires forall n :: n in nets ==> IsNet(n)
    requires a in RouterAddrs(nets) && a.V4?
    ensures a.ip4 in Announced(nets, gateway4, {})
  {
    var n := NetOf(nets, a);
    AnnouncedExactly(nets, gateway4, {});
    assert Announces(n, gateway4) == Some(a.ip4);
  }

  lemma {:induction false} NetOf(nets: seq<Net>, a: Net) returns (n: Net)
    requires forall n :: n in nets ==> IsNet(n)
    requires a in RouterAddrs(nets)
    ensures n in nets && RouterAddr(n) == Some(a)
  {
    assert nets[0] in nets;
    if RouterAddr(nets[0]) == Some(a) {
      n := nets[0];
    } else {
      n := NetOf(nets[1..], a);
    }
  }
}
