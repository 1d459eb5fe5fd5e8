/** The last address of a network, for both versions of the protocol. */
module IpMath {

  /** The two halves of an IPv6 address. */
  datatype Ip6 = Ip6(hi: bv64, lo: bv64)

  function Mask32(nbits: bv6): bv32
    requires nbits <= 32
  {
    -(1 << (32 - nbits))
  }

  function GetLastIPv4(ip: bv32, nbits: bv6): bv32
    requires nbits <= 32
  {
    ip | !Mask32(nbits)
  }

  function Mask64(nbits: bv7): bv64
    requires nbits <= 64
  {
    -(1 << (64 - nbits))
  }

  /** The ones behind a prefix, in two halves. */
  function InvMask(nbits: bv8): Ip6
    requires nbits <= 128
  {
    if nbits > 64 then Ip6(!Mask64(64), !Mask64((nbits - 64) as bv7))
    else Ip6(!Mask64(nbits as bv7), Mask64(64))
  }

  function GetLastIPv6(ip: Ip6, nbits: bv8): Ip6
    requires nbits <= 128
  {
    var m := InvMask(nbits);
    Ip6(ip.hi | m.hi, ip.lo | m.lo)
  }

  // ---------------------------------------------------------------------------
  // Networks

  /** The first nbits bits are the same. */
  predicate SameNet4(a: bv32, b: bv32, nbits: bv6)
    requires nbits <= 32
  {
    a >> (32 - nbits) == b >> (32 - nbits)
  }

  predicate SameHead(a: bv64, b: bv64, nbits: bv7)
    requires nbits <= 64
  {
    a >> (64 - nbits) == b >> (64 - nbits)
  }

  predicate SameNet6(a: Ip6, b: Ip6, nbits: bv8)
    requires nbits <= 128
  {
    if nbits > 64 then a.hi == b.hi && SameHead(a.lo, b.lo, (nbits - 64) as bv7)
    else SameHead(a.hi, b.hi, nbits as bv7)
  }

  predicate AtMost6(a: Ip6, b: Ip6) {
    a.hi <= b.hi && (a.hi == b.hi ==> a.lo <= b.lo)
  }

  // ---------------------------------------------------------------------------
  // Words: a narrow range of prefix lengths at a time

  function LastWord(a: bv64, nbits: bv7): bv64
    requires nbits <= 64
  {
    a | !Mask64(nbits)
  }

  predicate IsInside64(a: bv64, nbits: bv7)
    requires nbits <= 64
  {
    SameHead(a, LastWord(a, nbits), nbits)
  }

  predicate IsBelowLast64(a: bv64, b: bv64, nbits: bv7)
    requires nbits <= 64
  {
    b <= LastWord(a, nbits)
  }

  lemma InsideFrom0(a: bv64, nbits: bv7)
    requires 0 <= nbits <= 16
    ensures IsInside64(a, nbits)
  {
  }

  lemma GreatestFrom0(a: bv64, b: bv64, nbits: bv7)
    requires 0 <= nbits <= 16 && SameHead(a, b, nbits)
    ensures IsBelowLast64(a, b, nbits)
  {
  }

  lemma InsideFrom16(a: bv64, nbits: bv7)
    requires 16 <= nbits <= 32
    ensures IsInside64(a, nbits)
  {
  }

  lemma GreatestFrom16(a: bv64, b: bv64, nbits: bv7)
    requires 16 <= nbits <= 32 && SameHead(a, b, nbits)
    ensures IsBelowLast64(a, b, nbits)
  {
  }

  lemma InsideFrom32(a: bv64, nbits: bv7)
    requires 32 <= nbits <= 48
    ensures IsInside64(a, nbits)
  {
  }

  lemma GreatestFrom32(a: bv64, b: bv64, nbits: bv7)
    requires 32 <= nbits <= 48 && SameHead(a, b, nbits)
    ensures IsBelowLast64(a, b, nbits)
  {
  }

  lemma InsideFrom48(a: bv64, nbits: bv7)
    requires 48 <= nbits <= 56
    ensures IsInside64(a, nbits)
  {
  }

  lemma GreatestFrom48(a: bv64, b: bv64, nbits: bv7)
    requires 48 <= nbits <= 56 && SameHead(a, b, nbits)
    ensures IsBelowLast64(a, b, nbits)
  {
  }

  lemma InsideFrom56(a: bv64, nbits: bv7)
    requires 56 <= nbits <= 64
    ensures IsInside64(a, nbits)
  {
  }

  lemma GreatestFrom56(a: bv64, b: bv64, nbits: bv7)
    requires 56 <= nbits <= 64 && SameHead(a, b, nbits)
    ensures IsBelowLast64(a, b, nbits)
  {
  }

  lemma Inside64(a: bv64, nbits: bv7)
    requires nbits <= 64
    ensures IsInside64(a, nbits)
  {
    if nbits <= 16 { InsideFrom0(a, nbits); }
    else if nbits <= 32 { InsideFrom16(a, nbits); }
    else if nbits <= 48 { InsideFrom32(a, nbits); }
    else if nbits <= 56 { InsideFrom48(a, nbits); }
    else { InsideFrom56(a, nbits); }
  }

  lemma Greatest64(a: bv64, b: bv64, nbits: bv7)
    requires nbits <= 64 && SameHead(a, b, nbits)
    ensures IsBelowLast64(a, b, nbits)
  {
    if nbits <= 16 { GreatestFrom0(a, b, nbits); }
    else if nbits <= 32 { GreatestFrom16(a, b, nbits); }
    else if nbits <= 48 { GreatestFrom32(a, b, nbits); }
    else if nbits <= 56 { GreatestFrom48(a, b, nbits); }
    else { GreatestFrom56(a, b, nbits); }
  }

  // ---------------------------------------------------------------------------
  // The last address is the greatest of its network

  lemma LastIPv4IsInside(ip: bv32, nbits: bv6)
    requires nbits <= 32
    ensures SameNet4(ip, GetLastIPv4(ip, nbits), nbits)
  {
  }

  lemma LastIPv4IsGreatest(ip: bv32, nbits: bv6, other: bv32)
    requires nbits <= 32 && SameNet4(ip, other, nbits)
    ensures other <= GetLastIPv4(ip, nbits)
  {
  }

  lemma WholeWord()
    ensures Mask64(64) == 0xFFFF_FFFF_FFFF_FFFF
  {
  }

  lemma SetLow(ip: Ip6, m: Ip6)
    requires m.lo == 0xFFFF_FFFF_FFFF_FFFF
    ensures Ip6(ip.hi | m.hi, ip.lo | m.lo) == Ip6(ip.hi | m.hi, 0xFFFF_FFFF_FFFF_FFFF)
  {
  }

  lemma KeepHigh(ip: Ip6, m: Ip6)
    requires m.hi == 0
    ensures Ip6(ip.hi | m.hi, ip.lo | m.lo) == Ip6(ip.hi, ip.lo | m.lo)
  {
  }

  /** Up to half of the address, everything in the other half is set. */
  lemma LastIPv6Short(ip: Ip6, nbits: bv8)
    requires nbits <= 64
    ensures GetLastIPv6(ip, nbits) == Ip6(LastWord(ip.hi, nbits as bv7), 0xFFFF_FFFF_FFFF_FFFF)
  {
    ShortMask(nbits);
    SetLow(ip, InvMask(nbits));
  }

  lemma ShortMask(nbits: bv8)
    requires nbits <= 64
    ensures InvMask(nbits) == Ip6(!Mask64(nbits as bv7), 0xFFFF_FFFF_FFFF_FFFF)
  {
    WholeWord();
  }

  lemma LongMask(nbits: bv8)
    requires 64 < nbits <= 128
    ensures InvMask(nbits) == Ip6(0, !Mask64((nbits - 64) as bv7))
  {
    WholeWord();
  }

  lemma LastIPv6Long(ip: Ip6, nbits: bv8)
    requires 64 < nbits <= 128
    ensures GetLastIPv6(ip, nbits) == Ip6(ip.hi, LastWord(ip.lo, (nbits - 64) as bv7))
  {
    LongMask(nbits);
    KeepHigh(ip, InvMask(nbits));
  }

  lemma LastIPv6IsInside(ip: Ip6, nbits: bv8)
    requires nbits <= 128
    ensures SameNet6(ip, GetLastIPv6(ip, nbits), nbits)
  {
    if nbits <= 64 {
      LastIPv6Short(ip, nbits);
      Inside64(ip.hi, nbits as bv7);
    } else {
      LastIPv6Long(ip, nbits);
      Inside64(ip.lo, (nbits - 64) as bv7);
    }
  }

  lemma HeadDecides(ip: Ip6, nbits: bv7, other: Ip6)
    requires nbits <= 64 && IsBelowLast64(ip.hi, other.hi, nbits)
    ensures AtMost6(other, Ip6(LastWord(ip.hi, nbits), 0xFFFF_FFFF_FFFF_FFFF))
  {
  }

  lemma TailDecides(ip: Ip6, nbits: bv7, other: Ip6)
    requires nbits <= 64 && ip.hi == other.hi && IsBelowLast64(ip.lo, other.lo, nbits)
    ensures AtMost6(other, Ip6(ip.hi, LastWord(ip.lo, nbits)))
  {
  }

  lemma LastIPv6IsGreatest(ip: Ip6, nbits: bv8, other: Ip6)
    requires nbits <= 128 && SameNet6(ip, other, nbits)
    ensures AtMost6(other, GetLastIPv6(ip, nbits))
  {
    if nbits <= 64 {
      LastIPv6Short(ip, nbits);
      Greatest64(ip.hi, other.hi, nbits as bv7);
      HeadDecides(ip, nbits as bv7, other);
    } else {
      LastIPv6Long(ip, nbits);
      Greatest64(ip.lo, other.lo, (nbits - 64) as bv7);
      TailDecides(ip, (nbits - 64) as bv7, other);
    }
  }
}
