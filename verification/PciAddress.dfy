/** PCI addresses: their one spelling on output and the many that are accepted. */
module PciAddress {
  import opened Wrappers
  import opened Text

  type Byte = n: nat | n < 0x100 witness 0

  type Word = n: nat | n < 0x1_0000 witness 0

  datatype Address = Address(domain: Word, bus: Byte, device: Byte, function_: Byte)

  datatype Error = BadFormat | BadNumber | FunctionTooLarge | SlotTooLarge

  /** What the bus can have: 32 slots of 8 functions. */
  predicate IsValid(a: Address) {
    a.device <= 31 && a.function_ <= 7
  }

  // ---------------------------------------------------------------------------
  // Hexadecimal numbers

  const HEX_DIGITS := "0123456789abcdef"

  function HexDigit(n: nat): char
    requires n < 16
  {
    HEX_DIGITS[n]
  }

  function DigitValue(c: char): (r: Option<nat>)
    ensures r.Some? ==> r.value < 16
  {
    if '0' <= c <= '9' then Some((c - '0') as nat)
    else if 'a' <= c <= 'f' then Some((c - 'a') as nat + 10)
    else if 'A' <= c <= 'F' then Some((c - 'A') as nat + 10)
    else None
  }

  /** The verb %.<width>x: at least so many digits, no more zeros than that takes. */
  function Hex(n: nat, width: nat): (s: string)
    ensures s != [] && forall c :: c in s ==> c in HEX_DIGITS
    decreases n, width
  {
    if n < 16 && width <= 1 then [HexDigit(n)]
    else Hex(n / 16, if width == 0 then 0 else width - 1) + [HexDigit(n % 16)]
  }

  function HexValue(s: string): Option<nat> {
    if s == [] then Some(0)
    else
      match (HexValue(s[..|s| - 1]), DigitValue(s[|s| - 1]))
      case (Some(n), Some(d)) => Some(16 * n + d)
      case _ => None
  }

  /** strconv.ParseUint in base 16: at least one digit, and a value below the limit. */
  function ParseUint(s: string, limit: nat): (r: Option<nat>)
    ensures r.Some? ==> r.value < limit
  {
    if s == [] then None
    else
      match HexValue(s)
      case None => None
      case Some(n) => if n < limit then Some(n) else None
  }

  lemma DigitRoundTrip(n: nat)
    requires n < 16
    ensures DigitValue(HexDigit(n)) == Some(n)
  {
  }

  lemma HexValueOfOneMore(s: string, n: nat, d: nat)
    requires d < 16 && HexValue(s) == Some(n)
    ensures HexValue(s + [HexDigit(d)]) == Some(16 * n + d)
  {
    DigitRoundTrip(d);
    var t := s + [HexDigit(d)];
    assert t[..|t| - 1] == s;
  }

  lemma {:induction false} HexRoundTrip(n: nat, width: nat)
    ensures HexValue(Hex(n, width)) == Some(n)
    decreases n, width
  {
    if n < 16 && width <= 1 {
      OneDigit(n);
    } else {
      var w := if width == 0 then 0 else width - 1;
      HexRoundTrip(n / 16, w);
      HexMore(n, width, Hex(n / 16, w));
    }
  }

  lemma OneDigit(n: nat)
    requires n < 16
    ensures HexValue([HexDigit(n)]) == Some(n)
  {
    HexValueOfOneMore("", 0, n);
    assert "" + [HexDigit(n)] == [HexDigit(n)];
  }

  lemma HexMore(n: nat, width: nat, front: string)
    requires !(n < 16 && width <= 1) && front == Hex(n / 16, if width == 0 then 0 else width - 1)
    requires HexValue(front) == Some(n / 16)
    ensures HexValue(Hex(n, width)) == Some(n)
  {
    HexValueOfOneMore(front, n / 16, n % 16);
  }

  function Pow16(n: nat): (r: nat)
    ensures r >= 1
  {
    if n == 0 then 1 else 16 * Pow16(n - 1)
  }

  /** As many digits as asked for, unless the number needs more. */
  lemma {:induction false} HexWidth(n: nat, width: nat)
    requires 1 <= width && n < Pow16(width)
    ensures |Hex(n, width)| == width
    decreases width
  {
    if width > 1 {
      HexWidth(n / 16, width - 1);
    }
  }

  function Upper(c: char): char {
    if 'a' <= c <= 'z' then 'A' + (c - 'a') else c
  }

  function Uppers(s: string): (r: string)
    ensures |r| == |s| && forall i :: 0 <= i < |r| ==> r[i] == Upper(s[i])
  {
    if s == [] then [] else [Upper(s[0])] + Uppers(s[1..])
  }

  /** Capital letters mean the same. */
  lemma {:induction false} CaseIsIgnored(s: string)
    ensures HexValue(Uppers(s)) == HexValue(s)
  {
    if s != [] {
      var n := |s| - 1;
      CaseIsIgnored(s[..n]);
      assert Uppers(s)[..n] == Uppers(s[..n]);
      CaseOfDigit(s[n]);
    }
  }

  lemma CaseOfDigit(c: char)
    ensures DigitValue(Upper(c)) == DigitValue(c)
  {
  }

  lemma ParsePrinted(n: nat, width: nat, limit: nat)
    requires n < limit
    ensures ParseUint(Hex(n, width), limit) == Some(n)
  {
    HexRoundTrip(n, width);
  }

  lemma HexIsClean(n: nat, width: nat)
    ensures var s := Hex(n, width); ':' !in s && '.' !in s && TrimSpace(s) == s
  {
    var s := Hex(n, width);
    assert s[0] in HEX_DIGITS && s[|s| - 1] in HEX_DIGITS;
    assert ':' !in HEX_DIGITS && '.' !in HEX_DIGITS;
    forall c | c in HEX_DIGITS ensures !IsSpace(c) {
    }
    TrimKeeps(s);
  }

  // ---------------------------------------------------------------------------
  // Parsing

  function SlotAndFunction(s: string): (r: Result<(Byte, Byte), Error>)
    ensures r.Ok? ==> r.result.0 <= 31 && r.result.1 <= 7
  {
    var parts := Split(s, '.');
    if |parts| == 2 then
      match ParseUint(parts[1], 0x100)
      case None => Err(BadNumber)
      case Some(f) => if f > 7 then Err(FunctionTooLarge) else WithSlot(parts[0], f)
    else if |parts| == 1 then WithSlot(parts[0], 0)
    else Ok((0, 0))
  }

  function WithSlot(s: string, f: Byte): (r: Result<(Byte, Byte), Error>)
    ensures r.Ok? ==> r.result.0 <= 31 && r.result.1 == f
  {
    match ParseUint(s, 0x100)
    case None => Err(BadNumber)
    case Some(d) => if d > 31 then Err(SlotTooLarge) else Ok((d, f))
  }

  /** A blank domain counts as the first one. */
  function Domain(s: string): Option<Word> {
    var t := TrimSpace(s);
    if t == [] then Some(0)
    else
      match ParseUint(t, 0x1_0000)
      case None => None
      case Some(n) => Some(n)
  }

  function InDomain(domain: Word, bus: string, rest: string): (r: Result<Address, Error>)
    ensures r.Ok? ==> IsValid(r.result)
  {
    match ParseUint(bus, 0x100)
    case None => Err(BadNumber)
    case Some(b) =>
      match SlotAndFunction(rest)
      case Err(e) => Err(e)
      case Ok((d, f)) => Ok(Address(domain, b, d, f))
  }

  /** Whatever is accepted is an address that the bus can have. */
  function Parse(s: string): (r: Result<Address, Error>)
    ensures r.Ok? ==> IsValid(r.result)
  {
    var ff := Split(s, ':');
    if |ff| == 3 then
      match Domain(ff[0])
      case None => Err(BadNumber)
      case Some(d) => InDomain(d, ff[1], ff[2])
    else if |ff| == 2 then InDomain(0, ff[0], ff[1])
    else Err(BadFormat)
  }

  method AddressFromHex(s: string) returns (r: Result<Address, Error>)
    ensures r == Parse(s)
  {
    var domain: Word := 0;
    var device: Byte, fn: Byte := 0, 0;
    var ff := Split(s, ':');
    if |ff| != 2 && |ff| != 3 { return Err(BadFormat); }
    if |ff| == 3 {
      var first := TrimSpace(ff[0]);
      if |first| > 0 {
        var v := ParseUint(first, 0x1_0000);
        if v.None? { return Err(BadNumber); }
        domain := v.value;
      }
      ff := ff[1..];
    }
    var bus := ParseUint(ff[0], 0x100);
    if bus.None? { return Err(BadNumber); }
    var ff2 := Split(ff[1], '.');
    if |ff2| == 2 {
      var v := ParseUint(ff2[1], 0x100);
      if v.None? { return Err(BadNumber); }
      if v.value > 7 { return Err(FunctionTooLarge); }
      fn := v.value;
    }
    if |ff2| <= 2 {
      var v := ParseUint(ff2[0], 0x100);
      if v.None? { return Err(BadNumber); }
      if v.value > 31 { return Err(SlotTooLarge); }
      device := v.value;
    }
    r := Ok(Address(domain, bus.value, device, fn));
  }

  // ---------------------------------------------------------------------------
  // Printing

  function Slot(a: Address): string {
    Hex(a.device, 2) + "." + Hex(a.function_, 0)
  }

  function String(a: Address): string {
    Hex(a.domain, 4) + ":" + Hex(a.bus, 2) + ":" + Slot(a)
  }

  lemma SlotParts(a: Address)
    ensures Split(Slot(a), '.') == [Hex(a.device, 2), Hex(a.function_, 0)] && ':' !in Slot(a)
  {
    var d, f := Hex(a.device, 2), Hex(a.function_, 0);
    HexIsClean(a.device, 2);
    HexIsClean(a.function_, 0);
    assert Slot(a) == d + (['.'] + f);
    SplitFirst(d, f, '.');
    SplitOne(f, '.');
  }

  lemma StringParts(a: Address)
    ensures Split(String(a), ':') == [Hex(a.domain, 4), Hex(a.bus, 2), Slot(a)]
  {
    var d, b := Hex(a.domain, 4), Hex(a.bus, 2);
    HexIsClean(a.domain, 4);
    HexIsClean(a.bus, 2);
    SlotParts(a);
    var back := b + ([':'] + Slot(a));
    assert String(a) == d + ([':'] + back);
    SplitFirst(d, back, ':');
    SplitFirst(b, Slot(a), ':');
    SplitOne(Slot(a), ':');
  }

  lemma SlotRoundTrip(a: Address)
    ensures SlotAndFunction(Slot(a)) == (
      if a.function_ > 7 then Err(FunctionTooLarge)
      else if a.device > 31 then Err(SlotTooLarge)
      else Ok((a.device, a.function_)))
  {
    SlotParts(a);
    ParsePrinted(a.device, 2, 0x100);
    ParsePrinted(a.function_, 0, 0x100);
  }

  lemma DomainRoundTrip(d: Word)
    ensures Domain(Hex(d, 4)) == Some(d)
  {
    HexIsClean(d, 4);
    ParsePrinted(d, 4, 0x1_0000);
  }

  /** The shape of every address that the bus can have. */
  lemma StringShape(a: Address)
    requires IsValid(a)
    ensures var s := String(a); |s| == 12 && s[4] == ':' && s[7] == ':' && s[10] == '.'
  {
    assert Pow16(1) == 16 && Pow16(2) == 0x100 && Pow16(3) == 0x1000 && Pow16(4) == 0x1_0000;
    HexWidth(a.domain, 4);
    HexWidth(a.bus, 2);
    HexWidth(a.device, 2);
    assert Hex(a.function_, 0) == [HexDigit(a.function_)];
  }

  /** The domain may be left out or blank, and is the first one then. */
  lemma BlankDomain(blank: string, rest: string)
    requires ':' !in blank && TrimSpace(blank) == "" && |Split(rest, ':')| == 2
    ensures Parse(blank + ([':'] + rest)) == Parse(rest)
  {
    SplitFirst(blank, rest, ':');
    var ff := Split(rest, ':');
    var all := Split(blank + ([':'] + rest), ':');
    assert all == [blank] + ff;
    assert all[0] == blank && all[1] == ff[0] && all[2] == ff[1];
  }

  /** So may the function, which is 0 then. */
  lemma NoFunction(device: string)
    requires '.' !in device
    ensures SlotAndFunction(device) == SlotAndFunction(device + ".0")
  {
    SplitOne(device, '.');
    SplitFirst(device, "0", '.');
    SplitOne("0", '.');
    assert device + ".0" == device + (['.'] + "0");
    ParsePrinted(0, 1, 0x100);
    assert Hex(0, 1) == "0";
  }

  /** What is printed is read back, for exactly the addresses that the bus can have. */
  lemma RoundTrip(a: Address)
    ensures Parse(String(a)) == Ok(a) <==> IsValid(a)
    ensures Parse(String(a)).Ok? <==> IsValid(a)
  {
    StringParts(a);
    DomainRoundTrip(a.domain);
    ParsePrinted(a.bus, 2, 0x100);
    SlotRoundTrip(a);
  }

  /** Two addresses never print alike, whether the bus can have them or not. */
  lemma StringIsInjective(a: Address, b: Address)
    requires String(a) == String(b)
    ensures a == b
  {
    StringParts(a);
    StringParts(b);
    SlotParts(a);
    SlotParts(b);
    HexRoundTrip(a.domain, 4);
    HexRoundTrip(b.domain, 4);
    HexRoundTrip(a.bus, 2);
    HexRoundTrip(b.bus, 2);
    HexRoundTrip(a.device, 2);
    HexRoundTrip(b.device, 2);
    HexRoundTrip(a.function_, 0);
    HexRoundTrip(b.function_, 0);
  }

  /** Any accepted spelling has one normal form, which is its own. */
  lemma NormalForm(s: string)
    ensures match Parse(s)
            case Err(_) => true
            case Ok(a) => Parse(String(a)) == Ok(a)
  {
    match Parse(s)
    case Err(_) =>
    case Ok(a) => RoundTrip(a);
  }

  lemma SameNormalForm(s: string, t: string)
    ensures match (Parse(s), Parse(t))
            case (Ok(a), Ok(b)) => String(a) == String(b) <==> a == b
            case _ => true
  {
    match (Parse(s), Parse(t))
    case (Ok(a), Ok(b)) =>
      if String(a) == String(b) {
        StringIsInjective(a, b);
      }
    case _ =>
  }

  /** With two dots or more, nothing behind the last colon is looked at: whatever stands in
      front of it, the spelling is accepted exactly if it is with a plain zero there, and
      means the same. */
  lemma ManyDotsMeanZero(front: string, junk: string)
    requires ':' !in junk && |Split(junk, '.')| > 2
    ensures Parse(front + ([':'] + junk)) == Parse(front + ([':'] + "0"))
    ensures match Parse(front + ([':'] + junk))
            case Ok(a) => a.device == 0 && a.function_ == 0
            case Err(_) => true
  {
    SlotParse(front, junk);
    SlotParse(front, "0");
    ZeroSlot();
    ZeroStays(Split(front, ':'));
  }

  lemma ZeroStays(front: seq<string>)
    ensures match ParseWith(front, Ok((0, 0)))
            case Ok(a) => a.device == 0 && a.function_ == 0
            case Err(_) => true
  {
  }

  lemma ZeroSlot()
    ensures SlotAndFunction("0") == Ok((0, 0))
  {
    SplitOne("0", '.');
    ParsePrinted(0, 1, 0x100);
    assert Hex(0, 1) == "0";
  }

  /** The part of the parser behind the last colon, apart from what is in front of it. */
  function ParseWith(front: seq<string>, slot: Result<(Byte, Byte), Error>): Result<Address, Error> {
    if |front| == 2 then
      match Domain(front[0])
      case None => Err(BadNumber)
      case Some(d) => Assemble(d, front[1], slot)
    else if |front| == 1 then Assemble(0, front[0], slot)
    else Err(BadFormat)
  }

  function Assemble(domain: Word, bus: string, slot: Result<(Byte, Byte), Error>): Result<Address, Error> {
    match ParseUint(bus, 0x100)
    case None => Err(BadNumber)
    case Some(b) =>
      match slot
      case Err(e) => Err(e)
      case Ok((d, f)) => Ok(Address(domain, b, d, f))
  }

  lemma SlotParse(front: string, rest: string)
    requires ':' !in rest
    ensures Parse(front + ([':'] + rest)) == ParseWith(Split(front, ':'), SlotAndFunction(rest))
  {
    SplitTwo(front, rest, ':');
    SplitOne(rest, ':');
    var ff := Split(front, ':') + [rest];
    assert Split(front + ([':'] + rest), ':') == ff;
    ParseParts(front + ([':'] + rest), Split(front, ':'), rest);
  }

  lemma ParseParts(s: string, front: seq<string>, rest: string)
    requires Split(s, ':') == front + [rest]
    ensures Parse(s) == ParseWith(front, SlotAndFunction(rest))
  {
    var ff := front + [rest];
    assert ff[|front|] == rest;
  }
}
