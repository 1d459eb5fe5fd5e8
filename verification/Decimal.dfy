/** Decimal numbers, as fmt's %d writes and strconv.Atoi reads them. */
module Decimal {
  import opened Wrappers

  function Digit(d: nat): char
    requires d < 10
  {
    '0' + d as char
  }

  function Render(n: nat): (s: string)
    ensures s != []
  {
    if n < 10 then [Digit(n)] else Render(n / 10) + [Digit(n % 10)]
  }

  lemma {:induction false} RenderInjective(m: nat, n: nat)
    requires Render(m) == Render(n)
    ensures m == n
  {
    var s, t := Render(m), Render(n);
    assert s[|s| - 1] == Digit(m % 10) && t[|t| - 1] == Digit(n % 10);
    if m >= 10 && n >= 10 {
      assert Render(m / 10) == s[..|s| - 1] && Render(n / 10) == t[..|t| - 1];
      RenderInjective(m / 10, n / 10);
    }
  }

  predicate IsDigit(c: char) {
    '0' <= c <= '9'
  }

  function Digits(s: string): Option<nat> {
    if s == [] then Some(0)
    else if !IsDigit(s[|s| - 1]) then None
    else
      match Digits(s[..|s| - 1])
      case None => None
      case Some(n) => Some(10 * n + (s[|s| - 1] - '0') as nat)
  }

  const MAX_INT := 0x7FFF_FFFF_FFFF_FFFF

  /** strconv.Atoi with 64-bit integers: an optional sign, and at least one digit. */
  function Atoi(s: string): Option<int> {
    var signed := s != [] && (s[0] == '+' || s[0] == '-');
    var digits := if signed then s[1..] else s;
    if digits == [] then None
    else
      match Digits(digits)
      case None => None
      case Some(n) =>
        var v := if signed && s[0] == '-' then -(n as int) else n;
        if -MAX_INT - 1 <= v <= MAX_INT then Some(v) else None
  }

  lemma {:induction false} DigitsOfRender(n: nat)
    ensures Digits(Render(n)) == Some(n)
    ensures IsDigit(Render(n)[0])
  {
    var s := Render(n);
    if n < 10 {
      assert s[..|s| - 1] == [];
    } else {
      DigitsOfRender(n / 10);
      assert s[..|s| - 1] == Render(n / 10);
    }
  }

  /** Reading undoes writing, with or without a sign, within 64 bits; beyond it fails. */
  lemma AtoiOfRender(n: nat)
    ensures Atoi(Render(n)) == if n <= 0x7FFF_FFFF_FFFF_FFFF then Some(n) else None
    ensures Atoi("+" + Render(n)) == if n <= 0x7FFF_FFFF_FFFF_FFFF then Some(n) else None
    ensures Atoi("-" + Render(n)) == if n <= 0x8000_0000_0000_0000 then Some(-(n as int)) else None
  {
    DigitsOfRender(n);
    AtoiOfDigits(Render(n), n);
    AtoiOfSigned('+', Render(n), n);
    AtoiOfSigned('-', Render(n), n);
  }

  lemma AtoiOfDigits(s: string, n: nat)
    requires s != [] && IsDigit(s[0]) && Digits(s) == Some(n)
    ensures Atoi(s) == if n <= 0x7FFF_FFFF_FFFF_FFFF then Some(n) else None
  {
  }

  lemma AtoiOfSigned(sign: char, s: string, n: nat)
    requires s != [] && Digits(s) == Some(n) && (sign == '+' || sign == '-')
    ensures sign == '+' ==> Atoi([sign] + s) == if n <= 0x7FFF_FFFF_FFFF_FFFF then Some(n) else None
    ensures sign == '-' ==> Atoi([sign] + s) == if n <= 0x8000_0000_0000_0000 then Some(-(n as int)) else None
  {
    assert ([sign] + s)[1..] == s;
  }

  /** And only digits behind the sign are read. */
  lemma {:induction false} OnlyDigits(s: string)
    ensures Digits(s).Some? <==> forall c :: c in s ==> '0' <= c <= '9'
  {
    if s != [] {
      var n := |s| - 1;
      OnlyDigits(s[..n]);
      assert s[n] in s;
      assert forall c :: c in s <==> c in s[..n] || c == s[n];
    }
  }

  lemma AtoiIff(s: string)
    ensures Atoi(s).Some? ==>
              var digits := if s != [] && (s[0] == '+' || s[0] == '-') then s[1..] else s;
              digits != [] && forall c :: c in digits ==> '0' <= c <= '9'
  {
    OnlyDigits(if s != [] && (s[0] == '+' || s[0] == '-') then s[1..] else s);
  }
}
