/** The string helpers of Go's library that the modelled code relies on. */
module Text {

  /** unicode.IsSpace */
  predicate IsSpace(c: char) {
    var n := c as int;
    9 <= n <= 13 || n == 0x20 || n == 0x85 || n == 0xA0 || n == 0x1680 || 0x2000 <= n <= 0x200A ||
    n == 0x2028 || n == 0x2029 || n == 0x202F || n == 0x205F || n == 0x3000
  }

  function TrimLeft(s: string): (r: string)
    ensures |r| <= |s| && r == s[|s| - |r|..]
    ensures r != [] ==> !IsSpace(r[0])
  {
    if s != [] && IsSpace(s[0]) then TrimLeft(s[1..]) else s
  }

  function TrimRight(s: string): (r: string)
    ensures r <= s
    ensures r != [] ==> !IsSpace(r[|r| - 1])
  {
    if s != [] && IsSpace(s[|s| - 1]) then TrimRight(s[..|s| - 1]) else s
  }

  /** strings.TrimSpace */
  function TrimSpace(s: string): string {
    TrimRight(TrimLeft(s))
  }

  lemma TrimKeeps(s: string)
    requires s == [] || (!IsSpace(s[0]) && !IsSpace(s[|s| - 1]))
    ensures TrimSpace(s) == s
  {
  }

  /** strings.HasPrefix */
  predicate HasPrefix(s: string, prefix: string) {
    prefix <= s
  }

  /** strings.Split for a one-character separator: always at least one part. */
  function Split(s: string, sep: char): (parts: seq<string>)
    ensures |parts| >= 1
    ensures forall p :: p in parts ==> sep !in p
  {
    if s == [] then [[]]
    else
      var rest := Split(s[1..], sep);
      if s[0] == sep then [[]] + rest
      else [[s[0]] + rest[0]] + rest[1..]
  }

  function Join(parts: seq<string>, sep: char): string {
    if parts == [] then []
    else if |parts| == 1 then parts[0]
    else parts[0] + [sep] + Join(parts[1..], sep)
  }

  lemma {:induction false} JoinSplit(s: string, sep: char)
    ensures Join(Split(s, sep), sep) == s
  {
    if s != [] {
      JoinSplit(s[1..], sep);
      var rest := Split(s[1..], sep);
      if s[0] == sep {
        assert ([[]] + rest)[1..] == rest;
      } else {
        var parts := [[s[0]] + rest[0]] + rest[1..];
        assert parts[1..] == rest[1..];
      }
    }
  }

  /** Splitting undoes joining when no part contains the separator. */
  lemma {:induction false} SplitJoin(parts: seq<string>, sep: char)
    requires parts != [] && forall p :: p in parts ==> sep !in p
    ensures Split(Join(parts, sep), sep) == parts
  {
    if |parts| == 1 {
      SplitOne(parts[0], sep);
    } else {
      SplitJoin(parts[1..], sep);
      SplitFirst(parts[0], Join(parts[1..], sep), sep);
      assert parts[0] + [sep] + Join(parts[1..], sep) == parts[0] + ([sep] + Join(parts[1..], sep));
    }
  }

  /** The parts of two strings with a separator between them. */
  lemma {:induction false} SplitTwo(s: string, t: string, sep: char)
    ensures Split(s + ([sep] + t), sep) == Split(s, sep) + Split(t, sep)
  {
    var whole := s + ([sep] + t);
    if s == [] {
      assert whole == [sep] + t;
    } else {
      assert whole[0] == s[0] && whole[1..] == s[1..] + ([sep] + t);
      SplitTwo(s[1..], t, sep);
      MoreParts(s[0], Split(s[1..], sep), Split(t, sep), sep);
    }
  }

  lemma MoreParts(c: char, more: seq<string>, others: seq<string>, sep: char)
    requires more != []
    ensures [[]] + (more + others) == [[]] + more + others
    ensures [[c] + (more + others)[0]] + (more + others)[1..] == [[c] + more[0]] + more[1..] + others
  {
    assert (more + others)[1..] == more[1..] + others;
  }

  lemma {:induction false} SplitOne(s: string, sep: char)
    requires sep !in s
    ensures Split(s, sep) == [s]
  {
    if s != [] {
      SplitOne(s[1..], sep);
      assert s[0] in s && [s[0]] + s[1..] == s;
    }
  }

  lemma {:induction false} SplitFirst(s: string, t: string, sep: char)
    requires sep !in s
    ensures Split(s + ([sep] + t), sep) == [s] + Split(t, sep)
  {
    if s == [] {
      assert s + ([sep] + t) == [sep] + t;
    } else {
      assert (s + ([sep] + t))[1..] == s[1..] + ([sep] + t);
      SplitFirst(s[1..], t, sep);
      assert s[0] in s && [s[0]] + s[1..] == s;
    }
  }

  /** filepath.Base on a Unix host. */
  function Base(path: string): (r: string)
    ensures r != [] && ('/' in r ==> r == "/")
  {
    if path == [] then "."
    else
      var p := StripSlashes(path);
      if p == [] then "/" else LastPart(p)
  }

  lemma BaseOf(front: string, last: string)
    requires last != [] && '/' !in last
    ensures Base(front + ("/" + last)) == last
  {
    var path := front + ("/" + last);
    assert path[|path| - 1] == last[|last| - 1] && last[|last| - 1] in last;
    LastPartOf(front + "/", last);
    assert front + "/" + last == path;
  }

  lemma {:induction false} LastPartOf(front: string, last: string)
    requires last != [] && '/' !in last && front != [] && front[|front| - 1] == '/'
    ensures (front + last)[|front + last| - 1] != '/' && LastPart(front + last) == last
    decreases |last|
  {
    var n := |last| - 1;
    var s := front + last;
    assert s[|s| - 1] == last[n] && last[n] in last;
    if n > 0 {
      assert s[|s| - 2] == last[n - 1] && last[n - 1] in last;
      assert s[..|s| - 1] == front + last[..n];
      LastPartOf(front, last[..n]);
    } else {
      assert s[|s| - 2] == front[|front| - 1];
    }
  }

  function StripSlashes(s: string): (r: string)
    ensures r <= s && (r != [] ==> r[|r| - 1] != '/')
  {
    if s != [] && s[|s| - 1] == '/' then StripSlashes(s[..|s| - 1]) else s
  }

  function LastPart(s: string): (r: string)
    requires s != [] && s[|s| - 1] != '/'
    ensures r != [] && '/' !in r
  {
    if |s| == 1 || s[|s| - 2] == '/' then [s[|s| - 1]]
    else LastPart(s[..|s| - 1]) + [s[|s| - 1]]
  }
}
