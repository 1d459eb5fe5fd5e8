/**
 The parser of environment files, for ASCII text. What the two expansions do to '$' and
 '\\' is a parameter.
 */
module Dotenv {
  import opened Wrappers
  import opened Text

  type Vars = map<string, string>

  /** Variable and escape expansion; both leave text without '$' and '\\' alone. */
  datatype Expansion = Expansion(vars: (string, Vars) -> string, escapes: string -> string)

  predicate IsPlain(s: string) {
    '$' !in s && '\\' !in s
  }

  ghost predicate Faithful(x: Expansion) {
    forall s, vars :: IsPlain(s) ==> x.vars(s, vars) == s && x.escapes(s) == s
  }

  // ---------------------------------------------------------------------------
  // Characters

  /** A space that does not break the line; a carriage return counts. */
  predicate IsGap(c: char) {
    c == ' ' || c == '\t' || c == 11 as char || c == 12 as char || c == '\r'
  }

  predicate IsLineEnd(c: char) {
    c == '\n' || c == '\r'
  }

  predicate IsKeyChar(c: char) {
    'a' <= c <= 'z' || 'A' <= c <= 'Z' || '0' <= c <= '9' || c == '.' || c == '_'
  }

  predicate IsSeparator(c: char) {
    c == '=' || c == ':'
  }

  predicate IsQuote(c: char) {
    c == '"' || c == '\''
  }

  function IsChar(q: char): char -> bool {
    c => c == q
  }

  // ---------------------------------------------------------------------------
  // Slices

  /** The first index at which p holds, or the length. */
  function Find(s: string, p: char -> bool): (i: nat)
    ensures i <= |s| && (forall j :: 0 <= j < i ==> !p(s[j])) && (i < |s| ==> p(s[i]))
  {
    if s == [] || p(s[0]) then 0 else 1 + Find(s[1..], p)
  }

  function DropLeft(s: string, p: char -> bool): (r: string)
    ensures |r| <= |s| && (r != [] ==> !p(r[0])) && ((s != [] && !p(s[0])) ==> r == s)
  {
    if s != [] && p(s[0]) then DropLeft(s[1..], p) else s
  }

  function DropRight(s: string, p: char -> bool): (r: string)
    ensures r <= s && (r != [] ==> !p(r[|r| - 1]))
  {
    if s != [] && p(s[|s| - 1]) then DropRight(s[..|s| - 1], p) else s
  }

  /** Line ends of the other kind, replaced. */
  function Unix(s: string): (r: string)
    ensures |r| <= |s|
  {
    if |s| >= 2 && s[0] == '\r' && s[1] == '\n' then ['\n'] + Unix(s[2..])
    else if s == [] then []
    else [s[0]] + Unix(s[1..])
  }

  // ---------------------------------------------------------------------------
  // The three scanners

  /** Past white space and comments, to the next statement. */
  function StatementStart(src: string): (r: Option<string>)
    ensures r.Some? ==> 0 < |r.value| <= |src| && !IsSpace(r.value[0]) && r.value[0] != '#'
    decreases |src|
  {
    var s := DropLeft(src, IsSpace);
    if s == [] then None
    else if s[0] != '#' then Some(s)
    else
      var pos := Find(s, IsChar('\n'));
      if pos == |s| then None else StatementStart(s[pos..])
  }

  datatype Scan = Separator(at: nat) | NoSeparator | BadChar

  function ScanKey(src: string, i: nat): (r: Scan)
    requires i <= |src|
    ensures r.Separator? ==> i <= r.at < |src| && IsSeparator(src[r.at])
    ensures r.NoSeparator? ==> forall j :: i <= j < |src| ==> src[j] != '\n'
    decreases |src| - i
  {
    if i == |src| then NoSeparator
    else if IsGap(src[i]) then ScanKey(src, i + 1)
    else if IsSeparator(src[i]) then Separator(i)
    else if IsKeyChar(src[i]) then ScanKey(src, i + 1)
    else BadChar
  }

  datatype Error = BadName | Nothing | Unterminated

  const EXPORT_PREFIX := "export"

  function DropExport(src: string): (r: string)
    ensures |r| <= |src| && (r != [] && src != [] && !IsGap(src[0]) ==> !IsGap(r[0]))
  {
    if HasPrefix(src, EXPORT_PREFIX) then
      var trimmed := src[|EXPORT_PREFIX|..];
      if trimmed != [] && IsGap(trimmed[0]) then DropLeft(trimmed, IsGap) else src
    else src
  }

  /** The name of a variable and what follows the separator. Without any separator the name
      is empty and the whole statement is left. */
  function KeyName(statement: string): (r: Result<(string, string), Error>)
    ensures r.Ok? ==> |r.result.1| < |statement| || (0 < |r.result.1| <= |statement| && !IsLineEnd(r.result.1[0]))
  {
    var src := DropExport(DropLeft(statement, IsGap));
    match ScanKey(src, 0)
    case BadChar => Err(BadName)
    case NoSeparator => if src == [] then Err(Nothing) else Ok(("", DropLeft(src, IsGap)))
    case Separator(at) => Ok((TrimRight(src[..at]), DropLeft(src[at + 1..], IsGap)))
  }

  datatype Extracted = Value(value: string, rest: string) | BadQuote | Panic

  /** Where a comment begins inside an unquoted value: at a '#' right after a space. */
  function CommentAt(line: string, i: nat): (r: nat)
    requires 1 <= i <= |line|
    ensures i <= r <= |line|
    decreases |line| - i
  {
    if i == |line| then i
    else if line[i] == '#' && IsGap(line[i - 1]) then i
    else CommentAt(line, i + 1)
  }

  /** The closing quote: the next one that has no backslash in front of it. */
  function ClosingQuote(src: string, i: nat): (r: nat)
    requires 1 <= i <= |src|
    ensures i <= r <= |src|
    decreases |src| - i
  {
    if i == |src| then i
    else if src[i] == src[0] && src[i - 1] != '\\' then i
    else ClosingQuote(src, i + 1)
  }

  function Unquote(quoted: string, q: char, vars: Vars, x: Expansion): string {
    var value := DropLeft(DropRight(quoted, IsChar(q)), IsChar(q));
    if q == '"' then x.vars(x.escapes(value), vars) else value
  }

  function Unquoted(line: string, vars: Vars, x: Expansion): string
    requires line != []
  {
    x.vars(DropRight(DropLeft(line[..CommentAt(line, 1)], IsGap), IsGap), vars)
  }

  /** An unquoted value that begins with a comment sign makes the parser look at the
      character before the first one, and it panics; nothing else does. */
  function VarValue(src: string, vars: Vars, x: Expansion): (r: Extracted)
    ensures r.Value? ==> |r.rest| <= |src| && (src != [] && !IsLineEnd(src[0]) ==> |r.rest| < |src|)
    ensures r.Panic? <==> src != [] && src[0] == '#'
  {
    if src == [] || !IsQuote(src[0]) then
      var end := Find(src, IsLineEnd);
      if end == 0 then Value("", src)
      else if src[0] == '#' then Panic
      else Value(Unquoted(src[..end], vars, x), src[end..])
    else
      var i := ClosingQuote(src, 1);
      if i == |src| then BadQuote else Value(Unquote(src[..i], src[0], vars, x), src[i + 1..])
  }

  // ---------------------------------------------------------------------------
  // The whole file

  datatype Status = Done | Failed(error: Error) | Panicked

  datatype Outcome = Outcome(vars: Vars, status: Status)

  function Parse(src: string, vars: Vars, x: Expansion): Outcome
    decreases |src|
  {
    match StatementStart(src)
    case None => Outcome(vars, Done)
    case Some(s) =>
      match KeyName(s)
      case Err(e) => Outcome(vars, Failed(e))
      case Ok((key, left)) =>
        match VarValue(left, vars, x)
        case Panic => Outcome(vars, Panicked)
        case BadQuote => Outcome(vars, Failed(Unterminated))
        case Value(v, rest) => Parse(rest, vars[key := v], x)
  }

  method LocateKeyName(statement: string) returns (r: Result<(string, string), Error>)
    ensures r == KeyName(statement)
  {
    var src := DropExport(DropLeft(statement, IsGap));
    var key, offset, i := "", 0, 0;
    while i < |src|
      invariant 0 <= i <= |src| && ScanKey(src, i) == ScanKey(src, 0) && key == "" && offset == 0
    {
      var c := src[i];
      if !IsGap(c) {
        if IsSeparator(c) {
          key, offset := src[..i], i + 1;
          break;
        }
        if !IsKeyChar(c) { return Err(BadName); }
      }
      i := i + 1;
    }
    if |src| == 0 { return Err(Nothing); }
    r := Ok((TrimRight(key), DropLeft(src[offset..], IsGap)));
  }

  method ExtractVarValue(src: string, vars: Vars, x: Expansion) returns (r: Extracted)
    ensures r == VarValue(src, vars, x)
  {
    if src == [] || !IsQuote(src[0]) {
      var end := Find(src, IsLineEnd);
      if end == 0 { return Value("", src); }
      var line := src[..end];
      var endOfVar := |line|;
      var i := 0;
      while i < endOfVar
        invariant 0 <= i <= endOfVar == |line|
        invariant i > 0 ==> line[0] != '#' && CommentAt(line, i) == CommentAt(line, 1)
      {
        if line[i] == '#' {
          if i == 0 { return Panic; }
          if IsGap(line[i - 1]) {
            endOfVar := i;
            break;
          }
        }
        i := i + 1;
      }
      return Value(x.vars(DropRight(DropLeft(line[..endOfVar], IsGap), IsGap), vars), src[end..]);
    }
    var i := 1;
    while i < |src|
      invariant 1 <= i <= |src| && ClosingQuote(src, i) == ClosingQuote(src, 1)
    {
      if src[i] == src[0] && src[i - 1] != '\\' {
        return Value(Unquote(src[..i], src[0], vars, x), src[i + 1..]);
      }
      i := i + 1;
    }
    r := BadQuote;
  }

  /** Every round leaves a strictly shorter rest, so the loop ends. */
  method ParseBytes(file: string, given: Vars, x: Expansion) returns (out: Vars, status: Status)
    ensures Outcome(out, status) == Parse(Unix(file), given, x)
  {
    var cutset := Unix(file);
    out := given;
    while true
      invariant Parse(cutset, out, x) == Parse(Unix(file), given, x)
      decreases |cutset|
    {
      var statement := StatementStart(cutset);
      if statement.None? { return out, Done; }
      var key := LocateKeyName(statement.value);
      if key.Err? { return out, Failed(key.error); }
      var value := ExtractVarValue(key.result.1, out, x);
      if value.Panic? { return out, Panicked; }
      if value.BadQuote? { return out, Failed(Unterminated); }
      out := out[key.result.0 := value.value];
      cutset := value.rest;
    }
  }
}
