/** Files written line by line are read back as they were meant. */
module DotenvTheorems {
  import opened Wrappers
  import opened Text
  import opened Dotenv

  // ---------------------------------------------------------------------------
  // Lines

  datatype Word = Bare(text: string) | Quoted(quote: char, text: string)
  {
    function Spelled(): string {
      if Bare? then text else [quote] + text + [quote]
    }
  }

  /** A blank or comment line, or an assignment with all the space around its parts. */
  datatype Line =
    | Skip(text: string)
    | Assign(
        indent: string,
        prefix: string,
        key: string,
        before: string,
        separator: char,
        after: string,
        value: Word,
        tail: string)

  predicate IsBlank(c: char) {
    c == ' ' || c == '\t' || c == 11 as char || c == 12 as char
  }

  predicate Blank(s: string) {
    forall c :: c in s ==> IsBlank(c)
  }

  predicate OneLine(s: string) {
    '\n' !in s && '\r' !in s
  }

  /** White space, and possibly a comment. */
  predicate IsSkip(s: string) {
    OneLine(s) && (var rest := DropLeft(s, IsBlank); rest != [] ==> rest[0] == '#')
  }

  /** Letters, digits, dots and underscores. */
  predicate IsNameChar(c: char) {
    'a' <= c <= 'z' || 'A' <= c <= 'Z' || '0' <= c <= '9' || c == '.' || c == '_'
  }

  predicate IsKey(s: string) {
    s != [] && forall c :: c in s ==> IsNameChar(c)
  }

  /** Unquoted text keeps clear of quotes, of surrounding space and of what reads as a comment. */
  predicate IsBare(s: string) {
    && OneLine(s)
    && (s != [] ==> !IsGap(s[0]) && !IsGap(s[|s| - 1]) && s[0] != '"' && s[0] != '\'' && s[0] != '#')
    && forall j :: 0 < j < |s| ==> !(s[j] == '#' && IsGap(s[j - 1]))
  }

  /** Quoted text may run over several lines and hold anything, but its own quote only inside
      and after a backslash. */
  predicate IsQuotable(q: char, s: string) {
    && (q == '"' || q == '\'') && '\r' !in s
    && (forall j :: 0 <= j < |s| && s[j] == q ==> 0 < j < |s| - 1 && s[j - 1] == '\\')
    && (s != [] ==> s[|s| - 1] != '\\')
  }

  /** What a value stands for: variables are expanded unless it is in single quotes, and
      escapes if it is in double quotes. */
  function Means(w: Word, vars: Vars, x: Expansion): string {
    match w
    case Bare(s) => if s == "" then "" else x.vars(s, vars)
    case Quoted(q, s) => if q == '"' then x.vars(x.escapes(s), vars) else s
  }

  /** Plain text stands for itself. */
  lemma PlainMeansItself(w: Word, vars: Vars, x: Expansion)
    requires Faithful(x) && IsPlain(w.text)
    ensures Means(w, vars, x) == w.text
  {
    assert x.vars(w.text, vars) == w.text && x.escapes(w.text) == w.text;
  }

  /** A comment may follow an unquoted value after some space, but not an empty one. */
  predicate TailFits(w: Word, tail: string) {
    && IsSkip(tail)
    && (w.Bare? ==> (tail != [] ==> IsBlank(tail[0])) && (w.text == [] ==> Blank(tail)))
  }

  predicate IsExport(s: string) {
    s == "" || (|s| > |EXPORT_PREFIX| && EXPORT_PREFIX <= s && Blank(s[|EXPORT_PREFIX|..]))
  }

  predicate IsLine(l: Line) {
    match l
    case Skip(s) => IsSkip(s)
    case Assign(indent, prefix, key, before, sep, after, value, tail) =>
      && Blank(indent) && IsExport(prefix) && IsKey(key) && Blank(before) && (sep == '=' || sep == ':') && Blank(after)
      && (prefix == "" && key == EXPORT_PREFIX ==> before == "")
      && (match value case Bare(s) => IsBare(s) case Quoted(q, s) => IsQuotable(q, s))
      && TailFits(value, tail)
  }

  function Statement(l: Line, more: string): string
    requires l.Assign?
  {
    l.prefix + (l.key + (l.before + ([l.separator] + (l.after + ValueAndTail(l, more)))))
  }

  function ValueAndTail(l: Line, more: string): string
    requires l.Assign?
  {
    l.value.Spelled() + (l.tail + more)
  }

  /** The line, in front of the rest of the file. */
  function Render(l: Line, more: string): string {
    match l
    case Skip(s) => s + more
    case Assign(_, _, _, _, _, _, _, _) => l.indent + Statement(l, more)
  }

  function RenderAll(lines: seq<Line>, eol: string): string {
    if lines == [] then [] else Render(lines[0], eol + RenderAll(lines[1..], eol))
  }

  /** What a list of lines says: the last assignment to a name wins. */
  function Meaning(lines: seq<Line>, vars: Vars, x: Expansion): Vars {
    if lines == [] then vars else Meaning(lines[1..], AfterLine(lines[0], vars, x), x)
  }

  /** A value may refer to the variables given before and those of earlier lines. */
  function AfterLine(l: Line, vars: Vars, x: Expansion): Vars {
    if l.Assign? then vars[l.key := Means(l.value, vars, x)] else vars
  }

  // ---------------------------------------------------------------------------
  // Slices

  lemma {:induction false} DropLeftOver(ws: string, s: string, p: char -> bool)
    requires forall c :: c in ws ==> p(c)
    ensures DropLeft(ws + s, p) == DropLeft(s, p)
  {
    if ws == [] {
      assert ws + s == s;
    } else {
      assert ws[0] in ws;
      assert (ws + s)[1..] == ws[1..] + s;
      DropLeftOver(ws[1..], s, p);
    }
  }

  lemma {:induction false} DropRightOver(s: string, ws: string, p: char -> bool)
    requires forall c :: c in ws ==> p(c)
    ensures DropRight(s + ws, p) == DropRight(s, p)
  {
    if ws == [] {
      assert s + ws == s;
    } else {
      assert ws[|ws| - 1] in ws;
      assert (s + ws)[..|s + ws| - 1] == s + ws[..|ws| - 1];
      DropRightOver(s, ws[..|ws| - 1], p);
    }
  }

  lemma {:induction false} TrimRightOver(s: string, ws: string)
    requires Blank(ws) && (s != [] ==> !IsSpace(s[|s| - 1]))
    ensures TrimRight(s + ws) == s
  {
    if ws == [] {
      assert s + ws == s;
    } else {
      assert IsBlank(ws[|ws| - 1]);
      assert (s + ws)[..|s + ws| - 1] == s + ws[..|ws| - 1];
      TrimRightOver(s, ws[..|ws| - 1]);
    }
  }

  lemma {:induction false} FindOver(s: string, more: string, p: char -> bool)
    requires forall c :: c in s ==> !p(c)
    requires more != [] && p(more[0])
    ensures Find(s + more, p) == |s|
  {
    if s == [] {
      assert s + more == more;
    } else {
      assert s[0] in s;
      assert (s + more)[1..] == s[1..] + more;
      FindOver(s[1..], more, p);
    }
  }

  lemma {:induction false} DropLeftSplits(s: string, p: char -> bool)
    ensures var r := DropLeft(s, p); s == s[..|s| - |r|] + r && forall c :: c in s[..|s| - |r|] ==> p(c)
  {
    if s != [] && p(s[0]) {
      DropLeftSplits(s[1..], p);
      var r := DropLeft(s[1..], p);
      assert s[..|s| - |r|] == [s[0]] + s[1..][..|s| - 1 - |r|];
    }
  }

  // ---------------------------------------------------------------------------
  // Finding the statement

  lemma SameStart(a: string, b: string)
    requires DropLeft(a, IsSpace) == DropLeft(b, IsSpace)
    ensures StatementStart(a) == StatementStart(b)
  {
  }

  lemma SkipIsSkipped(s: string, more: string)
    requires IsSkip(s)
    ensures StatementStart(s + ("\n" + more)) == StatementStart(more)
  {
    var c := DropLeft(s, IsBlank);
    var b := s[..|s| - |c|];
    DropLeftSplits(s, IsBlank);
    var rest := "\n" + more;
    assert s + rest == b + (c + rest);
    forall x | x in b ensures IsSpace(x) {
      assert IsBlank(x);
    }
    DropLeftOver(b, c + rest, IsSpace);
    SameStart(s + rest, c + rest);
    DropLeftOver("\n", more, IsSpace);
    SameStart(rest, more);
    if c == [] {
      assert c + rest == rest;
    } else {
      CommentIsSkipped(c, rest);
    }
  }

  lemma CommentIsSkipped(c: string, rest: string)
    requires c != [] && c[0] == '#' && '\n' !in c && rest != [] && rest[0] == '\n'
    ensures StatementStart(c + rest) == StatementStart(rest)
  {
    var s := c + rest;
    assert s[0] == '#';
    assert DropLeft(s, IsSpace) == s;
    FindIs(s, |c|);
    assert s[|c|..] == rest;
  }

  lemma FindIs(s: string, n: nat)
    requires n < |s| && s[n] == '\n' && '\n' !in s[..n]
    ensures Find(s, IsChar('\n')) == n
  {
    forall j | 0 <= j < n ensures s[j] != '\n' {
      assert s[j] == s[..n][j] && s[..n][j] in s[..n];
    }
  }

  lemma IndentIsSkipped(indent: string, s: string)
    requires Blank(indent) && s != [] && !IsSpace(s[0]) && s[0] != '#'
    ensures StatementStart(indent + s) == Some(s)
  {
    DropLeftOver(indent, s, IsSpace);
    SameStart(indent + s, s);
  }

  // ---------------------------------------------------------------------------
  // Finding the name

  lemma {:induction false} ScanReaches(s: string, i: nat, n: nat)
    requires i <= n < |s| && IsSeparator(s[n])
    requires forall j :: i <= j < n ==> IsGap(s[j]) || IsKeyChar(s[j])
    ensures ScanKey(s, i) == Separator(n)
    decreases n - i
  {
    if i < n {
      ScanReaches(s, i + 1, n);
    }
  }

  /** The keyword is dropped in front of a name, but a variable of that name is not. */
  lemma ExportIsDropped(prefix: string, s: string)
    requires IsExport(prefix) && s != [] && IsKeyChar(s[0])
    requires prefix == "" && EXPORT_PREFIX <= s ==> |s| > |EXPORT_PREFIX| && !IsGap(s[|EXPORT_PREFIX|])
    ensures DropExport(prefix + s) == s
  {
    if prefix == "" {
      assert prefix + s == s;
    } else {
      var e := prefix[|EXPORT_PREFIX|..];
      assert prefix + s == EXPORT_PREFIX + (e + s);
      assert (prefix + s)[|EXPORT_PREFIX|..] == e + s;
      assert e[0] in e;
      DropLeftOver(e, s, IsGap);
    }
  }

  /** The name and the rest of a statement, on either side of its separator. */
  ghost predicate SplitsAt(s: string, n: nat, key: string, rest: string) {
    n < |s| && ScanKey(s, 0) == Separator(n) && TrimRight(s[..n]) == key && s[n + 1..] == rest
  }

  /** A statement, with its keyword or without. */
  ghost predicate LeadsTo(t: string, s: string) {
    t != [] && !IsGap(t[0]) && !IsSpace(t[0]) && t[0] != '#' && DropExport(t) == s
  }

  lemma NamePart(key: string, before: string, separator: char, rest: string)
    requires IsKey(key) && Blank(before) && IsSeparator(separator)
    ensures SplitsAt(key + (before + ([separator] + rest)), |key| + |before|, key, rest)
  {
    var s := key + (before + ([separator] + rest));
    var n := |key| + |before|;
    assert s == (key + before) + ([separator] + rest);
    assert s[n] == separator;
    assert s[..n] == key + before;
    forall j | 0 <= j < n ensures IsGap(s[j]) || IsKeyChar(s[j]) {
      assert s[j] in key || s[j] in before;
    }
    ScanReaches(s, 0, n);
    assert key[|key| - 1] in key;
    TrimRightOver(key, before);
  }

  lemma NameOfStatement(prefix: string, key: string, before: string, separator: char, rest: string)
    requires IsExport(prefix) && IsKey(key) && Blank(before) && IsSeparator(separator)
    requires prefix == "" && key == EXPORT_PREFIX ==> before == ""
    ensures Names(prefix + (key + (before + ([separator] + rest))), key, rest)
  {
    var back := [separator] + rest;
    assert back[0] == separator;
    NamePart(key, before, separator, rest);
    KeywordIsDropped(prefix, key, before, back);
    NameAt(prefix + (key + (before + back)), key + (before + back), |key| + |before|, key, rest);
  }

  lemma KeywordIsDropped(prefix: string, key: string, before: string, rest: string)
    requires IsExport(prefix) && IsKey(key) && Blank(before) && rest != [] && IsSeparator(rest[0])
    requires prefix == "" && key == EXPORT_PREFIX ==> before == ""
    ensures LeadsTo(prefix + (key + (before + rest)), key + (before + rest))
  {
    var s := key + (before + rest);
    KeyIsNoExport(prefix, key, before, rest);
    assert key[0] in key && s[0] == key[0];
    ExportIsDropped(prefix, s);
    StatementBegins(prefix, s);
  }

  ghost predicate Names(statement: string, key: string, rest: string) {
    KeyName(statement) == Ok((key, DropLeft(rest, IsGap)))
  }

  lemma NameAt(statement: string, s: string, n: nat, key: string, rest: string)
    requires LeadsTo(statement, s) && SplitsAt(s, n, key, rest)
    ensures Names(statement, key, rest)
  {
  }

  lemma StatementBegins(prefix: string, s: string)
    requires IsExport(prefix) && s != [] && IsKeyChar(s[0])
    ensures var t := prefix + s; t != [] && IsKeyChar(t[0]) && !IsGap(t[0]) && !IsSpace(t[0]) && t[0] != '#'
  {
    if prefix != "" {
      assert (prefix + s)[0] == EXPORT_PREFIX[0];
    }
  }

  lemma KeyIsNoExport(prefix: string, key: string, before: string, rest: string)
    requires IsKey(key) && Blank(before) && rest != [] && IsSeparator(rest[0])
    requires prefix == "" && key == EXPORT_PREFIX ==> before == ""
    ensures var s := key + (before + rest);
            prefix == "" && EXPORT_PREFIX <= s ==> |s| > |EXPORT_PREFIX| && !IsGap(s[|EXPORT_PREFIX|])
  {
    var s := key + (before + rest);
    var n := |EXPORT_PREFIX|;
    assert before != [] ==> before[0] in before;
    assert s[|key|] == if before == [] then rest[0] else before[0];
    if |key| < n {
      NotTheKeyword(s, |key|);
    }
    if prefix == "" && EXPORT_PREFIX <= s {
      if |key| > n {
        assert s[n] == key[n] && key[n] in key;
      } else if |key| == n {
        assert s[..n] == key;
        assert s[n] == rest[0];
      }
    }
  }

  lemma NotTheKeyword(s: string, i: nat)
    requires i < |s| && i < |EXPORT_PREFIX| && !('a' <= s[i] <= 'z')
    ensures !(EXPORT_PREFIX <= s)
  {
    assert s[i] != EXPORT_PREFIX[i];
  }

  /** A last line without any separator has an empty name, and all of it is the value. */
  lemma NoSeparatorMeansNoName(s: string)
    requires s != [] && IsNameChar(s[0]) && !(EXPORT_PREFIX <= s)
    requires forall j :: 0 <= j < |s| ==> IsNameChar(s[j]) || IsBlank(s[j])
    ensures KeyName(s) == Ok(("", s))
  {
    ScanToEnd(s, 0);
    WholeStatement(s);
  }

  lemma {:induction false} ScanToEnd(s: string, i: nat)
    requires i <= |s| && forall j :: i <= j < |s| ==> IsNameChar(s[j]) || IsBlank(s[j])
    ensures ScanKey(s, i) == NoSeparator
    decreases |s| - i
  {
    if i < |s| { ScanToEnd(s, i + 1); }
  }

  lemma WholeStatement(s: string)
    requires s != [] && !IsGap(s[0]) && !(EXPORT_PREFIX <= s) && ScanKey(s, 0) == NoSeparator
    ensures KeyName(s) == Ok(("", s))
  {
    assert DropLeft(s, IsGap) == s && DropExport(s) == s;
  }

  /** A character that belongs neither in a name nor around one. */
  predicate IsBad(c: char) {
    !IsNameChar(c) && c != '=' && c != ':' && !IsGap(c)
  }

  /** A name is refused exactly if such a character comes before any separator. */
  lemma {:induction false} BadNameIff(s: string, i: nat)
    requires i <= |s|
    ensures ScanKey(s, i) == BadChar <==>
              exists j :: i <= j < |s| && IsBad(s[j]) && forall k :: i <= k < j ==> s[k] != '=' && s[k] != ':'
    decreases |s| - i
  {
    if i < |s| {
      BadNameIff(s, i + 1);
      if j :| i < j < |s| && IsBad(s[j]) && forall k :: i <= k < j ==> s[k] != '=' && s[k] != ':' {
        assert forall k :: i + 1 <= k < j ==> s[k] != '=' && s[k] != ':';
      }
    }
  }

  // ---------------------------------------------------------------------------
  // Finding the value

  lemma {:induction false} CommentReaches(line: string, i: nat, n: nat)
    requires 1 <= i <= n <= |line|
    requires forall j :: i <= j < n ==> !(line[j] == '#' && IsGap(line[j - 1]))
    requires n < |line| ==> line[n] == '#' && IsGap(line[n - 1])
    ensures CommentAt(line, i) == n
    decreases n - i
  {
    if i < n {
      CommentReaches(line, i + 1, n);
    }
  }

  /** The comment is cut off an unquoted value, together with the space in front of it. */
  lemma CommentIsCut(text: string, b: string, c: string)
    requires IsBare(text) && text != [] && Blank(b)
    requires c != [] ==> b != [] && c[0] == '#'
    ensures var line := text + b + c; line[..CommentAt(line, 1)] == text + b
  {
    var line := text + b + c;
    var n := |text| + |b|;
    forall j | 1 <= j < n ensures !(line[j] == '#' && IsGap(line[j - 1])) {
      if j < |text| {
        assert line[j] == text[j] && line[j - 1] == text[j - 1];
      } else {
        assert line[j] == b[j - |text|] && b[j - |text|] in b;
      }
    }
    if c != [] {
      assert line[n] == c[0] && line[n - 1] == b[|b| - 1] && b[|b| - 1] in b;
    }
    CommentReaches(line, 1, n);
  }

  lemma TextIsTrimmed(text: string, b: string)
    requires IsBare(text) && text != [] && Blank(b)
    ensures DropRight(DropLeft(text + b, IsGap), IsGap) == text
  {
    assert (text + b)[0] == text[0];
    assert DropLeft(text + b, IsGap) == text + b;
    forall x | x in b ensures IsGap(x) {
      assert IsBlank(x);
    }
    DropRightOver(text, b, IsGap);
  }

  lemma TailSplits(tail: string) returns (b: string, c: string)
    requires IsSkip(tail) && (tail != [] ==> IsBlank(tail[0]))
    ensures tail == b + c && Blank(b) && (c != [] ==> b != [] && c[0] == '#')
  {
    c := DropLeft(tail, IsBlank);
    b := tail[..|tail| - |c|];
    DropLeftSplits(tail, IsBlank);
    forall x | x in b ensures IsBlank(x) {
    }
  }

  lemma BareLine(text: string, tail: string, vars: Vars, x: Expansion)
    requires IsBare(text) && text != []
    requires IsSkip(tail) && (tail != [] ==> IsBlank(tail[0]))
    ensures Unquoted(text + tail, vars, x) == x.vars(text, vars)
  {
    var b, c := TailSplits(tail);
    assert text + tail == text + b + c;
    CommentIsCut(text, b, c);
    TextIsTrimmed(text, b);
  }

  lemma LineEndsThere(text: string, tail: string, rest: string)
    requires OneLine(text) && OneLine(tail) && rest != [] && (rest[0] == '\n' || rest[0] == '\r')
    ensures Find(text + (tail + rest), IsLineEnd) == |text + tail|
  {
    assert text + (tail + rest) == (text + tail) + rest;
    FindOver(text + tail, rest, IsLineEnd);
  }

  lemma BareValue(text: string, tail: string, rest: string, vars: Vars, x: Expansion)
    requires IsBare(text) && text != []
    requires IsSkip(tail) && (tail != [] ==> IsBlank(tail[0]))
    requires rest != [] && (rest[0] == '\n' || rest[0] == '\r')
    ensures VarValue(text + (tail + rest), vars, x) == Value(x.vars(text, vars), rest)
  {
    var src := text + (tail + rest);
    LineEndsThere(text, tail, rest);
    BareLine(text, tail, vars, x);
    assert src[0] == text[0];
    assert src[..|text + tail|] == text + tail && src[|text + tail|..] == rest;
    ValueOfLine(src, |text + tail|, x.vars(text, vars), vars, x);
  }

  lemma ValueOfLine(src: string, end: nat, text: string, vars: Vars, x: Expansion)
    requires src != [] && !IsQuote(src[0]) && src[0] != '#'
    requires 0 < end <= |src| && Find(src, IsLineEnd) == end && Unquoted(src[..end], vars, x) == text
    ensures VarValue(src, vars, x) == Value(text, src[end..])
  {
  }

  lemma {:induction false} QuoteReaches(src: string, i: nat, n: nat)
    requires 1 <= i <= n < |src| && src[n] == src[0] && src[n - 1] != '\\'
    requires forall j :: i <= j < n ==> src[j] != src[0] || src[j - 1] == '\\'
    ensures ClosingQuote(src, i) == n
    decreases n - i
  {
    if i < n {
      QuoteReaches(src, i + 1, n);
    }
  }

  lemma QuotesAreTrimmed(q: char, text: string)
    requires text != [] ==> text[0] != q && text[|text| - 1] != q
    ensures DropLeft(DropRight([q] + text, IsChar(q)), IsChar(q)) == text
  {
    if text != [] {
      var quoted := [q] + text;
      assert quoted[|quoted| - 1] == text[|text| - 1];
      assert DropRight(quoted, IsChar(q)) == quoted;
      assert quoted[1..] == text;
    }
  }

  lemma QuotedValue(q: char, text: string, rest: string, vars: Vars, x: Expansion)
    requires IsQuotable(q, text)
    ensures VarValue([q] + text + [q] + rest, vars, x) == Value(Means(Quoted(q, text), vars, x), rest)
  {
    var src := [q] + text + [q] + rest;
    var n := 1 + |text|;
    forall j | 1 <= j < n ensures src[j] != q || src[j - 1] == '\\' {
      assert src[j] == text[j - 1] && (j > 1 ==> src[j - 1] == text[j - 2]);
    }
    assert src[n] == q && src[n - 1] == if text == [] then q else text[|text| - 1];
    QuoteReaches(src, 1, n);
    assert src[..n] == [q] + text && src[n + 1..] == rest;
    QuotesAreTrimmed(q, text);
    ValueOfQuoted(src, n, vars, x);
  }

  lemma ValueOfQuoted(src: string, n: nat, vars: Vars, x: Expansion)
    requires src != [] && IsQuote(src[0]) && 1 <= n < |src| && ClosingQuote(src, 1) == n
    ensures VarValue(src, vars, x) == Value(Unquote(src[..n], src[0], vars, x), src[n + 1..])
  {
  }

  /** A quoted value is refused exactly if no quote behind the first is free of a backslash. */
  lemma {:induction false} NoClosingQuote(src: string, i: nat)
    requires 1 <= i <= |src|
    ensures ClosingQuote(src, i) == |src| <==> forall j :: i <= j < |src| && src[j] == src[0] ==> src[j - 1] == '\\'
    decreases |src| - i
  {
    if i < |src| {
      NoClosingQuote(src, i + 1);
    }
  }

  lemma BadQuoteIff(src: string, vars: Vars, x: Expansion)
    ensures VarValue(src, vars, x) == BadQuote <==>
              && src != [] && (src[0] == '"' || src[0] == '\'')
              && forall j :: 1 <= j < |src| && src[j] == src[0] ==> src[j - 1] == '\\'
  {
    if src != [] {
      NoClosingQuote(src, 1);
    }
  }

  // ---------------------------------------------------------------------------
  // One line, and all of them

  /** What is left of a line once its value is read, in front of the rest. */
  function Left(w: Word, tail: string, rest: string): string {
    if w.Bare? then rest else tail + rest
  }

  predicate IsWord(w: Word) {
    match w case Bare(s) => IsBare(s) case Quoted(q, s) => IsQuotable(q, s)
  }

  lemma ValueOfStatement(after: string, w: Word, tail: string, rest: string, vars: Vars, x: Expansion)
    requires Blank(after) && IsWord(w) && TailFits(w, tail)
    requires rest != [] && rest[0] == '\n'
    ensures VarValue(DropLeft(after + (w.Spelled() + (tail + rest)), IsGap), vars, x)
            == Value(Means(w, vars, x), Left(w, tail, rest))
  {
    var src := w.Spelled() + (tail + rest);
    BlanksAreGaps(after);
    DropLeftOver(after, src, IsGap);
    if w.Quoted? {
      assert src == [w.quote] + w.text + [w.quote] + (tail + rest);
      QuotedValue(w.quote, w.text, tail + rest, vars, x);
    } else if w.text != [] {
      assert src[0] == w.text[0];
      BareValue(w.text, tail, rest, vars, x);
    } else {
      assert src == tail + rest;
      BlanksAreGaps(tail);
      DropLeftOver(tail, rest, IsGap);
      EmptyValue(rest, vars, x);
    }
  }

  lemma EmptyValue(rest: string, vars: Vars, x: Expansion)
    requires rest != [] && rest[0] == '\n'
    ensures DropLeft(rest, IsGap) == rest && VarValue(rest, vars, x) == Value("", rest)
  {
  }

  lemma BlanksAreGaps(s: string)
    requires Blank(s)
    ensures forall c :: c in s ==> IsGap(c) && IsSpace(c)
  {
    forall c | c in s ensures IsGap(c) && IsSpace(c) {
      assert IsBlank(c);
    }
  }

  /** A line is read completely, and then the rest is. */
  lemma AssignIsRead(l: Line, more: string, vars: Vars, x: Expansion)
    requires IsLine(l) && l.Assign?
    ensures Parse(Render(l, "\n" + more), vars, x) == Parse(more, AfterLine(l, vars, x), x)
  {
    var rest := "\n" + more;
    var s := Statement(l, rest);
    StatementIsFound(l, rest);
    var after := l.after + ValueAndTail(l, rest);
    NameOfStatement(l.prefix, l.key, l.before, l.separator, after);
    ValueOfStatement(l.after, l.value, l.tail, rest, vars, x);
    var left := Left(l.value, l.tail, rest);
    OneRound(Render(l, rest), s, l.key, DropLeft(after, IsGap), Means(l.value, vars, x), left, vars, x);
    LeftIsSkipped(l.value, l.tail, more);
    SameParse(left, more, AfterLine(l, vars, x), x);
  }

  lemma StatementIsFound(l: Line, rest: string)
    requires IsLine(l) && l.Assign?
    ensures StatementStart(Render(l, rest)) == Some(Statement(l, rest))
  {
    var back := [l.separator] + (l.after + ValueAndTail(l, rest));
    KeywordIsDropped(l.prefix, l.key, l.before, back);
    assert Statement(l, rest) == l.prefix + (l.key + (l.before + back));
    IndentIsSkipped(l.indent, Statement(l, rest));
  }

  lemma OneRound(file: string, s: string, key: string, left: string, value: string, rest: string,
                 vars: Vars, x: Expansion)
    requires StatementStart(file) == Some(s) && KeyName(s) == Ok((key, left))
    requires VarValue(left, vars, x) == Value(value, rest)
    ensures Parse(file, vars, x) == Parse(rest, vars[key := value], x)
  {
  }

  /** A statement without a proper name, or with a quote that is not closed, ends the reading
      with an error; what was read before is kept. */
  lemma ErrorsEndIt(file: string, s: string, vars: Vars, x: Expansion)
    requires StatementStart(file) == Some(s)
    ensures KeyName(s).Err? ==> Parse(file, vars, x) == Outcome(vars, Failed(KeyName(s).error))
    ensures KeyName(s).Ok? && VarValue(KeyName(s).result.1, vars, x) == BadQuote ==>
              Parse(file, vars, x) == Outcome(vars, Failed(Unterminated))
  {
  }

  lemma SameParse(a: string, b: string, vars: Vars, x: Expansion)
    requires StatementStart(a) == StatementStart(b)
    ensures Parse(a, vars, x) == Parse(b, vars, x)
  {
  }

  lemma LeftIsSkipped(w: Word, tail: string, more: string)
    requires IsSkip(tail)
    ensures StatementStart(Left(w, tail, "\n" + more)) == StatementStart(more)
  {
    SkipIsSkipped(tail, more);
    SkipIsSkipped("", more);
    assert "" + ("\n" + more) == "\n" + more;
  }

  /** A file made of well-formed lines is read to its end, and the last assignment to each
      name wins. */
  lemma {:induction false} LinesAreRead(lines: seq<Line>, vars: Vars, x: Expansion)
    requires forall l :: l in lines ==> IsLine(l)
    ensures Parse(RenderAll(lines, "\n"), vars, x) == Outcome(Meaning(lines, vars, x), Done)
  {
    if lines != [] {
      var l := lines[0];
      var more := RenderAll(lines[1..], "\n");
      assert IsLine(l);
      if l.Assign? {
        AssignIsRead(l, more, vars, x);
        LinesAreRead(lines[1..], AfterLine(l, vars, x), x);
      } else {
        SkipIsSkipped(l.text, more);
        SameParse(Render(l, "\n" + more), more, vars, x);
        LinesAreRead(lines[1..], vars, x);
      }
    }
  }

  lemma {:induction false} LastAssignmentWins(lines: seq<Line>, vars: Vars, x: Expansion, i: nat)
    requires i < |lines| && lines[i].Assign?
    requires forall j :: i < j < |lines| && lines[j].Assign? ==> lines[j].key != lines[i].key
    ensures lines[i].key in Meaning(lines, vars, x)
    ensures Meaning(lines, vars, x)[lines[i].key] == Means(lines[i].value, Meaning(lines[..i], vars, x), x)
    decreases |lines|
  {
    var now := AfterLine(lines[0], vars, x);
    if i > 0 {
      LastAssignmentWins(lines[1..], now, x, i - 1);
      assert lines[..i][1..] == lines[1..][..i - 1];
    } else {
      forall j | 0 <= j < |lines[1..]| && lines[1..][j].Assign? ensures lines[1..][j].key != lines[0].key {
        assert lines[1..][j] == lines[j + 1];
      }
      OthersKeep(lines[1..], now, x, lines[0].key);
    }
  }

  /** What no line assigns stays as given. */
  lemma {:induction false} OthersKeep(lines: seq<Line>, vars: Vars, x: Expansion, key: string)
    requires forall j :: 0 <= j < |lines| && lines[j].Assign? ==> lines[j].key != key
    ensures key in Meaning(lines, vars, x) <==> key in vars
    ensures key in vars ==> Meaning(lines, vars, x)[key] == vars[key]
  {
    if lines != [] {
      OthersKeep(lines[1..], AfterLine(lines[0], vars, x), x, key);
    }
  }

  /** A file of plain values is read back literally. */
  lemma PlainFileRoundTrip(lines: seq<Line>, eol: string, vars: Vars, x: Expansion, i: nat)
    requires Faithful(x) && (eol == "\n" || eol == "\r\n") && forall l :: l in lines ==> IsLine(l)
    requires i < |lines| && lines[i].Assign? && IsPlain(lines[i].value.text)
    requires forall j :: i < j < |lines| && lines[j].Assign? ==> lines[j].key != lines[i].key
    ensures var r := Parse(Unix(RenderAll(lines, eol)), vars, x);
            r.status == Done && lines[i].key in r.vars && r.vars[lines[i].key] == lines[i].value.text
  {
    FileRoundTrip(lines, eol, vars, x);
    LastAssignmentWins(lines, vars, x, i);
    PlainMeansItself(lines[i].value, Meaning(lines[..i], vars, x), x);
  }

  // ---------------------------------------------------------------------------
  // The other kind of line end

  lemma {:induction false} UnixOver(s: string, more: string)
    requires '\r' !in s
    ensures Unix(s + more) == s + Unix(more)
  {
    if s == [] {
      assert s + more == more;
    } else {
      assert s[0] in s;
      assert (s + more)[1..] == s[1..] + more;
      UnixOver(s[1..], more);
    }
  }

  lemma NoReturns(l: Line)
    requires IsLine(l)
    ensures '\r' !in Render(l, "")
  {
    if l.Assign? {
      forall s | s in [l.indent, l.before, l.after] ensures '\r' !in s {
        assert '\r' in s ==> IsBlank('\r');
      }
      assert '\r' in l.key ==> IsKeyChar('\r');
      if l.prefix != "" {
        var e := l.prefix[|EXPORT_PREFIX|..];
        assert l.prefix == EXPORT_PREFIX + e;
        assert '\r' in e ==> IsBlank('\r');
      }
      assert '\r' !in ValueAndTail(l, "");
      assert '\r' !in Statement(l, "");
    }
  }

  /** A line as one string, without what follows. */
  lemma LineText(l: Line, more: string)
    requires IsLine(l)
    ensures Render(l, more) == Render(l, "") + more
    ensures '\r' !in Render(l, "")
  {
    NoReturns(l);
    if l.Assign? {
      StatementText(l, more);
      assert l.indent + (Statement(l, "") + more) == l.indent + Statement(l, "") + more;
    }
  }

  lemma StatementText(l: Line, more: string)
    requires l.Assign?
    ensures Statement(l, more) == Statement(l, "") + more
  {
    var w := l.value.Spelled();
    assert w + (l.tail + more) == w + (l.tail + "") + more;
    FivePieces(l.prefix, l.key, l.before, [l.separator], l.after, ValueAndTail(l, ""), more);
  }

  lemma FivePieces(a: string, b: string, c: string, d: string, e: string, v: string, more: string)
    ensures a + (b + (c + (d + (e + (v + more))))) == a + (b + (c + (d + (e + v)))) + more
  {
    assert e + (v + more) == (e + v) + more;
    assert d + ((e + v) + more) == (d + (e + v)) + more;
    assert c + ((d + (e + v)) + more) == (c + (d + (e + v))) + more;
  }

  lemma {:induction false} UnixLines(lines: seq<Line>, eol: string)
    requires eol == "\n" || eol == "\r\n"
    requires forall l :: l in lines ==> IsLine(l)
    ensures Unix(RenderAll(lines, eol)) == RenderAll(lines, "\n")
  {
    if lines != [] {
      var l := lines[0];
      var more := RenderAll(lines[1..], eol);
      assert IsLine(l);
      UnixLines(lines[1..], eol);
      LineText(l, eol + more);
      LineText(l, "\n" + RenderAll(lines[1..], "\n"));
      UnixOver(Render(l, ""), eol + more);
      LineEnd(eol, more);
    }
  }

  lemma LineEnd(eol: string, more: string)
    requires eol == "\n" || eol == "\r\n"
    ensures Unix(eol + more) == "\n" + Unix(more)
  {
    assert (eol + more)[|eol|..] == more;
  }

  /** The round trip, whichever way the lines are ended. */
  lemma FileRoundTrip(lines: seq<Line>, eol: string, vars: Vars, x: Expansion)
    requires eol == "\n" || eol == "\r\n"
    requires forall l :: l in lines ==> IsLine(l)
    ensures Parse(Unix(RenderAll(lines, eol)), vars, x) == Outcome(Meaning(lines, vars, x), Done)
  {
    UnixLines(lines, eol);
    LinesAreRead(lines, vars, x);
  }

  // ---------------------------------------------------------------------------
  // The parser's crash

  /** A comment after an empty value. */
  predicate Crashing(l: Line) {
    l.Assign? && IsLine(l.(tail := "")) && l.value == Bare("") && IsSkip(l.tail) && !Blank(l.tail)
  }

  lemma CrashingLine(l: Line, more: string, vars: Vars, x: Expansion)
    requires Crashing(l)
    ensures Parse(Render(l, more), vars, x) == Outcome(vars, Panicked)
  {
    var rest := l.tail + more;
    var read := l.(tail := "");
    assert Render(l, more) == Render(read, rest);
    CommentIsLeft(l.after, l.tail, more);
    CommentCrashes(read, rest, vars, x);
  }

  lemma CommentCrashes(l: Line, rest: string, vars: Vars, x: Expansion)
    requires IsLine(l) && l.Assign? && l.value == Bare("") && l.tail == ""
    requires var left := DropLeft(l.after + rest, IsGap); left != [] && left[0] == '#'
    ensures Parse(Render(l, rest), vars, x) == Outcome(vars, Panicked)
  {
    var after := l.after + ValueAndTail(l, rest);
    assert ValueAndTail(l, rest) == rest;
    StatementIsFound(l, rest);
    NameOfStatement(l.prefix, l.key, l.before, l.separator, after);
    Crash(Render(l, rest), Statement(l, rest), l.key, DropLeft(after, IsGap), vars, x);
  }

  lemma CommentIsLeft(after: string, tail: string, more: string)
    requires Blank(after) && IsSkip(tail) && !Blank(tail)
    ensures var left := DropLeft(after + (tail + more), IsGap); left != [] && left[0] == '#'
  {
    var b, c := BlanksInFront(tail);
    assert c == [] ==> b == tail;
    BlanksAreGaps(after);
    BlanksAreGaps(b);
    DropLeftOver(after, tail + more, IsGap);
    assert tail + more == b + (c + more);
    DropLeftOver(b, c + more, IsGap);
  }

  lemma BlanksInFront(tail: string) returns (b: string, c: string)
    requires IsSkip(tail)
    ensures tail == b + c && Blank(b) && (c != [] ==> c[0] == '#')
  {
    c := DropLeft(tail, IsBlank);
    b := tail[..|tail| - |c|];
    DropLeftSplits(tail, IsBlank);
    forall d | d in b ensures IsBlank(d) {
    }
  }

  lemma Crash(file: string, s: string, key: string, left: string, vars: Vars, x: Expansion)
    requires StatementStart(file) == Some(s) && KeyName(s) == Ok((key, left)) && left != [] && left[0] == '#'
    ensures Parse(file, vars, x) == Outcome(vars, Panicked)
  {
  }

  /** The number of lines in front of the first that crashes. */
  function Readable(lines: seq<Line>): (n: nat)
    ensures n <= |lines|
  {
    if lines == [] || Crashing(lines[0]) then 0 else 1 + Readable(lines[1..])
  }

  /** Such a file crashes the parser exactly if one of its lines has a comment after an
      empty value; the lines in front of it have taken effect by then. */
  lemma {:induction false} CrashesIff(lines: seq<Line>, vars: Vars, x: Expansion)
    requires forall l :: l in lines ==> IsLine(l) || Crashing(l)
    ensures Parse(RenderAll(lines, "\n"), vars, x).status == Panicked <==> exists l :: l in lines && Crashing(l)
    ensures Parse(RenderAll(lines, "\n"), vars, x).vars == Meaning(lines[..Readable(lines)], vars, x)
  {
    if lines != [] {
      var l := lines[0];
      var more := RenderAll(lines[1..], "\n");
      assert lines == [l] + lines[1..];
      var n := Readable(lines[1..]);
      if Crashing(l) {
        CrashingLine(l, "\n" + more, vars, x);
      } else {
        assert lines[..Readable(lines)] == [l] + lines[1..][..n];
        assert ([l] + lines[1..][..n])[1..] == lines[1..][..n];
        assert IsLine(l);
        if l.Assign? {
          AssignIsRead(l, more, vars, x);
          CrashesIff(lines[1..], AfterLine(l, vars, x), x);
        } else {
          SkipIsSkipped(l.text, more);
          SameParse(Render(l, "\n" + more), more, vars, x);
          CrashesIff(lines[1..], vars, x);
        }
      }
    }
  }
}
