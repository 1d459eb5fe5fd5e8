/** Choosing the user ID of a new machine from the lines of the password file. */
module VacantUid {
  import opened Wrappers
  import opened Text
  import opened Decimal

  const MIN_UID := 1024
  const MAX_UID := 65534

  // ---------------------------------------------------------------------------
  // Reading a line

  datatype Reading = Uid(uid: int) | NotANumber | TooFewFields

  /** The third field. A line that has none crashes the program. */
  function ReadLine(line: string): Reading {
    ReadFields(Split(line, ':'))
  }

  function ReadFields(fields: seq<string>): Reading {
    if |fields| < 3 then TooFewFields
    else
      match Atoi(fields[2])
      case None => NotANumber
      case Some(n) => Uid(n)
  }

  /** A line whose third field is a number is read as that number, whatever the other fields. */
  lemma LineIsRead(fields: seq<string>, uid: int)
    requires |fields| >= 3 && forall f :: f in fields ==> ':' !in f
    requires Atoi(fields[2]) == Some(uid)
    ensures ReadLine(Join(fields, ':')) == Uid(uid)
  {
    SplitJoin(fields, ':');
    FieldsAreRead(Join(fields, ':'), fields);
  }

  lemma FieldsAreRead(line: string, fields: seq<string>)
    requires Split(line, ':') == fields
    ensures ReadLine(line) == ReadFields(fields)
  {
  }

  lemma ShortLineCrashes(fields: seq<string>)
    requires 0 < |fields| < 3 && forall f :: f in fields ==> ':' !in f
    ensures ReadLine(Join(fields, ':')) == TooFewFields
  {
    SplitJoin(fields, ':');
  }

  lemma NoNumberFails(fields: seq<string>)
    requires |fields| >= 3 && (forall f :: f in fields ==> ':' !in f) && Atoi(fields[2]).None?
    ensures ReadLine(Join(fields, ':')) == NotANumber
  {
    SplitJoin(fields, ':');
  }

  // ---------------------------------------------------------------------------
  // Slices of integers

  ghost predicate Distinct(s: seq<int>) {
    forall i, j :: 0 <= i < j < |s| ==> s[i] != s[j]
  }

  ghost predicate Increasing(s: seq<int>) {
    forall i :: 0 < i < |s| ==> s[i - 1] < s[i]
  }

  function InsertSorted(x: int, s: seq<int>): seq<int> {
    if s == [] || x <= s[0] then [x] + s else [s[0]] + InsertSorted(x, s[1..])
  }

  /** sort.Ints */
  function Sorted(s: seq<int>): seq<int> {
    if s == [] then [] else InsertSorted(s[0], Sorted(s[1..]))
  }

  lemma {:induction false} InsertSortedKeeps(x: int, s: seq<int>)
    requires Increasing(s) && x !in s
    ensures var r := InsertSorted(x, s);
            && Increasing(r) && (forall y :: y in r <==> y == x || y in s)
            && r[0] == if s == [] || x < s[0] then x else s[0]
  {
    if s != [] {
      assert s == [s[0]] + s[1..];
      if x >= s[0] {
        forall i | 0 < i < |s[1..]| ensures s[1..][i - 1] < s[1..][i] {
          assert s[i] < s[i + 1];
        }
        InsertSortedKeeps(x, s[1..]);
        assert |s| > 1 ==> s[0] < s[1];
      }
    }
  }

  lemma {:induction false} SortedIsIncreasing(s: seq<int>)
    requires Distinct(s)
    ensures Increasing(Sorted(s)) && forall y :: y in Sorted(s) <==> y in s
  {
    if s != [] {
      SortedIsIncreasing(s[1..]);
      assert s == [s[0]] + s[1..];
      assert s[0] !in s[1..];
      InsertSortedKeeps(s[0], Sorted(s[1..]));
    }
  }

  lemma {:induction false} IncreasingOrder(s: seq<int>, i: nat, j: nat)
    requires Increasing(s) && i < j < |s|
    ensures s[i] < s[j]
    decreases j - i
  {
    if i + 1 < j {
      IncreasingOrder(s, i, j - 1);
    }
  }

  // ---------------------------------------------------------------------------
  // The choice

  datatype Outcome = Vacant(uid: int) | NoAvailableUids | BadLine | Crash

  predicate Good(line: string) {
    ReadLine(line).Uid?
  }

  ghost predicate Taken(lines: seq<string>, uid: int) {
    exists k :: 0 <= k < |lines| && ReadLine(lines[k]) == Uid(uid)
  }

  method Contains(uids: seq<int>, x: int) returns (found: bool)
    ensures found <==> x in uids
  {
    for i := 0 to |uids|
      invariant x !in uids[..i]
    {
      if uids[i] == x { return true; }
    }
    found := false;
  }

  /** The IDs that matter, each once, after a sentinel just below the range. */
  ghost predicate Collected(lines: seq<string>, n: nat, uids: seq<int>)
    requires n <= |lines|
  {
    && Distinct(uids) && MIN_UID - 1 in uids
    && forall u :: u in uids <==> u == MIN_UID - 1 || (u >= MIN_UID && Taken(lines[..n], u))
  }

  lemma CollectNone(lines: seq<string>)
    ensures Collected(lines, 0, [MIN_UID - 1])
  {
  }

  method Collect(uids: seq<int>, uid: int) returns (r: seq<int>)
    ensures r == if uid >= MIN_UID && uid !in uids then uids + [uid] else uids
  {
    r := uids;
    if uid >= MIN_UID {
      var known := Contains(uids, uid);
      if !known {
        r := uids + [uid];
      }
    }
  }

  lemma CollectOne(lines: seq<string>, n: nat, uids: seq<int>, uid: int)
    requires n < |lines| && Collected(lines, n, uids) && ReadLine(lines[n]) == Uid(uid)
    ensures Collected(lines, n + 1, if uid >= MIN_UID && uid !in uids then uids + [uid] else uids)
  {
    var before, after := lines[..n], lines[..n + 1];
    assert after == before + [lines[n]];
    forall u ensures Taken(after, u) <==> Taken(before, u) || u == uid {
      if Taken(before, u) {
        var k :| 0 <= k < |before| && ReadLine(before[k]) == Uid(u);
        assert after[k] == before[k];
      }
      assert after[n] == lines[n];
    }
  }

  lemma FirstBadLine(lines: seq<string>, n: nat, r: Outcome)
    requires n < |lines| && (forall j :: 0 <= j < n ==> Good(lines[j])) && !Good(lines[n])
    requires r == if ReadLine(lines[n]) == TooFewFields then Crash else BadLine
    ensures !forall k :: 0 <= k < |lines| ==> Good(lines[k])
    ensures StopsAtFirstBad(lines, r)
  {
  }

  ghost predicate StopsAtFirstBad(lines: seq<string>, r: Outcome) {
    exists k :: 0 <= k < |lines| && (forall j :: 0 <= j < k ==> Good(lines[j])) &&
      ((r == Crash && ReadLine(lines[k]) == TooFewFields) || (r == BadLine && ReadLine(lines[k]) == NotANumber))
  }

  method ReadUids(lines: seq<string>) returns (bad: Option<Outcome>, uids: seq<int>)
    ensures bad == None <==> forall k :: 0 <= k < |lines| ==> Good(lines[k])
    ensures bad == None ==> Collected(lines, |lines|, uids)
    ensures bad.Some? ==> StopsAtFirstBad(lines, bad.value)
  {
    bad, uids := None, [MIN_UID - 1];
    CollectNone(lines);
    for n := 0 to |lines|
      invariant forall k :: 0 <= k < n ==> Good(lines[k])
      invariant Collected(lines, n, uids)
    {
      var reading := ReadLine(lines[n]);
      match reading {
        case TooFewFields =>
          FirstBadLine(lines, n, Crash);
          return Some(Crash), uids;
        case NotANumber =>
          FirstBadLine(lines, n, BadLine);
          return Some(BadLine), uids;
        case Uid(uid) =>
          CollectOne(lines, n, uids, uid);
          uids := Collect(uids, uid);
      }
    }
  }

  /** The first gap behind the sentinel. */
  method FirstGap(uids: seq<int>) returns (r: Outcome)
    requires Increasing(uids) && uids != [] && uids[0] == MIN_UID - 1
    ensures r == NoAvailableUids || (r.Vacant? && MIN_UID <= r.uid <= MAX_UID && r.uid !in uids)
    ensures forall v :: MIN_UID <= v <= (if r.Vacant? then r.uid - 1 else MAX_UID) ==> v in uids
  {
    if |uids| == 1 { return Vacant(uids[0] + 1); }
    for i := 0 to |uids| - 1
      invariant uids[i] == MIN_UID - 1 + i <= MAX_UID
      invariant forall v :: MIN_UID <= v <= uids[i] ==> v in uids
    {
      if uids[i] + 1 > MAX_UID { return NoAvailableUids; }
      if uids[i] + 1 != uids[i + 1] {
        NotThere(uids, i);
        return Vacant(uids[i] + 1);
      }
    }
    if uids[|uids| - 1] >= MAX_UID { return NoAvailableUids; }
    NotThere(uids, |uids| - 1);
    r := Vacant(uids[|uids| - 1] + 1);
  }

  lemma NotThere(s: seq<int>, i: nat)
    requires Increasing(s) && i < |s| && (i + 1 < |s| ==> s[i] + 1 != s[i + 1])
    ensures s[i] + 1 !in s
  {
    forall j | 0 <= j < |s| ensures s[j] != s[i] + 1 {
      if j < i { IncreasingOrder(s, j, i); }
      if i + 1 < j { IncreasingOrder(s, i + 1, j); }
      if i < j { assert s[i] < s[i + 1]; }
    }
  }

  /** The least ID of the range that no line uses; none exactly if all of them are used; and
      a file with an unreadable line is judged by the first of these. */
  method GetVacantUid(lines: seq<string>) returns (r: Outcome)
    ensures (r.Vacant? || r == NoAvailableUids) <==> forall k :: 0 <= k < |lines| ==> Good(lines[k])
    ensures r.Vacant? ==>
              && MIN_UID <= r.uid <= MAX_UID && !Taken(lines, r.uid)
              && forall v :: MIN_UID <= v < r.uid ==> Taken(lines, v)
    ensures r.Vacant? ==> 1024 <= r.uid <= 65534
    ensures r == NoAvailableUids ==> forall v :: MIN_UID <= v <= MAX_UID ==> Taken(lines, v)
    ensures r == Crash || r == BadLine ==> StopsAtFirstBad(lines, r)
  {
    var bad, uids := ReadUids(lines);
    if bad.Some? { return bad.value; }
    assert lines[..|lines|] == lines;
    SortedIsIncreasing(uids);
    var sorted := Sorted(uids);
    SentinelIsFirst(sorted);
    r := FirstGap(sorted);
  }

  lemma SentinelIsFirst(s: seq<int>)
    requires Increasing(s) && MIN_UID - 1 in s && forall u :: u in s ==> u >= MIN_UID - 1
    ensures s != [] && s[0] == MIN_UID - 1
  {
    var i :| 0 <= i < |s| && s[i] == MIN_UID - 1;
    assert s[0] in s;
    if i > 0 { IncreasingOrder(s, 0, i); }
  }
}
