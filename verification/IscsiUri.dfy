/** iSCSI URIs, reduced to the unique name of the target: what follows its first colon. */
module IscsiUri {
  import opened Wrappers
  import opened Text
  import opened Decimal

  const SCHEME := "iscsi://"

  /** What follows the first separator. */
  function After(s: string, sep: char): (r: Option<string>)
    ensures r.Some? <==> sep in s
    ensures r.Some? ==> |r.value| < |s| && r.value == s[|s| - |r.value|..] && forall c :: c in r.value ==> c in s
  {
    if s == [] then None
    else if s[0] == sep then Some(s[1..])
    else After(s[1..], sep)
  }

  /** strings.LastIndex, the length standing for "none". */
  function LastIndex(s: string, sep: char): (i: nat)
    ensures i <= |s| && (i < |s| ==> s[i] == sep)
  {
    if s == [] then 0
    else if s[|s| - 1] == sep then |s| - 1
    else
      var i := LastIndex(s[..|s| - 1], sep);
      if i == |s| - 1 then |s| else i
  }

  /** The port must be a number, and an opening bracket must be closed. */
  predicate IsPortal(portal: string) {
    var sep := LastIndex(portal, ':');
    var host := portal[..sep];
    && (sep < |portal| ==> Atoi(portal[sep + 1..]).Some?)
    && (host != [] && host[0] == '[' ==> host[|host| - 1] == ']')
  }

  function UniqueName(uri: string): (r: Option<string>)
    ensures r.Some? ==> '/' !in r.value
  {
    if !HasPrefix(uri, SCHEME) then None
    else
      var rest := uri[|SCHEME|..];
      var parts := Split(After(rest, '@').GetOr(rest), '/');
      if |parts| != 3 || !IsPortal(parts[0]) || Atoi(parts[2]).None? then None
      else
        assert parts[1] in parts;
        Some(After(parts[1], ':').GetOr(""))
  }

  /** What the parser makes of a URI without credentials. */
  lemma NameOfTarget(portal: string, iqn: string, lun: string)
    requires forall s :: s in [portal, iqn, lun] ==> '/' !in s && '@' !in s
    ensures UniqueName(SCHEME + Join([portal, iqn, lun], '/')) ==
              if IsPortal(portal) && Atoi(lun).Some? then Some(After(iqn, ':').GetOr("")) else None
  {
    var parts := [portal, iqn, lun];
    assert portal in parts && iqn in parts && lun in parts;
    var rest := Join(parts, '/');
    ThreeJoined(portal, iqn, lun);
    SplitJoin(parts, '/');
    assert (SCHEME + rest)[|SCHEME|..] == rest;
  }

  /** With fewer or more parts it is no such URI. */
  lemma ThreePartsNeeded(parts: seq<string>)
    requires parts != [] && |parts| != 3 && forall s :: s in parts ==> '/' !in s && '@' !in s
    ensures UniqueName(SCHEME + Join(parts, '/')) == None
  {
    SplitJoin(parts, '/');
    NoneInJoin(parts, '/', '@');
    SchemeIsDropped(Join(parts, '/'));
  }

  lemma {:induction false} NoneInJoin(parts: seq<string>, sep: char, c: char)
    requires c != sep && forall s :: s in parts ==> c !in s
    ensures c !in Join(parts, sep)
  {
    if |parts| > 1 {
      NoneInJoin(parts[1..], sep, c);
      assert parts[0] in parts;
    } else if |parts| == 1 {
      assert parts[0] in parts;
    }
  }

  /** Credentials in front of the portal are passed over. */
  lemma CredentialsArePassed(credentials: string, rest: string)
    requires '@' !in credentials && '@' !in rest
    ensures UniqueName(SCHEME + (credentials + ("@" + rest))) == UniqueName(SCHEME + rest)
  {
    AfterFirst(credentials, rest, '@');
    SchemeIsDropped(credentials + ("@" + rest));
    SchemeIsDropped(rest);
  }

  lemma SchemeIsDropped(s: string)
    ensures HasPrefix(SCHEME + s, SCHEME) && (SCHEME + s)[|SCHEME|..] == s
  {
  }

  lemma {:induction false} AfterFirst(front: string, back: string, sep: char)
    requires sep !in front
    ensures After(front + ([sep] + back), sep) == Some(back)
  {
    var s := front + ([sep] + back);
    if front == [] {
      assert s == [sep] + back;
    } else {
      assert front[0] in front && s[1..] == front[1..] + ([sep] + back);
      AfterFirst(front[1..], back, sep);
    }
  }

  /** A host is a portal, and so is a host with a number as port; one with anything else as
      port is not, nor is one whose bracket is not closed. */
  lemma PortalForms(host: string, port: string)
    requires ':' !in host && ':' !in port && host != []
    ensures IsPortal(host) <==> host[0] != '[' || host[|host| - 1] == ']'
    ensures IsPortal(host + ":" + port) <==> (host[0] != '[' || host[|host| - 1] == ']') && Atoi(port).Some?
  {
    NoIndex(host, ':');
    assert host[..|host|] == host;
    LastIndexOf(host, port, ':');
    var portal := host + ":" + port;
    assert portal[..|host|] == host && portal[|host| + 1..] == port;
  }

  lemma {:induction false} NoIndex(s: string, sep: char)
    requires sep !in s
    ensures LastIndex(s, sep) == |s|
  {
    if s != [] {
      assert s[|s| - 1] in s;
      NoIndex(s[..|s| - 1], sep);
    }
  }

  lemma {:induction false} LastIndexOf(front: string, back: string, sep: char)
    requires sep !in back
    ensures LastIndex(front + [sep] + back, sep) == |front|
  {
    var s := front + [sep] + back;
    if back != [] {
      var n := |back| - 1;
      assert back[n] in back && s[|s| - 1] == back[n];
      assert s[..|s| - 1] == front + [sep] + back[..n];
      LastIndexOf(front, back[..n], sep);
    }
  }

  lemma ThreeJoined(a: string, b: string, c: string)
    requires '@' !in a && '@' !in b && '@' !in c
    ensures '@' !in Join([a, b, c], '/')
  {
    assert [a, b, c][1..] == [b, c] && [b, c][1..] == [c];
    assert Join([b, c], '/') == b + ['/'] + c;
    assert Join([a, b, c], '/') == a + ['/'] + (b + ['/'] + c);
  }

  /** The name is empty exactly if nothing follows the first colon, for instance because
      there is none. */
  lemma EmptyNameIff(iqn: string)
    ensures After(iqn, ':').GetOr("") == "" <==> ':' !in iqn || (iqn[|iqn| - 1] == ':' && ':' !in iqn[..|iqn| - 1])
  {
    FirstSplits(iqn, ':');
    var n := |iqn| - 1;
    if ':' in iqn {
      var k := n - |After(iqn, ':').value|;
      assert iqn[k] == ':' && ':' !in iqn[..k];
      if k < n {
        assert iqn[..n][k] == ':';
      }
    }
  }

  lemma {:induction false} FirstSplits(s: string, sep: char)
    ensures After(s, sep).Some? ==>
              var n := |s| - |After(s, sep).value| - 1; n >= 0 && s[n] == sep && sep !in s[..n]
  {
    if s != [] && s[0] != sep {
      FirstSplits(s[1..], sep);
      if After(s, sep).Some? {
        var n := |s| - |After(s, sep).value| - 1;
        assert s[..n] == [s[0]] + s[1..][..n - 1];
      }
    }
  }
}
