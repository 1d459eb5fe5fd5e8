/** How a disk path names a backend, and how backends name themselves. */
module DiskBackend {
  import opened Wrappers
  import opened Text
  import opened Decimal
  import opened IscsiUri

  datatype Backend =
    | Block(path: string)
    | Iscsi(path: string, uniqueName: string)
    | Nbd(path: string, exportName: string)
  {
    function BaseName(): string {
      match this
      case Block(p) => Base(p)
      case Iscsi(_, n) => n
      case Nbd(_, n) => n
    }

    predicate IsLocal() { Block? }
  }

  /** The parser of NBD URLs, reduced to the export name it finds (None: parse error). */
  datatype Uris = Uris(nbd: string -> Option<string>)

  /** The export name is filepath.Base of the URL's path. */
  ghost predicate Sane(u: Uris) {
    forall p :: u.nbd(p).Some? ==> u.nbd(p).value != [] && ('/' in u.nbd(p).value ==> u.nbd(p).value == "/")
  }

  function NewDiskBackend(u: Uris, path: string): (r: Option<Backend>)
    ensures r.Some? && r.value.Block? ==> r.value.path == TrimSpace(path)
  {
    BackendOf(u, TrimSpace(path))
  }

  function BackendOf(u: Uris, p: string): (r: Option<Backend>)
    ensures r.Some? && r.value.Block? ==> r.value.path == p
  {
    if HasPrefix(p, "iscsi://") then
      match UniqueName(p)
      case Some(n) => Some(Iscsi(p, n))
      case None => None
    else if HasPrefix(p, "nbd://") then
      match u.nbd(p)
      case Some(n) => Some(Nbd(p, n))
      case None => None
    else if HasPrefix(p, "/dev/") then Some(Block(p))
    else None
  }

  lemma TrimIsPart(s: string)
    ensures |TrimSpace(s)| <= |s| && forall c :: c in TrimSpace(s) ==> c in s
  {
    var l := TrimLeft(s);
    assert l == s[|s| - |l|..];
    assert TrimRight(l) <= l;
  }

  lemma PrefixHasSlash(s: string, prefix: string)
    requires HasPrefix(s, prefix) && '/' in prefix
    ensures '/' in s
  {
    var i :| 0 <= i < |prefix| && prefix[i] == '/';
    assert s[i] == '/';
  }

  lemma NoSchemeNoBackend(u: Uris, p: string)
    requires !HasPrefix(p, "iscsi://") && !HasPrefix(p, "nbd://") && !HasPrefix(p, "/dev/")
    ensures BackendOf(u, p) == None
  {
  }

  lemma NoSlashNoBackend(u: Uris, b: string)
    requires '/' !in b || b == "/"
    ensures NewDiskBackend(u, b) == None
  {
    var p := TrimSpace(b);
    TrimIsPart(b);
    forall prefix | prefix in {"iscsi://", "nbd://", "/dev/"} ensures !HasPrefix(p, prefix) {
      assert |prefix| > 1 && '/' in prefix;
      if HasPrefix(p, prefix) {
        PrefixHasSlash(p, prefix);
      }
    }
    NoSchemeNoBackend(u, p);
  }

  /** A short name never reads as a path of some backend. */
  lemma BaseNameIsNoPath(u: Uris, path: string)
    requires Sane(u) && NewDiskBackend(u, path).Some?
    ensures NewDiskBackend(u, NewDiskBackend(u, path).value.BaseName()) == None
  {
    NoSlashNoBackend(u, NewDiskBackend(u, path).value.BaseName());
  }

  /** A disk on an iSCSI target has an empty short name exactly if nothing follows the first
      colon of the target's name. */
  lemma NamelessTargetIff(u: Uris, portal: string, iqn: string, lun: string)
    requires IsPortal(portal) && Atoi(lun).Some?
    requires forall s :: s in [portal, iqn, lun] ==> '/' !in s && '@' !in s
    ensures match BackendOf(u, SCHEME + Join([portal, iqn, lun], '/'))
            case None => false
            case Some(b) => b.BaseName() == "" <==> ':' !in iqn || (iqn[|iqn| - 1] == ':' && ':' !in iqn[..|iqn| - 1])
  {
    NameOfTarget(portal, iqn, lun);
    EmptyNameIff(iqn);
  }

  /** The short name a path leads to, or None when the path names no backend. */
  type Namer = string -> Option<string>

  function NamerOf(u: Uris): Namer {
    (path: string) =>
      match NewDiskBackend(u, path)
      case Some(b) => Some(b.BaseName())
      case None => None
  }

  /** The device path of a logical volume. */
  function VolumePath(vg: string, lv: string): string {
    "/dev/" + vg + ("/" + lv)
  }

  /** A logical volume is known by its own name, whatever its group. */
  lemma NameOfVolume(u: Uris, vg: string, lv: string)
    requires lv != "" && '/' !in lv && !IsSpace(lv[|lv| - 1])
    ensures NamerOf(u)(VolumePath(vg, lv)) == Some(lv)
  {
    VolumePathShape(vg, lv);
    BaseOf("/dev/" + vg, lv);
    LocalName(u, VolumePath(vg, lv), lv);
  }

  lemma VolumePathShape(vg: string, lv: string)
    requires lv != ""
    ensures var path := VolumePath(vg, lv);
            HasPrefix(path, "/dev/") && path[|path| - 1] == lv[|lv| - 1]
  {
    assert "/dev/" <= "/dev/" + vg <= VolumePath(vg, lv);
  }

  lemma LocalBackend(u: Uris, vg: string, lv: string)
    requires lv != "" && !IsSpace(lv[|lv| - 1])
    ensures NewDiskBackend(u, VolumePath(vg, lv)) == Some(Block(VolumePath(vg, lv)))
  {
    VolumePathShape(vg, lv);
    NoScheme(VolumePath(vg, lv));
    TrimKeeps(VolumePath(vg, lv));
    BlockPath(u, VolumePath(vg, lv));
  }

  /** Only these three kinds of paths name a backend, and an NBD URL names its export. */
  lemma BackendKinds(u: Uris, p: string)
    ensures BackendOf(u, p).Some? ==> HasPrefix(p, "iscsi://") || HasPrefix(p, "nbd://") || HasPrefix(p, "/dev/")
    ensures HasPrefix(p, "iscsi://") ==>
              BackendOf(u, p) == match UniqueName(p) case Some(n) => Some(Iscsi(p, n)) case None => None
    ensures HasPrefix(p, "nbd://") ==>
              BackendOf(u, p) == match u.nbd(p) case Some(n) => Some(Nbd(p, n)) case None => None
    ensures HasPrefix(p, "/dev/") ==> BackendOf(u, p) == Some(Block(p))
  {
    if HasPrefix(p, "nbd://") { assert p[0] == 'n'; }
    if HasPrefix(p, "/dev/") { NoScheme(p); }
  }

  lemma VolumesDiffer(vg: string, other: string, lv: string)
    requires vg != other
    ensures VolumePath(vg, lv) != VolumePath(other, lv)
  {
    if |vg| == |other| {
      assert VolumePath(vg, lv)[5..5 + |vg|] == vg;
      assert VolumePath(other, lv)[5..5 + |vg|] == other;
    }
  }

  lemma LocalName(u: Uris, path: string, base: string)
    requires HasPrefix(path, "/dev/") && !IsSpace(path[|path| - 1]) && Base(path) == base
    ensures NamerOf(u)(path) == Some(base)
  {
    NoScheme(path);
    TrimKeeps(path);
    BlockPath(u, path);
  }

  lemma NoScheme(p: string)
    requires HasPrefix(p, "/dev/")
    ensures !HasPrefix(p, "iscsi://") && !HasPrefix(p, "nbd://")
  {
    assert p[0] == '/';
  }

  lemma BlockPath(u: Uris, p: string)
    requires !HasPrefix(p, "iscsi://") && !HasPrefix(p, "nbd://") && HasPrefix(p, "/dev/")
    ensures BackendOf(u, p) == Some(Block(p))
  {
  }

  /** All that the pools of disks rely on. */
  ghost predicate NamesAreNoPaths(name: Namer) {
    forall p :: name(p).Some? ==> name(name(p).value) == None
  }

  lemma BackendNamesAreNoPaths(u: Uris)
    requires Sane(u)
    ensures NamesAreNoPaths(NamerOf(u))
  {
    forall p | NamerOf(u)(p).Some? ensures NamerOf(u)(NamerOf(u)(p).value) == None {
      BaseNameIsNoPath(u, p);
    }
  }
}
