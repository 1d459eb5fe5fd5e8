/**
 Changing the number of plugged CPUs of a running machine. QEMU is the set of its CPU slots
 and the set of those that are plugged; any QMP command may fail, and since the operation
 gives up at the first failure, `budget` counts the commands that still succeed. A plug or
 unplug request that QEMU accepts takes effect.
 */
module CpuHotplug {

  datatype Slot = Slot(socket: nat, core: nat)
  {
    predicate Below(other: Slot) {
      socket < other.socket || (socket == other.socket && core < other.core)
    }
  }

  /** An entry of the answer to query-hotpluggable-cpus. */
  datatype Cpu = Cpu(slot: Slot, plugged: bool)

  ghost predicate Sorted(cpus: seq<Cpu>) {
    forall i, j :: 0 <= i < j < |cpus| ==> !cpus[j].slot.Below(cpus[i].slot)
  }

  /** The entries of one slot, in order. */
  function EntriesAt(cpus: seq<Cpu>, slot: Slot): seq<Cpu> {
    if cpus == [] then [] else (if cpus[0].slot == slot then [cpus[0]] else []) + EntriesAt(cpus[1..], slot)
  }

  /** The same entries, and those of each slot in the same order. */
  ghost predicate SameEntries(a: seq<Cpu>, b: seq<Cpu>) {
    multiset(a) == multiset(b) && forall slot :: EntriesAt(a, slot) == EntriesAt(b, slot)
  }

  lemma {:induction false} EntriesOfBoth(a: seq<Cpu>, b: seq<Cpu>, slot: Slot)
    ensures EntriesAt(a + b, slot) == EntriesAt(a, slot) + EntriesAt(b, slot)
  {
    if a == [] {
      assert a + b == b;
    } else {
      assert (a + b)[1..] == a[1..] + b;
      EntriesOfBoth(a[1..], b, slot);
    }
  }

  lemma {:induction false} NoEntries(cpus: seq<Cpu>, slot: Slot)
    requires forall c :: c in cpus ==> c.slot != slot
    ensures EntriesAt(cpus, slot) == []
  {
    if cpus != [] {
      assert cpus[0] in cpus;
      NoEntries(cpus[1..], slot);
    }
  }

  /** An entry may move in front of entries of other slots. */
  lemma MovedInFront(a: seq<Cpu>, c: Cpu, b: seq<Cpu>)
    requires forall d :: d in b ==> d.slot != c.slot
    ensures SameEntries(a + [c] + b, a + b + [c])
  {
    forall slot ensures EntriesAt(a + [c] + b, slot) == EntriesAt(a + b + [c], slot) {
      if slot == c.slot {
        NoEntries(b, slot);
      } else {
        NoEntries([c], slot);
      }
      MovedAt(a, [c], b, slot);
    }
  }

  lemma MovedAt(a: seq<Cpu>, c: seq<Cpu>, b: seq<Cpu>, slot: Slot)
    requires EntriesAt(b, slot) == [] || EntriesAt(c, slot) == []
    ensures EntriesAt(a + c + b, slot) == EntriesAt(a + b + c, slot)
  {
    EntriesOfBoth(a + c, b, slot);
    EntriesOfBoth(a, c, slot);
    EntriesOfBoth(a + b, c, slot);
    EntriesOfBoth(a, b, slot);
  }

  /** sort.SliceStable by socket, then core: an element moves left past larger ones only. */
  method SortCpus(cpus: seq<Cpu>) returns (r: seq<Cpu>)
    ensures Sorted(r) && SameEntries(r, cpus)
    ensures forall i, j :: 0 <= i < j < |r| ==>
              || r[i].slot.socket < r[j].slot.socket
              || (r[i].slot.socket == r[j].slot.socket && r[i].slot.core <= r[j].slot.core)
  {
    r := [];
    for i := 0 to |cpus|
      invariant Sorted(r) && SameEntries(r, cpus[..i])
    {
      ghost var was := r;
      forall slot ensures EntriesAt(was + [cpus[i]], slot) == EntriesAt(cpus[..i] + [cpus[i]], slot) {
        EntriesOfBoth(was, [cpus[i]], slot);
        EntriesOfBoth(cpus[..i], [cpus[i]], slot);
      }
      assert cpus[..i + 1] == cpus[..i] + [cpus[i]];
      r := Insert(r, cpus[i]);
    }
    assert cpus[..|cpus|] == cpus;
  }

  method Insert(s: seq<Cpu>, c: Cpu) returns (r: seq<Cpu>)
    requires Sorted(s)
    ensures Sorted(r) && SameEntries(r, s + [c])
  {
    var k := |s|;
    while k > 0 && c.slot.Below(s[k - 1].slot)
      invariant 0 <= k <= |s|
      invariant forall j :: k <= j < |s| ==> c.slot.Below(s[j].slot)
    {
      k := k - 1;
    }
    assert s == s[..k] + s[k..];
    InsertIsSorted(s, c, k);
    MovedInFront(s[..k], c, s[k..]);
    r := s[..k] + [c] + s[k..];
  }

  lemma InsertIsSorted(s: seq<Cpu>, c: Cpu, k: nat)
    requires Sorted(s) && k <= |s| && (k > 0 ==> !c.slot.Below(s[k - 1].slot))
    requires forall j :: k <= j < |s| ==> c.slot.Below(s[j].slot)
    ensures Sorted(s[..k] + [c] + s[k..])
  {
    var r := s[..k] + [c] + s[k..];
    forall i, j | 0 <= i < j < |r| ensures !r[j].slot.Below(r[i].slot) {
      if j == k {
        assert i < k - 1 ==> !s[k - 1].slot.Below(s[i].slot);
      } else if i == k {
        assert r[j] == s[j - 1];
      } else {
        var a, b := if i < k then i else i - 1, if j < k then j else j - 1;
        assert r[i] == s[a] && r[j] == s[b] && !s[b].slot.Below(s[a].slot);
      }
    }
  }

  function Slots(cpus: seq<Cpu>): set<Slot> {
    set c | c in cpus :: c.slot
  }

  /** The plugged slots come before all others. */
  ghost predicate IsPrefix(slots: set<Slot>, plugged: set<Slot>) {
    forall a, b :: a in plugged && b in slots && b.Below(a) ==> b in plugged
  }

  function Min(a: int, b: int): int {
    if a < b then a else b
  }

  /** A listing of all slots with their state, each slot once, in any order. */
  ghost predicate Lists(cpus: seq<Cpu>, slots: set<Slot>, plugged: set<Slot>) {
    && Slots(cpus) == slots
    && (forall c :: c in cpus ==> (c.plugged <==> c.slot in plugged))
    && (forall i, j :: 0 <= i < j < |cpus| ==> cpus[i].slot != cpus[j].slot)
  }

  /** The slots that were added come before all that are still free. */
  ghost predicate LowestFirst(slots: set<Slot>, before: set<Slot>, after: set<Slot>) {
    before <= after && forall a, b :: a in after - before && b in slots - after ==> !b.Below(a)
  }

  /** The slots that were removed come after all that are still plugged. */
  ghost predicate HighestFirst(before: set<Slot>, after: set<Slot>) {
    after <= before && forall a, b :: a in before - after && b in after ==> !a.Below(b)
  }

  class InstanceQemu {
    var actual: int              // CPU.Actual
    const total: int             // CPU.Total
    const qemuVersion: int
    const slots: set<Slot>       // QEMU's CPU slots
    var plugged: set<Slot>       // and those that are plugged
    var budget: nat

    constructor (actual: int, total: int, version: int, slots: set<Slot>, plugged: set<Slot>, budget: nat)
      ensures this.actual == actual && this.total == total && this.qemuVersion == version
      ensures this.slots == slots && this.plugged == plugged && this.budget == budget
    {
      this.actual, this.total, this.qemuVersion := actual, total, version;
      this.slots, this.plugged, this.budget := slots, plugged, budget;
    }

    method Qmp() returns (ok: bool)
      modifies this`budget
      ensures ok <==> old(budget) > 0
      ensures budget == if ok then old(budget) - 1 else 0
    {
      ok := budget > 0;
      if ok { budget := budget - 1; }
    }

    method DeviceAdd(slot: Slot) returns (ok: bool)
      requires slot !in plugged
      modifies this`actual, this`plugged, this`budget
      ensures plugged == (if ok then old(plugged) + {slot} else old(plugged))
      ensures actual == (if ok then old(actual) + 1 else old(actual))
      ensures actual - |plugged| == old(actual) - |old(plugged)|
      ensures ok <==> old(budget) > 0
      ensures budget == if ok then old(budget) - 1 else 0
    {
      ok := Qmp();
      if ok {
        plugged := plugged + {slot};
        actual := actual + 1;
      }
    }

    method DeviceDel(slot: Slot) returns (ok: bool)
      requires slot in plugged
      modifies this`actual, this`plugged, this`budget
      ensures plugged == (if ok then old(plugged) - {slot} else old(plugged))
      ensures actual == (if ok then old(actual) - 1 else old(actual))
      ensures actual - |plugged| == old(actual) - |old(plugged)|
      ensures ok <==> old(budget) > 0
      ensures budget == if ok then old(budget) - 1 else 0
    {
      ok := Qmp();
      if ok {
        plugged := plugged - {slot};
        actual := actual - 1;
      }
    }

    /** `listing` is QEMU's answer: all slots, in whatever order. */
    method SetActual(value: int, listing: seq<Cpu>) returns (ok: bool)
      requires plugged <= slots && slots != {} && Lists(listing, slots, plugged)
      modifies this`actual, this`plugged, this`budget
      ensures plugged <= slots
      // rejected values change nothing
      ensures (value < 1 || value > total) ==> !ok && actual == old(actual) && plugged == old(plugged)
      // the counter follows the slots, also when QEMU fails part-way
      ensures actual - |plugged| == old(actual) - |old(plugged)|
      ensures Min(old(actual), value) <= actual <= (if old(actual) < value then value else old(actual))
      // it succeeds if no command fails: one to list the slots, and one for each slot to move
      ensures ok <==>
        && 1 <= value <= total && (value < old(actual) ==> qemuVersion >= 20700)
        && old(budget) > (if value < old(actual) then Min(old(actual) - value, |old(plugged)|)
                          else Min(value - old(actual), |slots| - |old(plugged)|))
      // slots go in from the lowest free one up, and come out from the highest one down
      ensures value >= old(actual) ==> LowestFirst(slots, old(plugged), plugged)
      ensures value <= old(actual) ==> HighestFirst(old(plugged), plugged)
      ensures IsPrefix(slots, old(plugged)) ==> IsPrefix(slots, plugged)
      // how far a success gets
      ensures ok && value >= old(actual) ==> actual == Min(value, old(actual) + |slots| - |old(plugged)|)
      ensures ok && value <= old(actual) ==> actual == value || plugged == {}
      // with a counter that was right, success means exactly `value` slots, if there are that many
      ensures ok && old(actual) == |old(plugged)| ==> (actual == |plugged| == value <==> value <= |slots|)
    {
      SubsetSize(plugged, slots);
      if value < 1 || value > total { return false; }
      ok := Qmp();
      if !ok { return; }
      var cpus := SortCpus(listing);
      SameListing(listing, cpus, slots, plugged);
      if value < actual {
        if qemuVersion < 20700 { return false; }
        ok := Shrink(value, cpus);
        SubsetSize(old(plugged), slots);
      } else if value > actual {
        ok := Grow(value, cpus);
        SubsetSize(plugged, slots);
      } else {
        SubsetSize(plugged, slots);
      }
    }

    method Shrink(value: int, cpus: seq<Cpu>) returns (ok: bool)
      requires plugged <= slots && value < actual && Sorted(cpus) && Lists(cpus, slots, plugged)
      modifies this`actual, this`plugged, this`budget
      ensures actual - |plugged| == old(actual) - |old(plugged)| && value <= actual <= old(actual)
      ensures HighestFirst(old(plugged), plugged)
      ensures IsPrefix(slots, old(plugged)) ==> IsPrefix(slots, plugged)
      ensures ok ==> (actual == value || plugged == {}) && old(budget) - budget == old(actual) - actual
      ensures !ok ==> old(budget) == old(actual) - actual && value < actual && plugged != {}
    {
      ghost var k;
      ok, k := Unplug(value, cpus);
      OrderUnplug(cpus, slots, old(plugged), plugged, k);
      if k == 0 {
        assert cpus[0..] == cpus;
      }
    }

    method Grow(value: int, cpus: seq<Cpu>) returns (ok: bool)
      requires plugged <= slots && value > actual && Sorted(cpus) && Lists(cpus, slots, plugged)
      modifies this`actual, this`plugged, this`budget
      ensures actual - |plugged| == old(actual) - |old(plugged)| && old(actual) <= actual <= value
      ensures plugged <= slots && LowestFirst(slots, old(plugged), plugged)
      ensures IsPrefix(slots, old(plugged)) ==> IsPrefix(slots, plugged)
      ensures ok ==> (actual == value || plugged == slots) && old(budget) - budget == actual - old(actual)
      ensures !ok ==> old(budget) == actual - old(actual) && actual < value && plugged != slots
    {
      ghost var k;
      ok, k := Plug(value, cpus);
      OrderPlug(cpus, slots, old(plugged), plugged, k);
      if k == |cpus| {
        assert cpus[..k] == cpus;
      }
    }

    /** From the last slot down; `k` is where it stopped. */
    method Unplug(value: int, cpus: seq<Cpu>) returns (ok: bool, ghost k: nat)
      requires value < actual && Lists(cpus, slots, plugged)
      modifies this`actual, this`plugged, this`budget
      ensures k <= |cpus| && plugged == old(plugged) - Slots(cpus[k..])
      ensures actual - |plugged| == old(actual) - |old(plugged)| && value <= actual <= old(actual)
      ensures ok ==> (actual == value || k == 0) && old(budget) - budget == old(actual) - actual
      ensures !ok ==> old(budget) == old(actual) - actual && value < actual && plugged != {}
    {
      ok := true;
      var idx := |cpus| - 1;
      while idx >= 0
        invariant ok && -1 <= idx < |cpus|
        invariant plugged == old(plugged) - Slots(cpus[idx + 1..])
        invariant actual - |plugged| == old(actual) - |old(plugged)| && value <= actual <= old(actual)
        invariant old(budget) - budget == old(actual) - actual
        decreases idx
      {
        UnplugStep(cpus, slots, old(plugged), plugged, idx);
        if cpus[idx].plugged {
          if actual == value { break; }
          ok := DeviceDel(cpus[idx].slot);
          if !ok { break; }
        }
        idx := idx - 1;
      }
      k := idx + 1;
    }

    /** From the first slot up; `k` is where it stopped. */
    method Plug(value: int, cpus: seq<Cpu>) returns (ok: bool, ghost k: nat)
      requires value > actual && Lists(cpus, slots, plugged)
      modifies this`actual, this`plugged, this`budget
      ensures k <= |cpus| && plugged == old(plugged) + Slots(cpus[..k])
      ensures actual - |plugged| == old(actual) - |old(plugged)| && old(actual) <= actual <= value
      ensures ok ==> (actual == value || k == |cpus|) && old(budget) - budget == actual - old(actual)
      ensures !ok ==> old(budget) == actual - old(actual) && actual < value && plugged != slots
    {
      ok := true;
      var i := 0;
      while i < |cpus|
        invariant ok && 0 <= i <= |cpus|
        invariant plugged == old(plugged) + Slots(cpus[..i])
        invariant actual - |plugged| == old(actual) - |old(plugged)| && old(actual) <= actual <= value
        invariant old(budget) - budget == actual - old(actual)
      {
        PlugStep(cpus, slots, old(plugged), plugged, i);
        if !cpus[i].plugged {
          if actual == value { break; }
          ok := DeviceAdd(cpus[i].slot);
          if !ok {
            assert cpus[i] in cpus && cpus[i].slot in slots;
            break;
          }
        }
        i := i + 1;
      }
      k := i;
    }
  }

  lemma SubsetSize<T>(a: set<T>, b: set<T>)
    requires a <= b
    ensures |a| <= |b| && (|a| == |b| ==> a == b)
  {
    assert b == a + (b - a);
  }

  lemma SameListing(a: seq<Cpu>, b: seq<Cpu>, slots: set<Slot>, plugged: set<Slot>)
    requires multiset(a) == multiset(b) && Lists(a, slots, plugged)
    ensures Lists(b, slots, plugged)
  {
    assert forall c :: c in a <==> c in multiset(a);
    assert forall c :: c in b <==> c in multiset(b);
    forall i, j | 0 <= i < j < |b| ensures b[i].slot != b[j].slot {
      if b[i].slot == b[j].slot {
        assert b[i] in a && b[j] in a && b[i] == b[j];
        TwiceInMultiset(b, i, j);
        OnceInMultiset(a, b[i]);
      }
    }
  }

  lemma TwiceInMultiset<T>(s: seq<T>, i: nat, j: nat)
    requires i < j < |s| && s[i] == s[j]
    ensures multiset(s)[s[i]] >= 2
  {
    assert s == s[..j] + s[j..];
    assert s[i] in s[..j] && s[j] in s[j..];
    assert s[..j][i] == s[i] && s[j..][0] == s[j];
  }

  lemma OnceInMultiset<T>(s: seq<T>, x: T)
    requires forall i, j :: 0 <= i < j < |s| ==> s[i] != s[j]
    ensures multiset(s)[x] <= 1
  {
    if s != [] {
      var n := |s| - 1;
      assert s == s[..n] + [s[n]];
      OnceInMultiset(s[..n], x);
      assert s[n] !in s[..n];
    }
  }

  /** One more slot is passed on the way up: it is added exactly if it is not plugged yet. */
  lemma PlugStep(cpus: seq<Cpu>, slots: set<Slot>, before: set<Slot>, now: set<Slot>, i: nat)
    requires i < |cpus| && Lists(cpus, slots, before) && now == before + Slots(cpus[..i])
    ensures cpus[i].plugged ==> now == before + Slots(cpus[..i + 1])
    ensures !cpus[i].plugged ==> cpus[i].slot !in now && now + {cpus[i].slot} == before + Slots(cpus[..i + 1])
  {
    assert cpus[..i + 1] == cpus[..i] + [cpus[i]];
    assert cpus[i] in cpus;
  }

  lemma UnplugStep(cpus: seq<Cpu>, slots: set<Slot>, before: set<Slot>, now: set<Slot>, i: nat)
    requires i < |cpus| && Lists(cpus, slots, before) && now == before - Slots(cpus[i + 1..])
    ensures !cpus[i].plugged ==> now == before - Slots(cpus[i..])
    ensures cpus[i].plugged ==> cpus[i].slot in now && now - {cpus[i].slot} == before - Slots(cpus[i..])
  {
    assert cpus[i..] == [cpus[i]] + cpus[i + 1..];
    assert cpus[i] in cpus;
  }

  lemma OrderPlug(cpus: seq<Cpu>, slots: set<Slot>, before: set<Slot>, after: set<Slot>, k: nat)
    requires k <= |cpus| && Sorted(cpus) && Slots(cpus) == slots && before <= slots
    requires after == before + Slots(cpus[..k])
    ensures after <= slots && LowestFirst(slots, before, after)
    ensures IsPrefix(slots, before) ==> IsPrefix(slots, after)
  {
    forall j | 0 <= j < k ensures cpus[j].slot in after {
      assert cpus[..k][j] == cpus[j];
    }
    forall a, b | a in Slots(cpus[..k]) && b in slots - after ensures !b.Below(a) {
      var i :| 0 <= i < k && cpus[i].slot == a;
      var j :| 0 <= j < |cpus| && cpus[j].slot == b;
    }
  }

  lemma OrderUnplug(cpus: seq<Cpu>, slots: set<Slot>, before: set<Slot>, after: set<Slot>, k: nat)
    requires k <= |cpus| && Sorted(cpus) && Slots(cpus) == slots && before <= slots
    requires after == before - Slots(cpus[k..])
    ensures HighestFirst(before, after)
    ensures IsPrefix(slots, before) ==> IsPrefix(slots, after)
  {
    forall j | k <= j < |cpus| ensures cpus[j].slot !in after {
      assert cpus[k..][j - k] == cpus[j];
    }
    forall a, b | a in Slots(cpus[k..]) && b in after ensures !a.Below(b) {
      var i :| k <= i < |cpus| && cpus[i].slot == a;
      var j :| 0 <= j < |cpus| && cpus[j].slot == b;
    }
  }
}
