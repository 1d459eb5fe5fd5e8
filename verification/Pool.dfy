/** The ordered map behind every device pool: a map for the items and a slice for the order. */
module Pool {
  import opened Wrappers

  datatype PoolError = EmptyKey | AlreadyExists | NotFound

  // ---------------------------------------------------------------------------
  // Order of keys

  ghost predicate Distinct(keys: seq<string>) {
    forall i, j :: 0 <= i < j < |keys| ==> keys[i] != keys[j]
  }

  function InsertAt<T>(s: seq<T>, x: T, position: int): seq<T> {
    var p := if position < 0 then 0 else if position > |s| then |s| else position;
    s[..p] + [x] + s[p..]
  }

  /** At the position, if there is one like it, and otherwise at the nearer end. */
  lemma InsertAtPlace<T>(s: seq<T>, x: T, position: int)
    ensures var r := InsertAt(s, x, position);
            && |r| == |s| + 1
            && (0 <= position <= |s| ==>
                  r[..position] == s[..position] && r[position] == x && r[position + 1..] == s[position..])
            && (position < 0 ==> r == [x] + s)
            && (position > |s| ==> r == s + [x])
  {
  }

  /** slices.DeleteFunc: drops every occurrence. */
  function Without(keys: seq<string>, key: string): seq<string> {
    if keys == [] then []
    else (if keys[0] == key then [] else [keys[0]]) + Without(keys[1..], key)
  }

  lemma {:induction false} WithoutMembers(keys: seq<string>, key: string)
    ensures forall k :: k in Without(keys, key) <==> k in keys && k != key
    ensures Distinct(keys) ==> Distinct(Without(keys, key))
  {
    if keys != [] {
      WithoutMembers(keys[1..], key);
      var rest := Without(keys[1..], key);
      assert keys == [keys[0]] + keys[1..];
      if Distinct(keys) && keys[0] != key {
        assert keys[0] !in keys[1..];
        assert keys[0] !in rest;
      }
    }
  }

  lemma {:induction false} WithoutAbsent(keys: seq<string>, key: string)
    requires key !in keys
    ensures Without(keys, key) == keys
  {
    if keys != [] {
      assert keys[0] in keys;
      WithoutAbsent(keys[1..], key);
      assert [keys[0]] + keys[1..] == keys;
    }
  }

  lemma InsertAtMembers(keys: seq<string>, key: string, position: int)
    requires Distinct(keys) && key !in keys
    ensures Distinct(InsertAt(keys, key, position))
    ensures forall k :: k in InsertAt(keys, key, position) <==> k in keys || k == key
  {
    var p := if position < 0 then 0 else if position > |keys| then |keys| else position;
    assert keys == keys[..p] + keys[p..];
  }

  /** Removing what was inserted restores the order, wherever it was inserted. */
  lemma InsertThenRemove(keys: seq<string>, key: string, position: int)
    requires key !in keys
    ensures Without(InsertAt(keys, key, position), key) == keys
  {
    var p := if position < 0 then 0 else if position > |keys| then |keys| else position;
    RemoveBetween(keys[..p], key, keys[p..]);
    assert keys[..p] + keys[p..] == keys;
  }

  lemma {:induction false} RemoveBetween(front: seq<string>, key: string, back: seq<string>)
    requires key !in front && key !in back
    ensures Without(front + [key] + back, key) == front + back
  {
    var all := front + [key] + back;
    if front == [] {
      assert all[1..] == back;
      WithoutAbsent(back, key);
      assert front + back == back;
    } else {
      assert all[0] == front[0] && front[0] in front;
      assert all[1..] == front[1..] + [key] + back;
      RemoveBetween(front[1..], key, back);
      assert front + back == [front[0]] + (front[1..] + back);
    }
  }

  function EntriesOf<V>(items: map<string, V>, keys: seq<string>): (es: seq<(string, V)>)
    requires forall k :: k in keys ==> k in items
    ensures |es| == |keys| && forall i :: 0 <= i < |es| ==> es[i] == (keys[i], items[keys[i]])
  {
    if keys == [] then [] else [(keys[0], items[keys[0]])] + EntriesOf(items, keys[1..])
  }

  lemma EntriesOthers<V>(items: map<string, V>, keys: seq<string>, key: string, value: V)
    requires (forall k :: k in keys ==> k in items) && key !in keys
    ensures EntriesOf(items[key := value], keys) == EntriesOf(items, keys)
  {
  }

  lemma {:induction false} EntriesBetween<V>(
    items: map<string, V>, front: seq<string>, back: seq<string>, key: string, value: V)
    requires (forall k :: k in front || k in back ==> k in items) && key !in front && key !in back
    ensures EntriesOf(items[key := value], front + [key] + back)
            == EntriesOf(items, front) + [(key, value)] + EntriesOf(items, back)
  {
    var all := front + [key] + back;
    if front == [] {
      assert all[1..] == back;
      EntriesOthers(items, back, key, value);
    } else {
      assert all[0] == front[0] && front[0] in front;
      assert all[1..] == front[1..] + [key] + back;
      EntriesBetween(items, front[1..], back, key, value);
    }
  }

  lemma EntriesSlices<V>(items: map<string, V>, keys: seq<string>, p: nat)
    requires (forall k :: k in keys ==> k in items) && p <= |keys|
    ensures EntriesOf(items, keys)[..p] == EntriesOf(items, keys[..p])
    ensures EntriesOf(items, keys)[p..] == EntriesOf(items, keys[p..])
  {
  }

  lemma EntriesInsert<V>(items: map<string, V>, keys: seq<string>, key: string, value: V, position: int)
    requires (forall k :: k in keys ==> k in items) && key !in keys
    ensures forall k :: k in InsertAt(keys, key, position) ==> k in keys || k == key
    ensures EntriesOf(items[key := value], InsertAt(keys, key, position))
            == InsertAt(EntriesOf(items, keys), (key, value), position)
  {
    var p := if position < 0 then 0 else if position > |keys| then |keys| else position;
    EntriesBetween(items, keys[..p], keys[p..], key, value);
    EntriesSlices(items, keys, p);
  }

  // ---------------------------------------------------------------------------
  // The pool

  class Pool<V> {
    var items: map<string, V>
    var keys: seq<string>

    /** The slice lists the keys of the map, each once, and no key is empty. */
    ghost predicate Valid()
      reads this
    {
      && Distinct(keys)
      && (forall k :: k in keys <==> k in items)
      && "" !in items
    }

    /** The pool as an association list. */
    ghost function Entries(): seq<(string, V)>
      reads this
      requires Valid()
    {
      EntriesOf(items, keys)
    }

    constructor ()
      ensures Valid() && items == map[] && keys == []
    {
      items, keys := map[], [];
    }

    method Exists(key: string) returns (found: bool)
      ensures found <==> key in items
    {
      found := key in items;
    }

    method Get(key: string) returns (v: Option<V>)
      ensures v == if key in items then Some(items[key]) else None
    {
      v := if key in items then Some(items[key]) else None;
    }

    /** The values of the wanted keys, in their order, or of all keys if none is given; None
        stands for the nil that an unknown key yields. */
    method Values(wanted: seq<string>) returns (vs: seq<Option<V>>)
      requires Valid()
      ensures wanted == [] ==> |vs| == |Entries()| && forall i :: 0 <= i < |vs| ==> vs[i] == Some(Entries()[i].1)
      ensures wanted != [] ==> |vs| == |wanted|
      ensures wanted != [] ==>
                forall i :: 0 <= i < |vs| ==> vs[i] == if wanted[i] in items then Some(items[wanted[i]]) else None
    {
      var ks := if wanted == [] then keys else wanted;
      vs := [];
      for i := 0 to |ks|
        invariant |vs| == i
        invariant forall j :: 0 <= j < i ==> vs[j] == if ks[j] in items then Some(items[ks[j]]) else None
      {
        vs := vs + [if ks[i] in items then Some(items[ks[i]]) else None];
      }
    }

    /** The slice stays free of duplicates exactly if the append does not replace. */
    method Append(key: string, value: V, replace: bool) returns (r: Result<(), PoolError>)
      requires Valid()
      modifies this
      ensures r == if key == "" then Err(EmptyKey)
                   else if key in old(items) && !replace then Err(AlreadyExists) else Ok(())
      ensures r.Err? ==> items == old(items) && keys == old(keys)
      ensures r.Ok? ==> items == old(items)[key := value] && keys == old(keys) + [key]
      ensures Valid() <==> !(r.Ok? && key in old(items))
      ensures r.Ok? && Valid() ==> Entries() == old(Entries()) + [(key, value)]
    {
      if |key| == 0 { return Err(EmptyKey); }
      if key in items && !replace { return Err(AlreadyExists); }
      ghost var was := items;
      items := items[key := value];
      keys := keys + [key];
      r := Ok(());
      if key in was {
        ghost var i :| 0 <= i < |old(keys)| && old(keys)[i] == key;
        assert keys[i] == keys[|keys| - 1];
      }
    }

    method Insert(key: string, value: V, position: int) returns (r: Result<(), PoolError>)
      requires Valid()
      modifies this
      ensures Valid()
      ensures r == if key == "" then Err(EmptyKey) else if key in old(items) then Err(AlreadyExists) else Ok(())
      ensures r.Err? ==> items == old(items) && keys == old(keys)
      ensures r.Ok? ==> items == old(items)[key := value] && keys == InsertAt(old(keys), key, position)
      ensures r.Ok? ==> Entries() == InsertAt(old(Entries()), (key, value), position)
    {
      if |key| == 0 { return Err(EmptyKey); }
      var p := if position < 0 then 0 else position;
      if key in items { return Err(AlreadyExists); }
      items := items[key := value];
      if p > |keys| { p := |keys|; }
      InsertAtMembers(keys, key, position);
      EntriesInsert(old(items), keys, key, value, position);
      keys := keys[..p] + [key] + keys[p..];
      r := Ok(());
    }

    method Remove(key: string) returns (r: Result<(), PoolError>)
      requires Valid()
      modifies this
      ensures Valid()
      ensures r == if key in old(items) then Ok(()) else Err(NotFound)
      ensures items == old(items) - {key} && keys == Without(old(keys), key)
      ensures r.Err? ==> items == old(items) && keys == old(keys)
    {
      WithoutMembers(keys, key);
      if key in items {
        keys := Without(keys, key);
        items := items - {key};
        return Ok(());
      }
      WithoutAbsent(keys, key);
      r := Err(NotFound);
    }
  }
}
