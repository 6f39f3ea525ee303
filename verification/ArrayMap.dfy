/** A map of fixed capacity in an array of cells. `Put` takes the first free cell without
    looking for an equal key, and does nothing when there is none. */
module ArrayMaps {
  import opened Wrappers

  /** A cell; deleting only clears the key. */
  datatype Cell<+K, +V> = Cell(key: Option<K>, value: V)

  /** The first cell holding `key`, or the number of cells. */
  function FindKey<K(==), V>(t: seq<Cell<K, V>>, key: K, from: nat): (i: nat)
    requires from <= |t|
    ensures from <= i <= |t|
    ensures i < |t| ==> t[i].key == Some(key)
    ensures forall j :: from <= j < i ==> t[j].key != Some(key)
    decreases |t| - from
  {
    if from == |t| || t[from].key == Some(key) then from else FindKey(t, key, from + 1)
  }

  function FindFree<K, V>(t: seq<Cell<K, V>>, from: nat): (i: nat)
    requires from <= |t|
    ensures from <= i <= |t|
    ensures i < |t| ==> t[i].key.None?
    ensures forall j :: from <= j < i ==> t[j].key.Some?
    decreases |t| - from
  {
    if from == |t| || t[from].key.None? then from else FindFree(t, from + 1)
  }

  function Lookup<K(==), V>(t: seq<Cell<K, V>>, key: K): Option<V> {
    var i := FindKey(t, key, 0);
    if i < |t| then Some(t[i].value) else None
  }

  function Added<K, V>(t: seq<Cell<K, V>>, key: K, value: V): (r: seq<Cell<K, V>>)
    ensures |r| == |t|
  {
    var i := FindFree(t, 0);
    if i < |t| then t[i := Cell(Some(key), value)] else t
  }

  function Removed<K(==), V>(t: seq<Cell<K, V>>, key: K): (r: seq<Cell<K, V>>)
    ensures |r| == |t|
  {
    var i := FindKey(t, key, 0);
    if i < |t| then t[i := t[i].(key := None)] else t
  }

  function Used<K, V>(t: seq<Cell<K, V>>): nat {
    if t == [] then 0 else Used(t[..|t| - 1]) + (if t[|t| - 1].key.Some? then 1 else 0)
  }

  ghost predicate Unique<K, V>(t: seq<Cell<K, V>>) {
    forall i, j :: 0 <= i < j < |t| && t[i].key.Some? && t[j].key.Some? ==> t[i].key != t[j].key
  }

  lemma FindKeyIs<K, V>(t: seq<Cell<K, V>>, key: K, i: nat)
    requires i < |t| && t[i].key == Some(key) && forall j :: 0 <= j < i ==> t[j].key != Some(key)
    ensures FindKey(t, key, 0) == i
  {
  }

  /** Exactly when a value just put is found again: there is a free cell in front of every cell
      with an equal key, or the first such cell already holds the value. */
  lemma LookupAfterAdd<K, V>(t: seq<Cell<K, V>>, key: K, value: V)
    ensures Lookup(Added(t, key, value), key) == Some(value) <==>
              FindFree(t, 0) < FindKey(t, key, 0) || Lookup(t, key) == Some(value)
    ensures forall other :: other != key ==> Lookup(Added(t, key, value), other) == Lookup(t, other)
  {
    var f, m := FindFree(t, 0), FindKey(t, key, 0);
    var r := Added(t, key, value);
    if f < |t| {
      FindKeyIs(r, key, if f < m then f else m);
    }
    forall other | other != key ensures Lookup(r, other) == Lookup(t, other) {
      SameLookup(t, r, other);
    }
  }

  lemma SameLookup<K, V>(t: seq<Cell<K, V>>, r: seq<Cell<K, V>>, key: K)
    requires |t| == |r|
    requires forall i :: 0 <= i < |t| ==> (t[i].key == Some(key) <==> r[i].key == Some(key))
    requires forall i :: 0 <= i < |t| && t[i].key == Some(key) ==> t[i].value == r[i].value
    ensures Lookup(t, key) == Lookup(r, key)
  {
    var i := FindKey(t, key, 0);
    if i < |t| {
      FindKeyIs(r, key, i);
    } else {
      assert FindKey(r, key, 0) == |r|;
    }
  }

  /** With unique keys deletion is the inverse of insertion: the key is gone, the rest stays. */
  lemma LookupAfterRemove<K, V>(t: seq<Cell<K, V>>, key: K)
    requires Unique(t)
    ensures Lookup(Removed(t, key), key) == None && Unique(Removed(t, key))
    ensures forall other :: other != key ==> Lookup(Removed(t, key), other) == Lookup(t, other)
  {
    var r := Removed(t, key);
    assert FindKey(r, key, 0) == |r|;
    forall other | other != key ensures Lookup(r, other) == Lookup(t, other) {
      SameLookup(t, r, other);
    }
  }

  lemma AddKeepsUnique<K, V>(t: seq<Cell<K, V>>, key: K, value: V)
    requires Unique(t) && Lookup(t, key) == None
    ensures Unique(Added(t, key, value))
  {
    assert FindKey(t, key, 0) == |t|;
  }

  lemma {:induction false} UsedUpdate<K, V>(t: seq<Cell<K, V>>, i: nat, c: Cell<K, V>)
    requires i < |t|
    ensures Used(t[i := c]) == Used(t) - (if t[i].key.Some? then 1 else 0) + (if c.key.Some? then 1 else 0)
  {
    var n := |t| - 1;
    if i == n {
      assert t[i := c][..n] == t[..n];
    } else {
      assert t[i := c][..n] == t[..n][i := c];
      UsedUpdate(t[..n], i, c);
    }
  }

  lemma {:induction false} UsedFull<K, V>(t: seq<Cell<K, V>>)
    ensures Used(t) <= |t|
    ensures Used(t) == |t| <==> FindFree(t, 0) == |t|
  {
    if t != [] {
      var s := t[..|t| - 1];
      UsedFull(s);
      if FindFree(t, 0) < |s| {
        assert s[FindFree(t, 0)].key.None?;
      }
      if FindFree(s, 0) < |s| {
        assert t[FindFree(s, 0)].key.None?;
      }
    }
  }

  class ArrayMap<K(==), V> {
    var table: array<Cell<K, V>>

    constructor (n: nat, nothing: V)
      ensures fresh(table) && table[..] == seq(n, i => Cell(None, nothing))
    {
      table := new Cell<K, V>[n](_ => Cell(None, nothing));
      new;
      assert table[..] == seq(n, i => Cell(None, nothing));
    }

    method Get(key: K) returns (r: Option<V>)
      ensures r == Lookup(table[..], key)
    {
      var i := 0;
      while i < table.Length
        invariant i <= table.Length && FindKey(table[..], key, 0) == FindKey(table[..], key, i)
      {
        if table[i].key == Some(key) {
          return Some(table[i].value);
        }
        i := i + 1;
      }
      return None;
    }

    method Put(key: K, value: V)
      modifies table
      ensures table[..] == Added(old(table[..]), key, value)
    {
      ghost var before := table[..];
      var i := 0;
      while i < table.Length
        invariant i <= table.Length && table[..] == before && FindFree(before, 0) == FindFree(before, i)
      {
        if table[i].key.None? {
          table[i] := Cell(Some(key), value);
          return;
        }
        i := i + 1;
      }
    }

    method Delete(key: K)
      modifies table
      ensures table[..] == Removed(old(table[..]), key)
    {
      ghost var before := table[..];
      var i := 0;
      while i < table.Length
        invariant i <= table.Length && table[..] == before && FindKey(before, key, 0) == FindKey(before, key, i)
      {
        if table[i].key == Some(key) {
          table[i] := table[i].(key := None);
          return;
        }
        i := i + 1;
      }
    }
  }
}
