/** A dictionary that remembers the order in which its keys were first inserted, as Python's does. */
module Dicts {
  import opened Prelude

  datatype Item<K, V> = Item(key: K, value: V)

  type Dict<K, V> = seq<Item<K, V>>

  ghost predicate UniqueKeys<K, V>(d: Dict<K, V>) {
    forall i, j :: 0 <= i < j < |d| ==> d[i].key != d[j].key
  }

  predicate HasKey<K(==), V>(d: Dict<K, V>, k: K) {
    exists i :: 0 <= i < |d| && d[i].key == k
  }

  function Find<K(==), V>(d: Dict<K, V>, k: K): (r: Option<V>)
    ensures r.Some? <==> HasKey(d, k)
    ensures r.Some? ==> Item(k, r.value) in d
  {
    if d == [] then None
    else if d[0].key == k then assert HasKey(d, k); Some(d[0].value)
    else
      assert HasKey(d[1..], k) <==> HasKey(d, k) by {
        if HasKey(d, k) {
          var i :| 0 <= i < |d| && d[i].key == k;
          assert d[1..][i - 1].key == k;
        }
        if HasKey(d[1..], k) {
          var i :| 0 <= i < |d[1..]| && d[1..][i].key == k;
          assert d[i + 1].key == k;
        }
      }
      assert forall x :: x in d[1..] ==> x in d;
      Find(d[1..], k)
  }

  /** A new key goes to the end; an old one keeps its place. */
  function Put<K(==), V>(d: Dict<K, V>, k: K, v: V): Dict<K, V> {
    if d == [] then [Item(k, v)]
    else if d[0].key == k then [Item(k, v)] + d[1..]
    else [d[0]] + Put(d[1..], k, v)
  }

  function Removed<K(==), V>(d: Dict<K, V>, k: K): Dict<K, V> {
    if d == [] then []
    else if d[0].key == k then d[1..]
    else [d[0]] + Removed(d[1..], k)
  }

  function ValuesOf<K, V>(d: Dict<K, V>): (r: seq<V>)
    ensures |r| == |d| && forall i :: 0 <= i < |r| ==> r[i] == d[i].value
  {
    seq(|d|, i requires 0 <= i < |d| => d[i].value)
  }

  /** Putting under a new key appends. */
  lemma {:induction false} PutNew<K, V>(d: Dict<K, V>, k: K, v: V)
    requires forall i :: 0 <= i < |d| ==> d[i].key != k
    ensures Put(d, k, v) == d + [Item(k, v)]
  {
    if d != [] {
      PutNew(d[1..], k, v);
    }
  }

  /** Putting under an old key keeps every key in its place. */
  lemma {:induction false} PutKeepsPlaces<K, V>(d: Dict<K, V>, k: K, v: V)
    requires HasKey(d, k)
    ensures |Put(d, k, v)| == |d| && forall i :: 0 <= i < |d| ==> Put(d, k, v)[i].key == d[i].key
  {
    if d[0].key != k {
      var i :| 0 <= i < |d| && d[i].key == k;
      assert d[1..][i - 1].key == k;
      PutKeepsPlaces(d[1..], k, v);
    }
  }

  lemma {:induction false} FindTail<K, V>(d: Dict<K, V>, k: K)
    requires d != []
    ensures Find(d, k) == if d[0].key == k then Some(d[0].value) else Find(d[1..], k)
  {
  }

  lemma {:induction false} FindNone<K, V>(d: Dict<K, V>, k: K)
    requires forall i :: 0 <= i < |d| ==> d[i].key != k
    ensures Find(d, k) == None
  {
  }

  lemma {:induction false} FindPut<K, V>(d: Dict<K, V>, k: K, v: V, j: K)
    ensures Find(Put(d, k, v), j) == if j == k then Some(v) else Find(d, j)
  {
    hide HasKey;
    if d == [] {
      FindTail([Item(k, v)], j);
      assert [Item(k, v)][1..] == [];
    } else if d[0].key == k {
      FindTail([Item(k, v)] + d[1..], j);
      assert ([Item(k, v)] + d[1..])[1..] == d[1..];
    } else {
      FindPut(d[1..], k, v, j);
      FindTail([d[0]] + Put(d[1..], k, v), j);
      assert ([d[0]] + Put(d[1..], k, v))[1..] == Put(d[1..], k, v);
    }
  }

  lemma {:induction false} PutKeys<K, V>(d: Dict<K, V>, k: K, v: V)
    ensures forall i :: 0 <= i < |Put(d, k, v)| ==> Put(d, k, v)[i].key == k || HasKey(d, Put(d, k, v)[i].key)
    ensures UniqueKeys(d) ==> UniqueKeys(Put(d, k, v))
  {
    var r := Put(d, k, v);
    if d == [] {
    } else if d[0].key == k {
      assert forall i :: 0 < i < |r| ==> r[i] == d[i];
    } else {
      PutKeys(d[1..], k, v);
      var t := Put(d[1..], k, v);
      forall i | 0 <= i < |r|
        ensures r[i].key == k || HasKey(d, r[i].key)
        ensures i > 0 && UniqueKeys(d) ==> r[i].key != d[0].key
      {
        if i == 0 {
          assert d[0].key == r[0].key;
        } else {
          assert r[i] == t[i - 1];
          if t[i - 1].key != k {
            var m :| 0 <= m < |d[1..]| && d[1..][m].key == t[i - 1].key;
            assert d[m + 1].key == r[i].key;
          }
        }
      }
    }
  }

  /** Putting adds at most the new item. */
  lemma {:induction false} PutItems<K, V>(d: Dict<K, V>, k: K, v: V)
    ensures forall i :: 0 <= i < |Put(d, k, v)| ==> Put(d, k, v)[i] == Item(k, v) || Put(d, k, v)[i] in d
  {
    if d != [] && d[0].key != k {
      PutItems(d[1..], k, v);
    }
  }

  lemma {:induction false} RemovedKeys<K, V>(d: Dict<K, V>, k: K)
    requires UniqueKeys(d)
    ensures UniqueKeys(Removed(d, k))
    ensures forall i :: 0 <= i < |Removed(d, k)| ==> Removed(d, k)[i] in d && Removed(d, k)[i].key != k
  {
    if d != [] && d[0].key != k {
      RemovedKeys(d[1..], k);
      var t := Removed(d[1..], k);
      forall i | 0 <= i < |t|
        ensures t[i] in d && t[i].key != d[0].key
      {
        var m :| 0 <= m < |d[1..]| && d[1..][m] == t[i];
        assert d[m + 1] == t[i];
      }
    }
  }

  lemma {:induction false} FindRemoved<K, V>(d: Dict<K, V>, k: K, j: K)
    requires UniqueKeys(d)
    ensures Find(Removed(d, k), j) == if j == k then None else Find(d, j)
  {
    hide HasKey;
    if d != [] {
      FindTail(d, j);
      if d[0].key == k {
        if j == k {
          FindNone(d[1..], k);
        }
      } else {
        FindRemoved(d[1..], k, j);
        FindTail([d[0]] + Removed(d[1..], k), j);
        assert ([d[0]] + Removed(d[1..], k))[1..] == Removed(d[1..], k);
      }
    }
  }
}
