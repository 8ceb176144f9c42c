/** The ordered-dictionary representation of a JSON object: a map from property
    name to value together with the list of its entries in insertion order,
    which every operation keeps in step with the map. */
module JsonObject {

  /** One `KeyValuePair<string, V>` of the entry list. */
  datatype Entry<V> = Entry(key: string, value: V)

  /** The keys of the entries, in order. */
  function KeysOf<V>(l: seq<Entry<V>>): (ks: seq<string>)
    ensures |ks| == |l|
    ensures forall i :: 0 <= i < |l| ==> ks[i] == l[i].key
  {
    seq(|l|, i requires 0 <= i < |l| => l[i].key)
  }

  function KeySet<V>(l: seq<Entry<V>>): set<string> {
    set i | 0 <= i < |l| :: l[i].key
  }

  predicate DistinctKeys<V>(l: seq<Entry<V>>) {
    forall i, j :: 0 <= i < j < |l| ==> l[i].key != l[j].key
  }

  /** The map and the entry list describe the same object: one entry per key,
      carrying the value the map holds for it. */
  predicate InSync<V(==)>(m: map<string, V>, l: seq<Entry<V>>) {
    && DistinctKeys(l)
    && m.Keys == KeySet(l)
    && forall i :: 0 <= i < |l| ==> l[i].key in m && m[l[i].key] == l[i].value
  }

  /** Position of the first entry whose key is `k`. */
  function IndexOfKey<V>(l: seq<Entry<V>>, k: string): (i: nat)
    requires k in KeySet(l)
    ensures i < |l| && l[i].key == k
    ensures forall j :: 0 <= j < i ==> l[j].key != k
  {
    if l[0].key == k then 0
    else
      assert k in KeySet(l[1..]) by {
        var n :| 0 <= n < |l| && l[n].key == k;
        assert l[1..][n - 1].key == k;
      }
      1 + IndexOfKey(l[1..], k)
  }

  /** The entry list after `this[k] = v`: the entry for an existing key is
      replaced where it stands, a new key is appended. */
  function PutEntry<V>(l: seq<Entry<V>>, k: string, v: V): seq<Entry<V>> {
    if k in KeySet(l) then l[IndexOfKey(l, k) := Entry(k, v)] else l + [Entry(k, v)]
  }

  /** The entry list after removing key `k`: the first entry for it is dropped. */
  function DropEntry<V>(l: seq<Entry<V>>, k: string): seq<Entry<V>> {
    if k in KeySet(l) then
      var i := IndexOfKey(l, k);
      l[..i] + l[i + 1..]
    else l
  }

  /** The entry list after assigning value `v` at position `i`: the key there stays. */
  function SetValueAt<V>(l: seq<Entry<V>>, i: nat, v: V): seq<Entry<V>>
    requires i < |l|
  {
    l[i := Entry(l[i].key, v)]
  }

  /** With distinct keys, an index holding key `k` is the first one. */
  lemma UniqueIndex<V>(l: seq<Entry<V>>, k: string, i: nat)
    requires DistinctKeys(l) && i < |l| && l[i].key == k
    ensures k in KeySet(l) && IndexOfKey(l, k) == i
  {
  }

  /** Two entry lists with the same key at every position have the same keys. */
  lemma SameKeys<V>(l: seq<Entry<V>>, s: seq<Entry<V>>)
    requires |s| == |l| && forall j :: 0 <= j < |l| ==> s[j].key == l[j].key
    ensures KeySet(s) == KeySet(l) && KeysOf(s) == KeysOf(l)
    ensures DistinctKeys(l) ==> DistinctKeys(s)
  {
    forall x | x in KeySet(l) ensures x in KeySet(s) {
      var n :| 0 <= n < |l| && l[n].key == x;
      assert s[n].key == x;
    }
  }

  /** Assigning at an index keeps the map and the list in step and keeps the keys. */
  lemma SetValueAtKeepsSync<V>(m: map<string, V>, l: seq<Entry<V>>, i: nat, v: V)
    requires InSync(m, l) && i < |l|
    ensures InSync(m[l[i].key := v], SetValueAt(l, i, v))
    ensures KeysOf(SetValueAt(l, i, v)) == KeysOf(l)
  {
    var s := SetValueAt(l, i, v);
    var k := l[i].key;
    var m' := m[k := v];
    SameKeys(l, s);
    assert m'.Keys == m.Keys;
    forall j | 0 <= j < |s| ensures s[j].key in m' && m'[s[j].key] == s[j].value {
      if j != i {
        assert l[j].key != k;
        assert s[j] == l[j];
      }
    }
  }

  /** Setting a property keeps the map and the list in step; an existing key
      keeps its position, a new key goes last. */
  lemma PutKeepsSync<V>(m: map<string, V>, l: seq<Entry<V>>, k: string, v: V)
    requires InSync(m, l)
    ensures InSync(m[k := v], PutEntry(l, k, v))
    ensures k in m ==> KeysOf(PutEntry(l, k, v)) == KeysOf(l)
    ensures k !in m ==> KeysOf(PutEntry(l, k, v)) == KeysOf(l) + [k]
  {
    if k in m {
      var i := IndexOfKey(l, k);
      assert PutEntry(l, k, v) == SetValueAt(l, i, v);
      SetValueAtKeepsSync(m, l, i, v);
    } else {
      var p := l + [Entry(k, v)];
      assert PutEntry(l, k, v) == p;
      var m' := m[k := v];
      assert KeySet(p) == KeySet(l) + {k} by {
        assert p[|l|].key == k;
        forall x | x in KeySet(l) ensures x in KeySet(p) {
          var n :| 0 <= n < |l| && l[n].key == x;
          assert p[n].key == x;
        }
      }
      assert DistinctKeys(p) by {
        forall a, b | 0 <= a < b < |p| ensures p[a].key != p[b].key {
          if b == |l| {
            assert p[a].key in KeySet(l);
          }
        }
      }
      forall j | 0 <= j < |p| ensures p[j].key in m' && m'[p[j].key] == p[j].value {
        if j < |l| {
          assert p[j] == l[j];
          assert l[j].key in KeySet(l);
        }
      }
      assert KeysOf(p) == KeysOf(l) + [k];
    }
  }

  /** Position in `l` of position `j` of `l` with entry `i` removed. */
  function Skip(i: nat, j: nat): nat {
    if j < i then j else j + 1
  }

  lemma RemoveAtEntries<V>(l: seq<Entry<V>>, i: nat)
    requires i < |l|
    ensures |l[..i] + l[i + 1..]| == |l| - 1
    ensures forall j :: 0 <= j < |l| - 1 ==> (l[..i] + l[i + 1..])[j] == l[Skip(i, j)]
  {
  }

  lemma RemoveAtDistinct<V>(l: seq<Entry<V>>, i: nat)
    requires DistinctKeys(l) && i < |l|
    ensures DistinctKeys(l[..i] + l[i + 1..])
  {
    var d := l[..i] + l[i + 1..];
    RemoveAtEntries(l, i);
    forall a, b | 0 <= a < b < |d| ensures d[a].key != d[b].key {
      assert d[a] == l[Skip(i, a)] && d[b] == l[Skip(i, b)];
    }
  }

  lemma RemoveAtKeySet<V>(l: seq<Entry<V>>, i: nat)
    requires DistinctKeys(l) && i < |l|
    ensures KeySet(l[..i] + l[i + 1..]) == KeySet(l) - {l[i].key}
  {
    var d := l[..i] + l[i + 1..];
    RemoveAtEntries(l, i);
    forall x | x in KeySet(l) - {l[i].key} ensures x in KeySet(d) {
      var n :| 0 <= n < |l| && l[n].key == x;
      if n < i {
        assert d[n] == l[n];
      } else {
        assert d[n - 1] == l[n];
      }
    }
    forall x | x in KeySet(d) ensures x in KeySet(l) - {l[i].key} {
      var n :| 0 <= n < |d| && d[n].key == x;
      assert d[n] == l[Skip(i, n)];
    }
  }

  lemma RemoveAtKeysOf<V>(l: seq<Entry<V>>, i: nat)
    requires i < |l|
    ensures KeysOf(l[..i] + l[i + 1..]) == KeysOf(l)[..i] + KeysOf(l)[i + 1..]
  {
    var d := l[..i] + l[i + 1..];
    RemoveAtEntries(l, i);
    var ks := KeysOf(l);
    var r := ks[..i] + ks[i + 1..];
    assert |r| == |d|;
    var kd := KeysOf(d);
    forall j | 0 <= j < |d| ensures kd[j] == r[j] {
      assert kd[j] == d[j].key;
      assert d[j] == l[Skip(i, j)];
      assert r[j] == ks[Skip(i, j)];
    }
    assert kd == r;
  }

  /** Removing a key keeps the map and the list in step; the list loses
      exactly the entry of that key, and the other entries keep their order. */
  lemma DropKeepsSync<V>(m: map<string, V>, l: seq<Entry<V>>, k: string)
    requires InSync(m, l)
    ensures InSync(m - {k}, DropEntry(l, k))
    ensures k in m ==> |DropEntry(l, k)| == |l| - 1
    ensures k !in m ==> DropEntry(l, k) == l
    ensures k in m ==>
      KeysOf(DropEntry(l, k)) == KeysOf(l)[..IndexOfKey(l, k)] + KeysOf(l)[IndexOfKey(l, k) + 1..]
  {
    if k in m {
      var i := IndexOfKey(l, k);
      var d := l[..i] + l[i + 1..];
      assert DropEntry(l, k) == d;
      RemoveAtDistinct(l, i);
      RemoveAtKeySet(l, i);
      RemoveAtKeysOf(l, i);
      RemoveAtEntries(l, i);
      var m' := m - {k};
      forall j | 0 <= j < |d| ensures d[j].key in m' && m'[d[j].key] == d[j].value {
        assert d[j] == l[Skip(i, j)];
      }
    } else {
      assert k !in KeySet(l);
    }
  }

  /** The object's `Count` (the map's) equals the length of the entry list. */
  lemma {:induction false} SyncSize<V>(m: map<string, V>, l: seq<Entry<V>>)
    requires InSync(m, l)
    ensures |m| == |l|
  {
    if |l| == 0 {
      assert m.Keys == {};
      assert m == map[];
    } else {
      var k := l[0].key;
      assert k in m;
      DropKeepsSync(m, l, k);
      SyncSize(m - {k}, DropEntry(l, k));
      assert |m - {k}| == |m| - 1;
    }
  }
}
