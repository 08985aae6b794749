/** Python's insertion-ordered `dict` with text keys, as the list of its
    entries in first-insertion order. */
module OrderedDicts {
  import opened Exceptions

  type Dict<V> = seq<(string, V)>

  /** `k in d` */
  predicate HasKey<V>(t: Dict<V>, k: string)
    decreases |t|
  {
    t != [] && (t[0].0 == k || HasKey(t[1..], k))
  }

  /** No key occurs twice: every dictionary the operations below build. */
  predicate Distinct<V>(t: Dict<V>)
    decreases |t|
  {
    t == [] || (!HasKey(t[1..], t[0].0) && Distinct(t[1..]))
  }

  /** `d.get(k)`, `None` for an absent key. */
  function Find<V>(t: Dict<V>, k: string): (r: Option<V>)
    ensures r.Some? <==> HasKey(t, k)
    ensures r.Some? ==> (k, r.value) in t
    decreases |t|
  {
    if t == [] then None else if t[0].0 == k then Some(t[0].1) else Find(t[1..], k)
  }

  /** `d.get(k, fallback)` */
  function Lookup<V>(t: Dict<V>, k: string, fallback: V): (v: V)
    ensures !HasKey(t, k) ==> v == fallback
    ensures HasKey(t, k) ==> (k, v) in t
  {
    Find(t, k).GetOr(fallback)
  }

  /** `list(d.keys())` */
  function Keys<V>(t: Dict<V>): (ks: seq<string>)
    ensures |ks| == |t|
    ensures forall i :: 0 <= i < |t| ==> ks[i] == t[i].0
  {
    seq(|t|, i requires 0 <= i < |t| => t[i].0)
  }

  /** `d[k] = v`: an existing key keeps its place and gets the new value; a
      new key goes last. */
  function Put<V>(t: Dict<V>, k: string, v: V): (r: Dict<V>)
    ensures Find(r, k) == Some(v)
    ensures forall k' :: k' != k ==> Find(r, k') == Find(t, k')
    ensures !HasKey(t, k) ==> r == t + [(k, v)]
    decreases |t|
  {
    if t == [] then [(k, v)]
    else if t[0].0 == k then [(k, v)] + t[1..]
    else [t[0]] + Put(t[1..], k, v)
  }

  /** After an assignment every entry is the new one or an old one. */
  lemma {:induction false} PutMembers<V>(t: Dict<V>, k: string, v: V)
    ensures forall e :: e in Put(t, k, v) ==> e in t || e == (k, v)
    decreases |t|
  {
    if t != [] && t[0].0 != k {
      PutMembers(t[1..], k, v);
    }
  }

  /** An assignment keeps a dictionary free of repeated keys. */
  lemma {:induction false} PutDistinct<V>(t: Dict<V>, k: string, v: V)
    requires Distinct(t)
    ensures Distinct(Put(t, k, v))
    decreases |t|
  {
    if t != [] && t[0].0 != k {
      PutDistinct(t[1..], k, v);
      var r := Put(t[1..], k, v);
      assert Find(r, t[0].0) == Find(t[1..], t[0].0);
      assert Put(t, k, v) == [t[0]] + r;
    }
  }

  /** Assigning a key twice is assigning it the second value. */
  lemma {:induction false} PutTwice<V>(t: Dict<V>, k: string, v1: V, v2: V)
    ensures Put(Put(t, k, v1), k, v2) == Put(t, k, v2)
    decreases |t|
  {
    if t != [] && t[0].0 != k {
      PutTwice(t[1..], k, v1, v2);
    }
  }

  /** An assignment never moves a key already present: the keys keep their
      order and only the value of `k` changes. */
  lemma {:induction false} PutKeepsKeys<V>(t: Dict<V>, k: string, v: V)
    requires HasKey(t, k)
    ensures Keys(Put(t, k, v)) == Keys(t)
  {
    PutSameKeys(t, k, v);
  }

  lemma {:induction false} PutSameKeys<V>(t: Dict<V>, k: string, v: V)
    requires HasKey(t, k)
    ensures |Put(t, k, v)| == |t|
    ensures forall i :: 0 <= i < |t| ==> Put(t, k, v)[i].0 == t[i].0
    decreases |t|
  {
    if t[0].0 != k {
      PutSameKeys(t[1..], k, v);
      assert Put(t, k, v) == [t[0]] + Put(t[1..], k, v);
    }
  }

  /** The dictionary as a map. */
  function ToMap<V>(t: Dict<V>): (m: map<string, V>)
    ensures forall k :: k in m <==> HasKey(t, k)
    ensures forall k :: k in m ==> Find(t, k) == Some(m[k])
    decreases |t|
  {
    if t == [] then map[] else ToMap(t[1..])[t[0].0 := t[0].1]
  }

  /** `d[k] = v` for each item in turn. */
  function PutAll<V>(t: Dict<V>, items: Dict<V>): Dict<V>
    decreases |items|
  {
    if items == [] then t else PutAll(Put(t, items[0].0, items[0].1), items[1..])
  }

  /** Assigning one more item is one more `Put` after the others. */
  lemma {:induction false} PutAllSnoc<V>(t: Dict<V>, items: Dict<V>, x: (string, V))
    ensures PutAll(t, items + [x]) == Put(PutAll(t, items), x.0, x.1)
    decreases |items|
  {
    if items == [] {
      assert items + [x] == [x];
    } else {
      assert (items + [x])[0] == items[0] && (items + [x])[1..] == items[1..] + [x];
      PutAllSnoc(Put(t, items[0].0, items[0].1), items[1..], x);
    }
  }

  /** `d.pop(k)` once `k` is known to be present: every entry with key `k`
      is dropped and the others keep their order. */
  function Remove<V>(t: Dict<V>, k: string): (r: Dict<V>)
    ensures forall k' :: HasKey(r, k') <==> k' != k && HasKey(t, k')
    ensures forall k' :: k' != k ==> Find(r, k') == Find(t, k')
    ensures forall e :: e in r ==> e in t
    ensures |r| <= |t|
    decreases |t|
  {
    if t == [] then []
    else if t[0].0 == k then Remove(t[1..], k)
    else [t[0]] + Remove(t[1..], k)
  }

  /** Assigning `a`, then `b`, is assigning `a + b`. */
  lemma {:induction false} PutAllConcat<V>(t: Dict<V>, a: Dict<V>, b: Dict<V>)
    ensures PutAll(t, a + b) == PutAll(PutAll(t, a), b)
    decreases |a|
  {
    if a == [] {
      assert a + b == b;
    } else {
      assert (a + b)[0] == a[0] && (a + b)[1..] == a[1..] + b;
      PutAllConcat(Put(t, a[0].0, a[0].1), a[1..], b);
    }
  }

  /** Removing a key keeps a dictionary free of repeated keys. */
  lemma {:induction false} RemoveDistinct<V>(t: Dict<V>, k: string)
    requires Distinct(t)
    ensures Distinct(Remove(t, k))
    decreases |t|
  {
    if t != [] {
      RemoveDistinct(t[1..], k);
      if t[0].0 != k {
        assert Remove(t, k) == [t[0]] + Remove(t[1..], k);
      }
    }
  }

  lemma {:induction false} HasKeyConcat<V>(a: Dict<V>, b: Dict<V>, k: string)
    ensures HasKey(a + b, k) <==> HasKey(a, k) || HasKey(b, k)
    decreases |a|
  {
    if a == [] {
      assert a + b == b;
    } else {
      assert (a + b)[0] == a[0] && (a + b)[1..] == a[1..] + b;
      HasKeyConcat(a[1..], b, k);
    }
  }

  /** In a dictionary without repeated keys, a later key is not an earlier one. */
  lemma {:induction false} DistinctSplit<V>(a: Dict<V>, b: Dict<V>)
    requires Distinct(a + b) && b != []
    ensures !HasKey(a, b[0].0)
    decreases |a|
  {
    if a != [] {
      assert (a + b)[0] == a[0] && (a + b)[1..] == a[1..] + b;
      HasKeyConcat(a[1..], b, a[0].0);
      assert HasKey(b, b[0].0);
      HasKeyConcat(a[1..], b, b[0].0);
      DistinctSplit(a[1..], b);
    }
  }

  lemma PutFresh<V>(t: Dict<V>, x: (string, V)) returns (t': Dict<V>)
    requires !HasKey(t, x.0)
    ensures t' == Put(t, x.0, x.1) == t + [x]
  {
    t' := Put(t, x.0, x.1);
  }

  /** Assigning the keys of a dictionary without repeated keys, in order,
      appends its entries. */
  lemma {:induction false} PutAllFresh<V>(t: Dict<V>, items: Dict<V>)
    requires Distinct(t + items)
    ensures PutAll(t, items) == t + items
    decreases |items|
  {
    if items == [] {
      assert t + items == t;
    } else {
      var x, rest := items[0], items[1..];
      DistinctSplit(t, items);
      var t' := PutFresh(t, x);
      assert t' + rest == t + items;
      PutAllFresh(t', rest);
    }
  }

  /** Filling an empty dictionary from distinct entries rebuilds them. */
  lemma PutAllIntoEmpty<V>(items: Dict<V>)
    requires Distinct(items)
    ensures PutAll([], items) == items
  {
    assert [] + items == items;
    PutAllFresh([], items);
  }
}
