/** The abstract content of the Yoki cache pool and the effect of each Map operation the
    pool performs on it. The class in module YokiCache is specified against these
    functions; the lemmas below state what the operations promise. */
module PoolSpec {
  import opened KeyOrder

  /** A JavaScript value as the pool stores it: `undefined`, or a defined payload. */
  datatype JsValue<T> = Undefined | Defined(payload: T)

  /** One (key, value) pair, as Map.forEach hands it to a visitor. */
  datatype Entry<T> = Entry(key: Key, value: JsValue<T>)

  /** The keys in insertion order (the order a Map enumerates them in) and the value
      stored under each key. */
  datatype Pool<T> = Pool(order: seq<Key>, store: map<Key, JsValue<T>>)

  /** The pool invariant: keys never repeat, and the ordered keys are exactly the stored keys. */
  ghost predicate Wf<T>(p: Pool<T>)
  {
    NoDup(p.order) && forall k :: k in p.store <==> k in p.order
  }

  /** A freshly constructed Map. */
  function Empty<T>(): Pool<T>
  {
    Pool([], map[])
  }

  /** Map.set: the value is stored under `k`; a new key goes last in the order, a key
      already present keeps its place. */
  function Insert<T>(p: Pool<T>, k: Key, v: JsValue<T>): Pool<T>
  {
    Pool(if k in p.store then p.order else p.order + [k], p.store[k := v])
  }

  /** Map.delete: `k` and its value are gone, the other keys keep their order. */
  function Remove<T>(p: Pool<T>, k: Key): Pool<T>
  {
    Pool(Without(p.order, k), p.store - {k})
  }

  /** Map.has. */
  predicate Has<T>(p: Pool<T>, k: Key)
  {
    k in p.store
  }

  /** Map.get: the stored value, or `undefined` for a key that is not there. */
  function Get<T>(p: Pool<T>, k: Key): JsValue<T>
  {
    if k in p.store then p.store[k] else Undefined
  }

  /** Map.size. */
  function Count<T>(p: Pool<T>): nat
  {
    |p.store|
  }

  /** The values stored under `order`, position by position. */
  function ValuesOf<T>(order: seq<Key>, store: map<Key, JsValue<T>>): (r: seq<JsValue<T>>)
    requires forall k :: k in order ==> k in store
    ensures |r| == |order|
    ensures forall i :: 0 <= i < |order| ==> r[i] == store[order[i]]
  {
    if order == [] then [] else [store[order[0]]] + ValuesOf(order[1..], store)
  }

  /** The (key, value) pairs of `order`, position by position. */
  function EntriesOf<T>(order: seq<Key>, store: map<Key, JsValue<T>>): (r: seq<Entry<T>>)
    requires forall k :: k in order ==> k in store
    ensures |r| == |order|
    ensures forall i :: 0 <= i < |order| ==> r[i] == Entry(order[i], store[order[i]])
  {
    if order == [] then [] else [Entry(order[0], store[order[0]])] + EntriesOf(order[1..], store)
  }

  /** Map.values, in enumeration order. */
  function Values<T>(p: Pool<T>): seq<JsValue<T>>
    requires Wf(p)
  {
    ValuesOf(p.order, p.store)
  }

  /** The entries Map.forEach visits, in enumeration order. */
  function Entries<T>(p: Pool<T>): seq<Entry<T>>
    requires Wf(p)
  {
    EntriesOf(p.order, p.store)
  }

  /** The size of a well-formed pool is the number of keys in its enumeration. */
  lemma {:induction false} CountIsKeyCount<T>(order: seq<Key>, store: map<Key, JsValue<T>>)
    requires Wf(Pool(order, store))
    ensures |store| == |order|
  {
    if order == [] {
      assert store.Keys == {};
    } else {
      var k := order[0];
      var rest := store - {k};
      assert k !in order[1..] by {
        forall j | 0 <= j < |order[1..]| ensures order[1..][j] != k {
          assert order[1..][j] == order[j + 1];
        }
      }
      assert NoDup(order[1..]) by {
        forall a, b | 0 <= a < b < |order[1..]| ensures order[1..][a] != order[1..][b] {
          assert order[1..][a] == order[a + 1] && order[1..][b] == order[b + 1];
        }
      }
      forall x ensures x in rest <==> x in order[1..] {
        assert x in order <==> x == k || x in order[1..] by {
          assert order == [k] + order[1..];
        }
      }
      CountIsKeyCount(order[1..], rest);
      assert rest.Keys == store.Keys - {k};
    }
  }

  /** Map.set keeps the pool invariant. */
  lemma InsertWf<T>(p: Pool<T>, k: Key, v: JsValue<T>)
    requires Wf(p)
    ensures Wf(Insert(p, k, v))
  {
  }

  /** After create(k, v): k exists, find(k) gives v, and every other key reads as before. */
  lemma InsertThenGet<T>(p: Pool<T>, k: Key, v: JsValue<T>)
    ensures Has(Insert(p, k, v), k) && Get(Insert(p, k, v), k) == v
    ensures forall j :: j != k ==> Get(Insert(p, k, v), j) == Get(p, j)
  {
  }

  /** Overwriting a key already present leaves the size and the key order unchanged. */
  lemma InsertPresent<T>(p: Pool<T>, k: Key, v: JsValue<T>)
    requires Wf(p) && Has(p, k)
    ensures Count(Insert(p, k, v)) == Count(p)
    ensures Insert(p, k, v).order == p.order
  {
  }

  /** Inserting a new key grows the size by one and puts the key last in the key order. */
  lemma InsertAbsent<T>(p: Pool<T>, k: Key, v: JsValue<T>)
    requires Wf(p) && !Has(p, k)
    ensures Count(Insert(p, k, v)) == Count(p) + 1
    ensures Insert(p, k, v).order == p.order + [k]
  {
  }

  /** A second create on the same key replaces the first: the last write wins. */
  lemma InsertOverwrites<T>(p: Pool<T>, k: Key, v1: JsValue<T>, v2: JsValue<T>)
    ensures Insert(Insert(p, k, v1), k, v2) == Insert(p, k, v2)
  {
  }

  /** Map.delete keeps the pool invariant. */
  lemma RemoveWf<T>(p: Pool<T>, k: Key)
    requires Wf(p)
    ensures Wf(Remove(p, k))
  {
    WithoutNoDup(p.order, k);
  }

  /** delete(k): afterwards k is absent, the size drops by one exactly when k was present,
      and every other key keeps its value. */
  lemma RemoveEffect<T>(p: Pool<T>, k: Key)
    requires Wf(p)
    ensures !Has(Remove(p, k), k)
    ensures Count(Remove(p, k)) == if Has(p, k) then Count(p) - 1 else Count(p)
    ensures forall j :: j != k ==> Get(Remove(p, k), j) == Get(p, j)
  {
  }

  /** delete(k): the key order loses exactly k's position and keeps every other key in its
      relative place; it is unchanged when k was absent. */
  lemma RemoveKeepsOrder<T>(p: Pool<T>, k: Key)
    requires Wf(p)
    ensures Has(p, k) ==> exists i :: 0 <= i < |p.order| && p.order[i] == k &&
                                      Remove(p, k).order == p.order[..i] + p.order[i + 1..]
    ensures !Has(p, k) ==> Remove(p, k).order == p.order
  {
    if Has(p, k) {
      var i :| 0 <= i < |p.order| && p.order[i] == k;
      WithoutSplice(p.order, k, i);
    } else {
      WithoutAbsent(p.order, k);
    }
  }

  /** Deleting twice is the same as deleting once. */
  lemma RemoveIdempotent<T>(p: Pool<T>, k: Key)
    ensures Remove(Remove(p, k), k) == Remove(p, k)
  {
    WithoutAbsent(Without(p.order, k), k);
    assert Remove(p, k).store - {k} == Remove(p, k).store;
  }

  /** Creating a new key and deleting it again gives back the pool as it was. */
  lemma InsertThenRemove<T>(p: Pool<T>, k: Key, v: JsValue<T>)
    requires Wf(p) && !Has(p, k)
    ensures Remove(Insert(p, k, v), k) == p
  {
    WithoutSplice(p.order + [k], k, |p.order|) by {
      InsertWf(p, k, v);
    }
    assert (p.order + [k])[..|p.order|] == p.order;
    assert p.store[k := v] - {k} == p.store;
  }

  /** findKeys and findValues both have the pool's size, and the i-th value is the one
      stored under the i-th key; the keys never repeat. */
  lemma KeysValuesCorrespond<T>(p: Pool<T>)
    requires Wf(p)
    ensures |p.order| == Count(p) && |Values(p)| == Count(p)
    ensures NoDup(p.order)
    ensures forall i :: 0 <= i < |p.order| ==> Has(p, p.order[i]) && Values(p)[i] == Get(p, p.order[i])
  {
    CountIsKeyCount(p.order, p.store);
  }

  /** The entries forEach visits pair the i-th key with the i-th value, and there are as
      many as the pool's size. */
  lemma EntriesCorrespond<T>(p: Pool<T>)
    requires Wf(p)
    ensures |Entries(p)| == Count(p)
    ensures forall i :: 0 <= i < |p.order| ==>
      Entries(p)[i].key == p.order[i] && Entries(p)[i].value == Values(p)[i]
  {
    CountIsKeyCount(p.order, p.store);
  }
}
