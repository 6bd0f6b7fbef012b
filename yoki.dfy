/** The Yoki cache: a class that owns one pool (a JavaScript Map) and forwards every
    operation to it. Each method is specified against the pool functions of PoolSpec. */
module YokiCache {
  import opened KeyOrder
  import opened PoolSpec
  import opened JsRuntime

  datatype Option<T> = None | Some(value: T)

  /** The configuration handed to the constructor and kept in `configuration`. */
  datatype Config = Config(debugMode: bool, maxCacheSize: Option<int>)

  /** Above this many entries, forEach without a callback cancels its diagnostic walk. */
  const DefaultWalkLimit := 250

  class Yoki<T> {
    /** The settings the cache was constructed with. */
    var configuration: Config
    /** The pool's keys in insertion order: the order the Map enumerates them in. */
    var order: seq<Key>
    /** The value stored under each key. */
    var store: map<Key, JsValue<T>>

    /** The pool as an abstract value. */
    ghost function State(): Pool<T>
      reads this
    {
      Pool(order, store)
    }

    ghost predicate Valid()
      reads this
    {
      Wf(State())
    }

    /** Keeps the configuration and starts from an empty pool. */
    constructor (config: Config)
      ensures Valid() && State() == Empty() && Count(State()) == 0
      ensures configuration == config
    {
      configuration := config;
      order := [];
      store := map[];
    }

    /** Stores `value` under `key`, overwriting any earlier value, and returns `value`.
        The trace message is built first and stringifies `value`; when that throws, nothing
        is stored. */
    method Create(key: Key, value: JsValue<T>, rt: Runtime<T>) returns (r: Outcome<JsValue<T>>)
      requires Valid()
      modifies this
      ensures Valid() && configuration == old(configuration)
      ensures r.Threw? <==> !Stringifies(rt, value)
      ensures r.Returned? ==> r.value == value
      ensures r.Returned? ==> State() == Insert(old(State()), key, value)
      ensures r.Returned? ==> store == old(store)[key := value]
      ensures r.Returned? ==> order == if key in old(store) then old(order) else old(order) + [key]
      ensures r.Threw? ==> State() == old(State())
    {
      if !Stringifies(rt, value) {
        r := Threw;
        return;
      }
      InsertWf(State(), key, value);
      if key !in store {
        order := order + [key];
      }
      store := store[key := value];
      r := Returned(value);
    }

    /** Whether `key` is in the pool. */
    method Exists(key: Key) returns (b: bool)
      requires Valid()
      ensures b <==> Has(State(), key)
      ensures b <==> key in order
    {
      b := key in store;
    }

    /** Visits the entries in enumeration order and returns those visited: with a callback,
        every entry is given to it; without one, the default walk traces entries until it
        reaches a value JSON.stringify rejects, where it throws, and it is skipped altogether
        for a pool of more than DefaultWalkLimit entries. The pool is never changed. */
    method ForEach(withCallback: bool, rt: Runtime<T>) returns (visited: seq<Entry<T>>, threw: bool)
      requires Valid()
      ensures withCallback ==> visited == Entries(State()) && !threw
      ensures !withCallback && Count(State()) > DefaultWalkLimit ==> visited == [] && !threw
      ensures !withCallback && Count(State()) <= DefaultWalkLimit ==>
        && visited == Entries(State())[..TracedCount(rt, Entries(State()))]
        && (threw <==> TracedCount(rt, Entries(State())) < Count(State()))
    {
      CountIsKeyCount(order, store);
      visited, threw := [], false;
      if withCallback || |store| <= DefaultWalkLimit {
        var i := 0;
        while i < |order|
          invariant 0 <= i <= |order|
          invariant |visited| == i
          invariant forall j :: 0 <= j < i ==> visited[j] == Entry(order[j], store[order[j]])
          invariant !withCallback ==> forall j :: 0 <= j < i ==> Stringifies(rt, visited[j].value)
        {
          var e := Entry(order[i], store[order[i]]);
          if !withCallback && !Stringifies(rt, e.value) {
            break;
          }
          visited := visited + [e];
          i := i + 1;
        }
        threw := i < |order|;
        ghost var es := Entries(State());
        ghost var n := TracedCount(rt, es);
        assert visited == es[..i];
        if !withCallback {
          assert n == i;
        }
      }
    }

    /** The value stored under `key`; `undefined` both when the key is missing and when
        `undefined` itself is stored there. A miss is not an error; a hit builds a trace
        message that turns the value into a string, and throws when that conversion does. */
    method Find(key: Key, rt: Runtime<T>) returns (r: Outcome<JsValue<T>>)
      requires Valid()
      ensures r.Threw? <==> key in store && !Converts(rt, store[key])
      ensures r.Returned? ==> r.value == Get(State(), key)
      ensures r.Returned? ==> (r.value.Undefined? <==> key !in store || store[key].Undefined?)
      ensures r.Returned? && r.value.Defined? ==> key in order
      ensures key !in store ==> r == Returned(Undefined)
    {
      var value := if key in store then store[key] else Undefined;
      if value.Defined? {
        if !Converts(rt, value) {
          r := Threw;
          return;
        }
        r := Returned(value);
      } else {
        r := Returned(value);
      }
    }

    /** The keys, in insertion order, each exactly once. */
    method FindKeys() returns (keys: seq<Key>)
      requires Valid()
      ensures keys == State().order
      ensures NoDup(keys) && |keys| == Count(State())
      ensures forall k :: k in keys <==> Has(State(), k)
    {
      CountIsKeyCount(order, store);
      keys := order;
    }

    /** The values, the i-th one stored under the i-th key of FindKeys. */
    method FindValues() returns (values: seq<JsValue<T>>)
      requires Valid()
      ensures values == Values(State())
      ensures |values| == Count(State())
      ensures forall i :: 0 <= i < |order| ==> values[i] == Get(State(), order[i])
    {
      CountIsKeyCount(order, store);
      values := ValuesOf(order, store);
    }

    /** Removes `key` and tells whether it was there. */
    method Delete(key: Key) returns (b: bool)
      requires Valid()
      modifies this
      ensures Valid() && configuration == old(configuration)
      ensures b == Has(old(State()), key)
      ensures State() == Remove(old(State()), key)
    {
      RemoveWf(State(), key);
      b := key in store;
      order := Without(order, key);
      store := store - {key};
    }

    /** Empties the pool. */
    method Clear()
      modifies this
      ensures Valid() && configuration == old(configuration)
      ensures State() == Empty()
      ensures Count(State()) == 0 && forall k :: !Has(State(), k)
    {
      order := [];
      store := map[];
    }

    /** The number of entries, which is also the number of keys FindKeys returns. */
    method Size() returns (n: nat)
      requires Valid()
      ensures n == Count(State())
      ensures n == |order|
    {
      CountIsKeyCount(order, store);
      n := |store|;
    }
  }
}
