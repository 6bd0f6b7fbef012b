/** A client of the Yoki class that replays the repository's demo script and the
    expectations written beside each of its calls. */
module CacheDemo {
  import opened KeyOrder
  import opened PoolSpec
  import opened JsRuntime
  import opened YokiCache

  /** The runtime's judgement of the demo's payloads: plain objects, which JSON.stringify
      accepts and a template literal turns into "[object Object]". */
  function Plain(): Runtime<string>
  {
    Runtime(s => true, s => true)
  }

  /** The pool after the demo's three creates on a new cache. */
  function DemoPool(): Pool<string>
  {
    var p1 := Insert(Empty(), Str("1"), Defined("Yoki test 1"));
    var p2 := Insert(p1, Str("2"), Defined("Yoki test 2"));
    Insert(p2, Str("3"), Defined("Yoki test 3"))
  }

  /** What the demo expects of that pool: keys in creation order, values alongside them,
      size three, and the string key "1" found while the number key 1 is not. */
  lemma DemoPoolFacts()
    ensures DemoPool().order == [Str("1"), Str("2"), Str("3")]
    ensures ValuesOf(DemoPool().order, DemoPool().store)
            == [Defined("Yoki test 1"), Defined("Yoki test 2"), Defined("Yoki test 3")]
    ensures Count(DemoPool()) == 3
    ensures Get(DemoPool(), Str("1")) == Defined("Yoki test 1")
    ensures !Has(DemoPool(), Num(1)) && !Has(DemoPool(), Str("4"))
    ensures Remove(DemoPool(), Str("2")).order == [Str("1"), Str("3")]
  {
  }

  /** The demo script: three creates on a new cache; the keys come back in insertion order,
      the values position by position, and the size is three. */
  method DemoScript() returns (keys: seq<Key>, values: seq<JsValue<string>>, size: nat)
    ensures keys == [Str("1"), Str("2"), Str("3")]
    ensures values == [Defined("Yoki test 1"), Defined("Yoki test 2"), Defined("Yoki test 3")]
    ensures size == 3
  {
    var cache := new Yoki<string>(Config(true, None));
    var n := cache.Size();
    assert n == 0;

    var r := cache.Create(Str("1"), Defined("Yoki test 1"), Plain());
    assert r == Returned(Defined("Yoki test 1"));
    r := cache.Create(Str("2"), Defined("Yoki test 2"), Plain());
    r := cache.Create(Str("3"), Defined("Yoki test 3"), Plain());
    assert cache.State() == DemoPool();
    DemoPoolFacts();

    var e := cache.Exists(Str("1"));
    assert e;
    e := cache.Exists(Num(1));
    assert !e;
    var f := cache.Find(Str("1"), Plain());
    assert f == Returned(Defined("Yoki test 1"));
    f := cache.Find(Str("4"), Plain());
    assert f == Returned(Undefined);

    keys := cache.FindKeys();
    values := cache.FindValues();
    size := cache.Size();
  }

  /** After the same three creates: deleting the middle key keeps the other two in order,
      and deleting it again reports false. */
  method DeleteScript() returns (first: bool, second: bool, keys: seq<Key>)
    ensures first && !second
    ensures keys == [Str("1"), Str("3")]
  {
    var cache := new Yoki<string>(Config(false, None));
    var r := cache.Create(Str("1"), Defined("Yoki test 1"), Plain());
    r := cache.Create(Str("2"), Defined("Yoki test 2"), Plain());
    r := cache.Create(Str("3"), Defined("Yoki test 3"), Plain());
    assert cache.State() == DemoPool();
    DemoPoolFacts();

    first := cache.Delete(Str("2"));
    assert cache.State() == Remove(DemoPool(), Str("2"));
    second := cache.Delete(Str("2"));
    RemoveIdempotent(DemoPool(), Str("2"));
    keys := cache.FindKeys();
  }

  /** After the same three creates, clearing leaves an empty pool in which "1" no longer
      exists. */
  method ClearScript() returns (after: nat, present: bool)
    ensures after == 0 && !present
  {
    var cache := new Yoki<string>(Config(false, None));
    var r := cache.Create(Str("1"), Defined("Yoki test 1"), Plain());
    r := cache.Create(Str("2"), Defined("Yoki test 2"), Plain());
    r := cache.Create(Str("3"), Defined("Yoki test 3"), Plain());
    cache.Clear();
    after := cache.Size();
    present := cache.Exists(Str("1"));
  }

  /** A payload JSON.stringify rejects (a BigInt, say) makes create throw before anything is
      stored: the pool stays empty. */
  method RejectedCreateScript() returns (r: Outcome<JsValue<string>>, size: nat, present: bool)
    ensures r == Threw && size == 0 && !present
  {
    var cache := new Yoki<string>(Config(false, None));
    var bigint := Runtime(s => s != "1n", s => true);
    r := cache.Create(Str("a"), Defined("1n"), bigint);
    size := cache.Size();
    present := cache.Exists(Str("a"));
  }

  /** A payload that JSON.stringify accepts but a template literal cannot convert (a Symbol,
      say) is stored, and a later find on it throws; a miss still returns `undefined`. */
  method ThrowingFindScript() returns (created: Outcome<JsValue<string>>, hit: Outcome<JsValue<string>>, miss: Outcome<JsValue<string>>)
    ensures created == Returned(Defined("sym")) && hit == Threw && miss == Returned(Undefined)
  {
    var cache := new Yoki<string>(Config(false, None));
    var symbol := Runtime(s => true, s => s != "sym");
    created := cache.Create(Str("a"), Defined("sym"), symbol);
    hit := cache.Find(Str("a"), symbol);
    miss := cache.Find(Str("b"), symbol);
  }

  /** Two objects are stored; the second is then made circular, so the default forEach walk
      traces the first entry and throws at the second. */
  method ThrowingWalkScript() returns (visited: seq<Entry<string>>, threw: bool)
    ensures visited == [Entry(Str("a"), Defined("o1"))] && threw
  {
    var cache := new Yoki<string>(Config(false, None));
    var r := cache.Create(Str("a"), Defined("o1"), Plain());
    r := cache.Create(Str("b"), Defined("o2"), Plain());
    assert cache.State() == Pool([Str("a"), Str("b")], map[Str("a") := Defined("o1"), Str("b") := Defined("o2")]);
    var circular := Runtime(s => s != "o2", s => true);
    visited, threw := cache.ForEach(false, circular);
  }
}
