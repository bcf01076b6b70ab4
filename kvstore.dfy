/** The in-memory key-value store (`InmemoryKVStoreImpl`) and the factory that
    picks a backend by its type tag (`kvstore_impl`).

    The store is a Python dict: a map from keys to values plus the order in
    which keys were first inserted, which is the order every enumeration
    (`range`, `list_keys`, iterating `_store.items()`) follows. */
module KVStore {
  import opened Wrappers
  import opened Seqs

  /** Python's `<` on `str`: code point by code point, and a proper prefix
      before any longer string. */
  predicate StrLess(a: string, b: string)
    decreases |a|
  {
    if a == [] then b != []
    else if b == [] then false
    else if a[0] != b[0] then a[0] < b[0]
    else StrLess(a[1..], b[1..])
  }

  /** Python's `<=` on `str`. */
  predicate StrLessEq(a: string, b: string)
  {
    a == b || StrLess(a, b)
  }

  lemma {:induction false} StrLessIrreflexive(a: string)
    ensures !StrLess(a, a)
  {
    if a != [] {
      StrLessIrreflexive(a[1..]);
    }
  }

  lemma {:induction false} StrLessTransitive(a: string, b: string, c: string)
    requires StrLess(a, b) && StrLess(b, c)
    ensures StrLess(a, c)
  {
    if a != [] && a[0] == b[0] && b[0] == c[0] {
      StrLessTransitive(a[1..], b[1..], c[1..]);
    }
  }

  lemma {:induction false} StrLessTotal(a: string, b: string)
    ensures a == b || StrLess(a, b) || StrLess(b, a)
  {
    if a != [] && b != [] && a[0] == b[0] {
      StrLessTotal(a[1..], b[1..]);
      assert a == [a[0]] + a[1..] && b == [b[0]] + b[1..];
    }
  }

  lemma StrLessAsymmetric(a: string, b: string)
    requires StrLess(a, b)
    ensures !StrLess(b, a)
  {
    if StrLess(b, a) {
      StrLessTransitive(a, b, a);
      StrLessIrreflexive(a);
    }
  }

  /** The condition `range` filters keys by: `start_key <= key < end_key`. */
  function InRange(startKey: string, endKey: string): string -> bool
  {
    key => StrLessEq(startKey, key) && StrLess(key, endKey)
  }

  /** `key.startswith(prefix)`; on sequences Dafny's `<=` is "is a prefix of". */
  function HasPrefix(prefix: string): string -> bool
  {
    key => prefix <= key
  }

  /** The keys `range(startKey, endKey)` visits, in enumeration order. */
  function RangeKeys(order: seq<string>, startKey: string, endKey: string): seq<string>
  {
    Filter(order, InRange(startKey, endKey))
  }

  /** The keys `list_keys(prefix)` returns. */
  function PrefixKeys(order: seq<string>, prefix: Option<string>): seq<string>
  {
    match prefix
    case None => order
    case Some(p) => Filter(order, HasPrefix(p))
  }

  /** The enumeration order after `_store[key] = value`: an overwritten key
      keeps its place, a new key goes last. */
  function PutOrder(order: seq<string>, key: string): seq<string>
  {
    if key in order then order else order + [key]
  }

  /** Map and enumeration order describe the same keys, each once. */
  ghost predicate Consistent(store: map<string, string>, order: seq<string>)
  {
    NoDup(order) && forall k :: k in store <==> k in order
  }

  class InmemoryKVStore {
    var store: map<string, string>
    var order: seq<string>

    ghost predicate Valid()
      reads this
    {
      Consistent(store, order)
    }

    constructor ()
      ensures Valid() && store == map[] && order == []
    {
      store := map[];
      order := [];
    }

    /** `self._store.get(key)` */
    function Get(key: string): (r: Option<string>)
      reads this
      ensures r.Some? <==> key in store
      ensures r.Some? ==> r.value == store[key]
      ensures Valid() ==> (r.Some? <==> key in order)
    {
      if key in store then Some(store[key]) else None
    }

    /** `self._store[key] = value`; the expiration argument is ignored. */
    method Set(key: string, value: string)
      requires Valid()
      modifies this
      ensures Valid()
      ensures store == old(store)[key := value]
      ensures order == PutOrder(old(order), key)
      ensures Get(key) == Some(value)
      ensures forall k :: k != key ==> Get(k) == old(Get(k))
      ensures old(key in store) ==> order == old(order) && store.Keys == old(store.Keys)
      ensures old(key !in store) ==> order == old(order) + [key]
    {
      if key !in store {
        order := order + [key];
      }
      store := store[key := value];
    }

    /** `del self._store[key]` when the key is present; nothing otherwise. */
    method Delete(key: string)
      requires Valid()
      modifies this
      ensures Valid()
      ensures store == old(store) - {key}
      ensures order == Without(old(order), key)
      ensures Get(key) == None
      ensures forall k :: k != key ==> Get(k) == old(Get(k))
      ensures old(key !in store) ==> store == old(store) && order == old(order)
    {
      if key in store {
        store := store - {key};
        FilterNoDup(order, NotEqualTo(key));
        forall k ensures k in Without(order, key) <==> k in order && k != key {
          WithoutMember(order, key, k);
        }
        order := Without(order, key);
      } else {
        WithoutAbsent(order, key);
      }
    }

    /** `[self._store[key] for key in self._store.keys() if start_key <= key < end_key]` */
    function Range(startKey: string, endKey: string): (r: seq<string>)
      reads this
      requires Valid()
      ensures |r| == |RangeKeys(order, startKey, endKey)|
      ensures forall i :: 0 <= i < |r| ==> r[i] == store[RangeKeys(order, startKey, endKey)[i]]
    {
      var keys, m := RangeKeys(order, startKey, endKey), store;
      seq(|keys|, i requires 0 <= i < |keys| => m[keys[i]])
    }

    /** `list(self._store.keys())`, or only the keys beginning with `prefix`;
        `ListKeysExact` characterises the result. */
    function ListKeys(prefix: Option<string>): (r: seq<string>)
      reads this
      ensures prefix.None? ==> r == order
      ensures |r| <= |order|
      ensures forall i :: 0 <= i < |r| ==> r[i] in order && (prefix.Some? ==> prefix.value <= r[i])
    {
      PrefixKeys(order, prefix)
    }
  }

  /** `range` visits exactly the stored keys with `start <= key < end`. */
  lemma RangeKeysExact(store: map<string, string>, order: seq<string>,
                       startKey: string, endKey: string, key: string)
    requires Consistent(store, order)
    ensures key in RangeKeys(order, startKey, endKey) <==>
            key in store && StrLessEq(startKey, key) && StrLess(key, endKey)
  {
    FilterMember(order, InRange(startKey, endKey), key);
  }

  /** ... each once, in enumeration order. */
  lemma RangeKeysOrdered(store: map<string, string>, order: seq<string>,
                         startKey: string, endKey: string)
    requires Consistent(store, order)
    ensures NoDup(RangeKeys(order, startKey, endKey))
    ensures IsSubsequence(RangeKeys(order, startKey, endKey), order)
  {
    FilterNoDup(order, InRange(startKey, endKey));
    FilterIsSubsequence(order, InRange(startKey, endKey));
  }

  /** The end bound is exclusive, the start bound inclusive. */
  lemma RangeBounds(store: map<string, string>, order: seq<string>,
                    startKey: string, endKey: string)
    requires Consistent(store, order)
    ensures endKey !in RangeKeys(order, startKey, endKey)
    ensures startKey in store && StrLess(startKey, endKey) ==>
            startKey in RangeKeys(order, startKey, endKey)
  {
    RangeKeysExact(store, order, startKey, endKey, endKey);
    RangeKeysExact(store, order, startKey, endKey, startKey);
    StrLessIrreflexive(endKey);
  }

  /** A range whose end does not lie after its start is empty. */
  lemma RangeEmpty(order: seq<string>, startKey: string, endKey: string)
    requires StrLessEq(endKey, startKey)
    ensures RangeKeys(order, startKey, endKey) == []
  {
    var keys := RangeKeys(order, startKey, endKey);
    if keys != [] {
      var k := keys[0];
      assert StrLessEq(startKey, k) && StrLess(k, endKey);
      if startKey == k {
        if endKey == startKey { StrLessIrreflexive(k); } else { StrLessAsymmetric(endKey, k); }
      } else if endKey == startKey {
        StrLessAsymmetric(startKey, k);
      } else {
        StrLessTransitive(endKey, startKey, k);
        StrLessAsymmetric(endKey, k);
      }
    }
  }

  /** `list_keys(None)` is every stored key, each once; `list_keys(p)` is
      exactly the stored keys that start with `p`, in enumeration order. */
  lemma ListKeysExact(store: map<string, string>, order: seq<string>, prefix: string, key: string)
    requires Consistent(store, order)
    ensures NoDup(PrefixKeys(order, None)) && (key in PrefixKeys(order, None) <==> key in store)
    ensures key in PrefixKeys(order, Some(prefix)) <==> key in store && prefix <= key
    ensures NoDup(PrefixKeys(order, Some(prefix)))
    ensures IsSubsequence(PrefixKeys(order, Some(prefix)), order)
  {
    FilterMember(order, HasPrefix(prefix), key);
    FilterNoDup(order, HasPrefix(prefix));
    FilterIsSubsequence(order, HasPrefix(prefix));
  }

  /** Storing a key that is already present keeps the key set and the order. */
  lemma OverwriteKeepsOrder(store: map<string, string>, order: seq<string>, key: string, value: string)
    requires Consistent(store, order) && key in store
    ensures PutOrder(order, key) == order
    ensures store[key := value].Keys == store.Keys
    ensures Consistent(store[key := value], PutOrder(order, key))
  {
  }

  /** The `KVStoreType` tags `kvstore_impl` knows. */
  datatype KVStoreType = Redis | Sqlite | Postgres | MongoDB

  function TypeValue(t: KVStoreType): string
  {
    match t
    case Redis => "redis"
    case Sqlite => "sqlite"
    case Postgres => "postgres"
    case MongoDB => "mongodb"
  }

  /** The store implementations that exist, the in-memory one included. */
  datatype StoreImpl =
    | InmemoryKVStoreImpl
    | RedisKVStoreImpl
    | SqliteKVStoreImpl
    | PostgresKVStoreImpl
    | MongoDBKVStoreImpl

  /** `kvstore_impl(config)`: dispatch on `config.type`; an unknown tag is a
      `ValueError`. Connecting and `initialize` are not modelled. */
  function KVStoreImpl(typeTag: string): (r: Result<StoreImpl, string>)
    ensures r.Success? <==> exists t: KVStoreType :: typeTag == TypeValue(t)
    ensures r.Success? ==> r.value != InmemoryKVStoreImpl
    ensures r.Failure? ==> r.error == "Unknown kvstore type " + typeTag
  {
    if typeTag == TypeValue(Redis) then Success(RedisKVStoreImpl)
    else if typeTag == TypeValue(Sqlite) then Success(SqliteKVStoreImpl)
    else if typeTag == TypeValue(Postgres) then Success(PostgresKVStoreImpl)
    else if typeTag == TypeValue(MongoDB) then Success(MongoDBKVStoreImpl)
    else
      assert forall t: KVStoreType :: typeTag != TypeValue(t);
      Failure("Unknown kvstore type " + typeTag)
  }

  /** Each tag selects its own backend, and different tags different ones. */
  lemma KVStoreImplSelects(t: KVStoreType, u: KVStoreType)
    ensures KVStoreImpl(TypeValue(t)).Success?
    ensures t != u ==> KVStoreImpl(TypeValue(t)) != KVStoreImpl(TypeValue(u))
  {
  }
}
