/**
 * The cache backends of kata/cache.py.
 *
 * `Memory` is the in-process reference store: a dictionary from key to
 * `(value, absoluteExpiry)` that forgets expired entries lazily, on read.
 * The wall clock is the explicit parameter `now`. The networked stores are
 * represented only by the key prefixing of `Redis._key`.
 */
module Cache {
  import opened Wrappers
  import opened Strings
  import opened Seqs

  /** A stored pair: the value (`None` is Python's `None`, which may be stored) and its absolute expiry. */
  datatype Entry<V> = Entry(value: Option<V>, expiry: Option<int>)

  /** The contents of `Memory._data`. */
  type Store<V> = map<string, Entry<V>>

  /** Python truthiness of an optional number: neither `None` nor `0`. */
  predicate Truthy(n: Option<int>) {
    n.Some? && n.value != 0
  }

  /** `get` forgets an entry when its expiry is truthy and lies strictly in the past. */
  predicate Expired<V>(e: Entry<V>, now: int) {
    Truthy(e.expiry) && now > e.expiry.value
  }

  /** The entry `set` stores: a truthy relative `expire` becomes `now + expire`, otherwise no expiry. */
  function Stamp<V>(value: Option<V>, expire: Option<int>, now: int): Entry<V> {
    if Truthy(expire) then Entry(value, Some(now + expire.value)) else Entry(value, None)
  }

  /** What `get(key)` returns at time `now`: absent, expired and stored-`None` all read as `None`. */
  function Lookup<V>(data: Store<V>, key: string, now: int): Option<V> {
    if key in data && !Expired(data[key], now) then data[key].value else None
  }

  /** The store after reading every key of `keys` at time `now`: their expired entries are gone. */
  function EvictAll<V>(data: Store<V>, keys: set<string>, now: int): (r: Store<V>)
    ensures forall k :: k in r ==> k in data && r[k] == data[k]
    ensures forall k :: k in data ==> (k !in r <==> k in keys && Expired(data[k], now))
  {
    map k | k in data && !(k in keys && Expired(data[k], now)) :: data[k]
  }

  /** The store after one `get(key)` at time `now`. */
  function Evict<V>(data: Store<V>, key: string, now: int): Store<V> {
    EvictAll(data, {key}, now)
  }

  /** The store after `set_multi(values, expire)` at time `now`. */
  function SetAll<V>(data: Store<V>, values: map<string, Option<V>>, expire: Option<int>, now: int): Store<V> {
    data + map k | k in values :: Stamp(values[k], expire, now)
  }

  /** Deleting `keys` one after the other, as `delete_multi` does. */
  function DeleteEach<V>(data: Store<V>, keys: seq<string>): Store<V>
    decreases |keys|
  {
    if keys == [] then data else DeleteEach(data - {keys[0]}, keys[1..])
  }

  /** Setting `pairs` one after the other, as `set_multi` does over the items of its dictionary. */
  function SetEach<V>(data: Store<V>, pairs: seq<(string, Option<V>)>, expire: Option<int>, now: int): Store<V>
    decreases |pairs|
  {
    if pairs == [] then data
    else SetEach(data[pairs[0].0 := Stamp(pairs[0].1, expire, now)], pairs[1..], expire, now)
  }

  /** The keys of `pairs`, which a dictionary's items never repeat. */
  predicate DistinctKeys<V>(pairs: seq<(string, Option<V>)>) {
    forall i, j :: 0 <= i < j < |pairs| ==> pairs[i].0 != pairs[j].0
  }

  /** The dictionary whose items are `pairs`. */
  function PairsMap<V>(pairs: seq<(string, Option<V>)>): (m: map<string, Option<V>>)
    requires DistinctKeys(pairs)
    ensures m.Keys == set i | 0 <= i < |pairs| :: pairs[i].0
    ensures forall i :: 0 <= i < |pairs| ==> m[pairs[i].0] == pairs[i].1
  {
    map i | 0 <= i < |pairs| :: pairs[i].0 := pairs[i].1
  }

  /** `delete_multi` is `delete` applied to each key in turn, and it removes exactly the listed keys. */
  lemma {:induction false} DeleteEachIsBulkDelete<V>(data: Store<V>, keys: seq<string>)
    ensures DeleteEach(data, keys) == data - Elements(keys)
    decreases |keys|
  {
    if keys != [] {
      DeleteEachIsBulkDelete(data - {keys[0]}, keys[1..]);
      assert Elements(keys) == {keys[0]} + Elements(keys[1..]);
    }
  }

  /** Peeling the first item off a dictionary's item list. */
  lemma PairsMapCons<V>(pairs: seq<(string, Option<V>)>)
    requires DistinctKeys(pairs) && pairs != []
    ensures DistinctKeys(pairs[1..])
    ensures pairs[0].0 !in PairsMap(pairs[1..])
    ensures PairsMap(pairs) == PairsMap(pairs[1..])[pairs[0].0 := pairs[0].1]
  {
    var rest := pairs[1..];
    assert DistinctKeys(rest);
    var m, m' := PairsMap(pairs), PairsMap(rest);
    assert pairs[0].0 !in m';
    var n := m'[pairs[0].0 := pairs[0].1];
    forall k | k in m
      ensures k in n && m[k] == n[k]
    {
      var i :| 0 <= i < |pairs| && pairs[i].0 == k;
    }
    assert m.Keys == n.Keys;
  }

  /** Adding one more item to what `set_multi` writes adds one more `set`. */
  lemma SetAllExtend<V>(data: Store<V>, values: map<string, Option<V>>, key: string, v: Option<V>, expire: Option<int>, now: int)
    ensures SetAll(data, values[key := v], expire, now) == SetAll(data, values, expire, now)[key := Stamp(v, expire, now)]
  {
    var lhs, rhs := SetAll(data, values[key := v], expire, now), SetAll(data, values, expire, now)[key := Stamp(v, expire, now)];
    assert lhs.Keys == rhs.Keys;
  }

  /** Writing a key the bulk update does not mention commutes with the bulk update. */
  lemma SetAllOver<V>(data: Store<V>, values: map<string, Option<V>>, key: string, e: Entry<V>, expire: Option<int>, now: int)
    requires key !in values
    ensures SetAll(data[key := e], values, expire, now) == SetAll(data, values, expire, now)[key := e]
  {
    var lhs, rhs := SetAll(data[key := e], values, expire, now), SetAll(data, values, expire, now)[key := e];
    assert lhs.Keys == rhs.Keys;
  }

  /** `set_multi` is `set` applied to each item in turn: later items never overwrite earlier ones, because keys are distinct. */
  lemma {:induction false} SetEachIsSetAll<V>(data: Store<V>, pairs: seq<(string, Option<V>)>, expire: Option<int>, now: int)
    requires DistinctKeys(pairs)
    ensures SetEach(data, pairs, expire, now) == SetAll(data, PairsMap(pairs), expire, now)
    decreases |pairs|
  {
    if pairs != [] {
      var k, v := pairs[0].0, pairs[0].1;
      PairsMapCons(pairs);
      var m' := PairsMap(pairs[1..]);
      SetEachIsSetAll(data[k := Stamp(v, expire, now)], pairs[1..], expire, now);
      SetAllOver(data, m', k, Stamp(v, expire, now), expire, now);
      SetAllExtend(data, m', k, v, expire, now);
    }
  }

  /** Read-your-write: a value set without expiry is what every later `get` returns. */
  lemma ReadYourWrite<V>(data: Store<V>, key: string, v: V, now: int, later: int)
    ensures Lookup(data[key := Stamp(Some(v), None, now)], key, later) == Some(v)
  {
  }

  /**
   * A value set with a truthy `expire` is returned up to and including `now + expire`, and is gone
   * after it. An absolute expiry of exactly 0 is falsy in Python and never expires.
   */
  lemma ExpiryWindow<V>(data: Store<V>, key: string, v: V, expire: int, now: int, later: int)
    requires expire != 0 && now + expire != 0
    ensures Lookup(data[key := Stamp(Some(v), Some(expire), now)], key, later)
         == if later <= now + expire then Some(v) else None
  {
  }

  /** Deleting makes `get` return `None` and leaves every other key's reading alone. */
  lemma DeleteForgets<V>(data: Store<V>, key: string, other: string, now: int)
    ensures Lookup(data - {key}, key, now) == None
    ensures other != key ==> Lookup(data - {other}, key, now) == Lookup(data, key, now)
    ensures key !in data ==> data - {key} == data
  {
  }

  /** A stored `None` reads exactly like an absent key. */
  lemma StoredNoneLooksAbsent<V>(data: Store<V>, key: string, expiry: Option<int>, now: int)
    ensures Lookup(data[key := Entry(None, expiry)], key, now) == Lookup(data - {key}, key, now) == None
  {
  }

  /** Lazy expiry is invisible: reading after an eviction gives what reading before it gave. */
  lemma EvictionUnobservable<V>(data: Store<V>, keys: set<string>, now: int, key: string)
    ensures Lookup(EvictAll(data, keys, now), key, now) == Lookup(data, key, now)
  {
  }

  /** Two rounds of eviction at the same time are one round over both key sets. */
  lemma EvictAllUnion<V>(data: Store<V>, a: set<string>, b: set<string>, now: int)
    ensures EvictAll(EvictAll(data, a, now), b, now) == EvictAll(data, a + b, now)
  {
    var lhs, rhs := EvictAll(EvictAll(data, a, now), b, now), EvictAll(data, a + b, now);
    assert lhs.Keys == rhs.Keys;
  }

  /** Setting a key changes the reading of that key only. */
  lemma SetTouchesOneKey<V>(data: Store<V>, key: string, e: Entry<V>, other: string, now: int)
    requires other != key
    ensures Lookup(data[key := e], other, now) == Lookup(data, other, now)
  {
  }

  /** The behaviour of `Memory.set` (kata/cache.py:89-90) as written: `time` is never imported in its scope. */
  function SetAsWritten<V>(data: Store<V>, key: string, value: Option<V>, expire: Option<int>): (r: Result<Store<V>, string>)
    ensures r.Failure? <==> Truthy(expire)
    ensures r.Success? ==> r.value == data[key := Entry(value, None)]
  {
    if Truthy(expire) then Failure("NameError: name 'time' is not defined")
    else Success(data[key := Entry(value, None)])
  }

  /** Every expiring write raises as written, so every container write (which passes expire=3600) raises too. */
  lemma ExpiringSetRaisesAsWritten<V>(data: Store<V>, key: string, value: Option<V>)
    ensures SetAsWritten(data, key, value, Some(3600)).Failure?
  {
  }

  /**
   * The in-process backend `Memory`. Its methods change `data` in place as the Python methods change
   * `self._data`; the clock is the parameter `now`.
   */
  class Memory<V> {
    var data: Store<V>

    constructor ()
      ensures data == map[]
    {
      data := map[];
    }

    /** `_data.pop(key, None)`: removes `key` if present. */
    method Delete(key: string)
      modifies this
      ensures data == old(data) - {key}
    {
      data := data - {key};
    }

    /** Removes every listed key, one after the other. */
    method DeleteMulti(keys: seq<string>)
      modifies this
      ensures data == DeleteEach(old(data), keys)
      ensures data == old(data) - Elements(keys)
    {
      var i := 0;
      while i < |keys|
        invariant 0 <= i <= |keys|
        invariant DeleteEach(old(data), keys) == DeleteEach(data, keys[i..])
      {
        assert keys[i..][1..] == keys[i + 1..];
        Delete(keys[i]);
        i := i + 1;
      }
      DeleteEachIsBulkDelete(old(data), keys);
    }

    /** Reads `key`; an expired entry is removed as a side effect and reads as `None`. */
    method Get(key: string, now: int) returns (r: Option<V>)
      modifies this
      ensures r == Lookup(old(data), key, now)
      ensures data == Evict(old(data), key, now)
    {
      if key in data && Truthy(data[key].expiry) && now > data[key].expiry.value {
        Delete(key);
        r := None;
      } else {
        r := if key in data then data[key].value else None;
        assert data == Evict(data, key, now);
      }
    }

    /** A list as long as `keys` whose i-th element is what `get(keys[i])` returns. */
    method GetMulti(keys: seq<string>, now: int) returns (rs: seq<Option<V>>)
      modifies this
      ensures |rs| == |keys|
      ensures forall i :: 0 <= i < |keys| ==> rs[i] == Lookup(old(data), keys[i], now)
      ensures data == EvictAll(old(data), Elements(keys), now)
    {
      rs := [];
      var i := 0;
      assert EvictAll(old(data), Elements(keys[..0]), now) == old(data);
      while i < |keys|
        invariant 0 <= i <= |keys| && |rs| == i
        invariant forall j :: 0 <= j < i ==> rs[j] == Lookup(old(data), keys[j], now)
        invariant data == EvictAll(old(data), Elements(keys[..i]), now)
      {
        ghost var before := data;
        EvictionUnobservable(old(data), Elements(keys[..i]), now, keys[i]);
        var r := Get(keys[i], now);
        EvictAllUnion(old(data), Elements(keys[..i]), {keys[i]}, now);
        assert (Elements(keys[..i + 1])) == (Elements(keys[..i])) + {keys[i]} by {
          assert keys[..i + 1] == keys[..i] + [keys[i]];
        }
        rs := rs + [r];
        i := i + 1;
      }
      assert keys[..i] == keys;
    }

    /** `set` with the clock as a parameter: stores `value` with the expiry `Stamp` computes. */
    method Set(key: string, value: Option<V>, expire: Option<int>, now: int)
      modifies this
      ensures data == old(data)[key := Stamp(value, expire, now)]
    {
      data := data[key := Stamp(value, expire, now)];
    }

    /** `set` applied to every item of `values`. */
    method SetMulti(values: map<string, Option<V>>, expire: Option<int>, now: int)
      modifies this
      ensures data == SetAll(old(data), values, expire, now)
    {
      var rest, done := values.Keys, map[];
      while rest != {}
        invariant rest <= values.Keys && done.Keys == values.Keys - rest
        invariant forall k :: k in done ==> done[k] == values[k]
        invariant data == SetAll(old(data), done, expire, now)
        decreases rest
      {
        var k :| k in rest;
        SetAllExtend(old(data), done, k, values[k], expire, now);
        Set(k, values[k], expire, now);
        done, rest := done[k := values[k]], rest - {k};
      }
      assert done == values;
    }
  }

  /** The key namespace of a `Redis` backend: the prefix is fixed when the backend is built. */
  datatype RedisNamespace = RedisNamespace(prefix: string) {

    /** `_key(key)`: the prefix followed by the key's text. */
    function Key(key: string): (r: string)
      ensures StartsWith(r, prefix)
      ensures r[|prefix|..] == key
    {
      prefix + key
    }
  }

  /** One namespace never maps two keys to the same stored key. */
  lemma RedisKeyInjective(ns: RedisNamespace, a: string, b: string)
    ensures ns.Key(a) == ns.Key(b) ==> a == b
  {
    if ns.Key(a) == ns.Key(b) {
      assert a == ns.Key(a)[|ns.prefix|..];
    }
  }

  /** Namespaces whose prefixes are not prefixes of one another never share a stored key. */
  lemma RedisNamespacesIsolated(n1: RedisNamespace, n2: RedisNamespace, a: string, b: string)
    requires !StartsWith(n1.prefix, n2.prefix) && !StartsWith(n2.prefix, n1.prefix)
    ensures n1.Key(a) != n2.Key(b)
  {
    if |n1.prefix| <= |n2.prefix| {
      assert n1.Key(a)[..|n1.prefix|] == n1.prefix;
      assert n2.Key(b)[..|n1.prefix|] == n2.prefix[..|n1.prefix|];
    } else {
      assert n2.Key(b)[..|n2.prefix|] == n2.prefix;
      assert n1.Key(a)[..|n2.prefix|] == n1.prefix[..|n2.prefix|];
    }
  }
}
