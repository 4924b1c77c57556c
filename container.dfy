/**
 * The cache-aside containers of kata/container.py.
 *
 * A container reads through a `Memory` backend and falls back to its data
 * source on a miss. The abstract hooks of the Python classes become plain
 * values: `key()` is a string (Simple) or a function of the item
 * (Attribute), and `pull` is a `DataSource` object that answers with a fixed
 * function of its request and records every request it receives, so the
 * contracts can say exactly when, and with what, the source was asked.
 */
module Container {
  import opened Wrappers
  import opened Cache
  import opened Seqs

  /** `expire()`: what a container writes lives for 3600 seconds. */
  const DefaultExpire: int := 3600

  /** No element of `s` occurs twice. */
  ghost predicate Distinct<T>(s: seq<T>) {
    forall i, j :: 0 <= i < j < |s| ==> s[i] != s[j]
  }

  /** The authoritative data source behind a container (`pull`), with the log of its requests. */
  class DataSource<A, R> {
    const answer: A -> R
    ghost var calls: seq<A>

    constructor (answer: A -> R)
      ensures this.answer == answer && calls == []
    {
      this.answer := answer;
      calls := [];
    }

    /** One round trip to the source. */
    method Pull(request: A) returns (r: R)
      modifies this
      ensures r == answer(request)
      ensures calls == old(calls) + [request]
    {
      r := answer(request);
      calls := calls + [request];
    }
  }

  // ---------------------------------------------------------------------------------------------
  // Simple: one value under one key
  // ---------------------------------------------------------------------------------------------

  /** What one `Simple.get` does: its result, the store afterwards, and whether it pulled. */
  datatype SimpleStep<V> = SimpleStep(result: Option<V>, data: Store<V>, pulled: bool)

  /**
   * `Simple.get` at time `now` against `data`, when `pull()` would answer `answer`: a cached value is
   * returned as is; otherwise the source is asked and a non-`None` answer is written back with
   * `expire()`.
   */
  function SimpleGet<V>(data: Store<V>, key: string, now: int, answer: Option<V>): (r: SimpleStep<V>)
    ensures r.pulled <==> Lookup(data, key, now).None?
    ensures r.result == if r.pulled then answer else Lookup(data, key, now)
    ensures !r.pulled ==> r.data == data
    ensures r.pulled ==> Lookup(r.data, key, now) == answer
  {
    var cached := Lookup(data, key, now);
    if cached.Some? then SimpleStep(cached, data, false)
    else
      var evicted := Evict(data, key, now);
      if answer.Some? then SimpleStep(answer, evicted[key := Stamp(answer, Some(DefaultExpire), now)], true)
      else SimpleStep(None, evicted, true)
  }

  /** A hit is returned without asking the source and without changing the store. */
  lemma SimpleHitSkipsPull<V>(data: Store<V>, key: string, now: int, answer: Option<V>)
    requires Lookup(data, key, now).Some?
    ensures var step := SimpleGet(data, key, now, answer);
      !step.pulled && step.result == Lookup(data, key, now) && step.data == data
  {
  }

  /**
   * A miss asks the source once and returns its answer; a non-`None` answer is what `get` reads for
   * the next `expire()` seconds, and a `None` answer leaves nothing readable behind.
   */
  lemma SimpleMissPullsOnce<V>(data: Store<V>, key: string, now: int, answer: Option<V>, later: int)
    requires Lookup(data, key, now).None?
    requires now + DefaultExpire != 0
    ensures var step := SimpleGet(data, key, now, answer);
      && step.pulled && step.result == answer
      && (answer.Some? && later <= now + DefaultExpire ==> Lookup(step.data, key, later) == answer)
      && (answer.None? ==> Lookup(step.data, key, later) == None)
  {
    var step := SimpleGet(data, key, now, answer);
    if answer.None? && key in step.data {
      assert key in data && data[key] == step.data[key] && !Expired(data[key], now);
    }
  }

  /** `get` changes the reading of no key but its own. */
  lemma SimpleGetTouchesOneKey<V>(data: Store<V>, key: string, now: int, answer: Option<V>, other: string, later: int)
    requires other != key
    ensures Lookup(SimpleGet(data, key, now, answer).data, other, later) == Lookup(data, other, later)
  {
  }

  /** Two `get`s on a fresh key within `expire()` seconds ask the source once. */
  lemma SimpleSecondGetHits<V>(data: Store<V>, key: string, now: int, later: int, answer: V)
    requires Lookup(data, key, now).None?
    requires 0 <= now <= later <= now + DefaultExpire
    ensures var first := SimpleGet(data, key, now, Some(answer));
      var second := SimpleGet(first.data, key, later, Some(answer));
      first.pulled && !second.pulled && second.result == Some(answer)
  {
    SimpleMissPullsOnce(data, key, now, Some(answer), later);
  }

  /** After `dirty`, the next `get` asks the source again. */
  lemma SimpleDirtyForcesPull<V>(data: Store<V>, key: string, now: int, answer: Option<V>)
    ensures SimpleGet(data - {key}, key, now, answer).pulled
  {
  }

  /** Once `expire()` seconds have passed, `get` asks the source again. */
  lemma SimpleExpiryForcesPull<V>(data: Store<V>, key: string, now: int, later: int, answer: V)
    requires Lookup(data, key, now).None?
    requires 0 <= now && now + DefaultExpire < later
    ensures var first := SimpleGet(data, key, now, Some(answer));
      SimpleGet(first.data, key, later, Some(answer)).pulled
  {
  }

  /** `refresh` always asks the source, and leaves the key readable whenever the answer is not `None`. */
  lemma SimpleRefreshRepopulates<V>(data: Store<V>, key: string, now: int, answer: Option<V>)
    requires now + DefaultExpire != 0
    ensures var step := SimpleGet(data - {key}, key, now, answer);
      step.pulled && (answer.Some? ==> Lookup(step.data, key, now) == answer)
  {
  }

  /** `Simple`: a container for one value stored under one key. */
  class Simple<V> {
    const cache: Memory<V>
    const key: string
    const source: DataSource<(), Option<V>>

    constructor (cache: Memory<V>, key: string, source: DataSource<(), Option<V>>)
      ensures this.cache == cache && this.key == key && this.source == source
    {
      this.cache := cache;
      this.key := key;
      this.source := source;
    }

    /** Deletes this container's key, and no other. */
    method Dirty()
      modifies cache
      ensures cache.data == old(cache.data) - {key}
    {
      cache.Delete(key);
    }

    /** Reads through the cache; on a miss asks the source once and writes back a non-`None` answer. */
    method Get(now: int) returns (r: Option<V>)
      modifies cache, source
      ensures var step := SimpleGet(old(cache.data), key, now, source.answer(()));
        && r == step.result
        && cache.data == step.data
        && source.calls == old(source.calls) + (if step.pulled then [()] else [])
    {
      r := cache.Get(key, now);
      if r.Some? {
        assert cache.data == old(cache.data);
        return;
      }
      r := source.Pull(());
      if r.Some? {
        cache.Set(key, r, Some(DefaultExpire), now);
      }
    }

    /** `dirty` followed by `get`. */
    method Refresh(now: int)
      modifies cache, source
      ensures var step := SimpleGet(old(cache.data) - {key}, key, now, source.answer(()));
        cache.data == step.data && source.calls == old(source.calls) + [()]
    {
      Dirty();
      var _ := Get(now);
    }
  }

  // ---------------------------------------------------------------------------------------------
  // Attribute: a batch of items, one key each
  // ---------------------------------------------------------------------------------------------

  /** The argument of `get` and `dirty`: one bare item, or a list or set of items. */
  datatype Items<I(==)> = Scalar(item: I) | Collection(items: set<I>)

  /** What `Attribute.get` returns: the item-to-value dictionary, its first value, or the `IndexError` of `[0]` on an empty one. */
  datatype Reply<I(==), V> = Values(values: map<I, Option<V>>) | First(value: Option<V>) | IndexError

  /** The distinct items of the argument. */
  function Requested<I(==)>(items: Items<I>): set<I> {
    match items
    case Scalar(x) => {x}
    case Collection(s) => s
  }

  /** Whether `one` holds: a bare item with `one` left out means `one=True`. */
  predicate OneResolved<I(==)>(items: Items<I>, one: Option<bool>) {
    if items.Scalar? && one.None? then true else one == Some(true)
  }

  /** `key` never sends two items to the same cache key. */
  ghost predicate Injective<I(!new)>(key: I -> string) {
    forall a, b :: key(a) == key(b) ==> a == b
  }

  /** The cache keys of a set of items. */
  function KeysOf<I(==)>(s: set<I>, key: I -> string): set<string> {
    set x | x in s :: key(x)
  }

  /** `[self.key(item) for item in items]` */
  function KeyList<I(==)>(order: seq<I>, key: I -> string): (r: seq<string>)
    ensures |r| == |order| && forall i :: 0 <= i < |order| ==> r[i] == key(order[i])
  {
    seq(|order|, i requires 0 <= i < |order| => key(order[i]))
  }

  /** The requested items whose cache slot reads `None`. */
  function MissSet<I(==), V>(data: Store<V>, s: set<I>, key: I -> string, now: int): set<I> {
    set x | x in s && Lookup(data, key(x), now).None?
  }

  /** The requested items whose cache slot holds a value, with that value. */
  function Hits<I(==), V>(data: Store<V>, s: set<I>, key: I -> string, now: int): map<I, Option<V>> {
    map x | x in s && Lookup(data, key(x), now).Some? :: Lookup(data, key(x), now)
  }

  /** `{self.key(k): v for k, v in result.items()}` */
  function Keyed<I(==, !new), V>(pulled: map<I, Option<V>>, key: I -> string): (r: map<string, Option<V>>)
    requires Injective(key)
    ensures r.Keys == KeysOf(pulled.Keys, key)
    ensures forall x :: x in pulled ==> r[key(x)] == pulled[x]
  {
    map x | x in pulled :: key(x) := pulled[x]
  }

  /** `[items[i] for i, value in enumerate(cached_result) if value is None]` */
  function Misses<I(==), V>(order: seq<I>, cached: seq<Option<V>>): seq<I>
    requires |order| == |cached|
  {
    if order == [] then []
    else (if cached[0].None? then [order[0]] else []) + Misses(order[1..], cached[1..])
  }

  /** The dictionary built from the cached slots of `order` that hold a value, filled from left to right. */
  function HitMap<I(==), V>(order: seq<I>, cached: seq<Option<V>>): map<I, Option<V>>
    requires |order| == |cached|
    decreases |order|
  {
    if order == [] then map[]
    else
      var n := |order| - 1;
      var m := HitMap(order[..n], cached[..n]);
      if cached[n].Some? then m[order[n] := cached[n]] else m
  }

  /** With an injective `key`, an item's key is among the keys of a set exactly when the item is in it. */
  lemma KeysOfInjective<I(!new)>(s: set<I>, key: I -> string, x: I)
    requires Injective(key)
    ensures key(x) in KeysOf(s, key) <==> x in s
  {
    if key(x) in KeysOf(s, key) {
      var y :| y in s && key(y) == key(x);
      assert y == x;
    }
  }

  /** The store after `Attribute.get` at time `now`, when `pull` answers `pulled` for the misses. */
  function AttributeData<I(==, !new), V>(data: Store<V>, s: set<I>, key: I -> string, now: int, pulled: map<I, Option<V>>): (r: Store<V>)
    requires Injective(key)
    ensures MissSet(data, s, key, now) != {} ==>
      forall x :: x in pulled ==> key(x) in r && r[key(x)] == Stamp(pulled[x], Some(DefaultExpire), now)
    ensures forall k :: k in r && (MissSet(data, s, key, now) == {} || k !in KeysOf(pulled.Keys, key)) ==>
      k in data && r[k] == data[k]
    ensures forall k :: k in data && k !in r ==> k in KeysOf(s, key) && Expired(data[k], now)
  {
    var evicted := EvictAll(data, KeysOf(s, key), now);
    if MissSet(data, s, key, now) == {} then evicted
    else SetAll(evicted, Keyed(pulled, key), Some(DefaultExpire), now)
  }

  /** The dictionary `Attribute.get` builds: the pulled values overlaid with every cached value. */
  function AttributeValues<I(==), V>(data: Store<V>, s: set<I>, key: I -> string, now: int, pulled: map<I, Option<V>>): (r: map<I, Option<V>>)
    ensures forall x :: x in s && Lookup(data, key(x), now).Some? ==> x in r && r[x] == Lookup(data, key(x), now)
    ensures forall x :: x in r && !(x in s && Lookup(data, key(x), now).Some?) ==>
      MissSet(data, s, key, now) != {} && x in pulled && r[x] == pulled[x]
  {
    if MissSet(data, s, key, now) == {} then Hits(data, s, key, now) else pulled + Hits(data, s, key, now)
  }

  /** How the reply follows from the dictionary: itself, or (with `one`) one of its values, or `IndexError` when empty. */
  ghost predicate Answers<I, V>(reply: Reply<I, V>, values: map<I, Option<V>>, one: bool) {
    if !one then reply == Values(values)
    else if values == map[] then reply == IndexError
    else reply.First? && reply.value in values.Values
  }

  /** The misses of a batch are exactly its uncached items, each listed once. */
  lemma {:induction false} MissesAreMissSet<I, V>(order: seq<I>, cached: seq<Option<V>>, data: Store<V>, key: I -> string, now: int)
    requires |order| == |cached| && Distinct(order)
    requires forall i :: 0 <= i < |order| ==> cached[i] == Lookup(data, key(order[i]), now)
    ensures Elements(Misses(order, cached)) == MissSet(data, Elements(order), key, now)
    ensures Distinct(Misses(order, cached))
    decreases |order|
  {
    if order != [] {
      var o, c := order[1..], cached[1..];
      assert Distinct(o) by {
        forall i, j | 0 <= i < j < |o| ensures o[i] != o[j] {
          assert o[i] == order[i + 1] && o[j] == order[j + 1];
        }
      }
      assert forall i :: 0 <= i < |o| ==> o[i] == order[i + 1] && c[i] == cached[i + 1];
      MissesAreMissSet(o, c, data, key, now);
      assert Elements(order) == {order[0]} + Elements(o);
      assert order[0] !in Elements(o) by {
        forall i | 0 <= i < |o| ensures o[i] != order[0] {
          assert o[i] == order[i + 1];
        }
      }
      var head: seq<I> := if cached[0].None? then [order[0]] else [];
      var tail := Misses(o, c);
      assert Misses(order, cached) == head + tail;
      assert Elements(head + tail) == Elements(head) + Elements(tail);
      assert forall i :: 0 <= i < |tail| ==> tail[i] in Elements(tail);
    }
  }

  /** The cached slots that hold a value are exactly the hits of the batch. */
  lemma {:induction false} HitMapIsHits<I, V>(order: seq<I>, cached: seq<Option<V>>, data: Store<V>, key: I -> string, now: int)
    requires |order| == |cached|
    requires forall i :: 0 <= i < |order| ==> cached[i] == Lookup(data, key(order[i]), now)
    ensures HitMap(order, cached) == Hits(data, Elements(order), key, now)
    decreases |order|
  {
    if order != [] {
      var n := |order| - 1;
      HitMapIsHits(order[..n], cached[..n], data, key, now);
      assert Elements(order) == Elements(order[..n]) + {order[n]} by {
        assert order == order[..n] + [order[n]];
      }
      var h, g := HitMap(order, cached), Hits(data, Elements(order), key, now);
      assert h.Keys == g.Keys;
    }
  }

  /** The bulk keys of a batch are the cache keys of its items. */
  lemma KeyListIsKeysOf<I>(order: seq<I>, key: I -> string)
    ensures Elements(KeyList(order, key)) == KeysOf(Elements(order), key)
  {
    var ks := KeyList(order, key);
    forall k | k in KeysOf(Elements(order), key) ensures k in Elements(ks) {
      var x :| x in Elements(order) && key(x) == k;
      var i :| 0 <= i < |order| && order[i] == x;
      assert ks[i] == k;
    }
  }

  /** A batch whose every item is cached returns each item's cached value and leaves the store as it was. */
  lemma FullHitReturnsCached<I(!new), V>(data: Store<V>, s: set<I>, key: I -> string, now: int, pulled: map<I, Option<V>>)
    requires Injective(key)
    requires MissSet(data, s, key, now) == {}
    ensures AttributeData(data, s, key, now, pulled) == data
    ensures var values := AttributeValues(data, s, key, now, pulled);
      values.Keys == s && forall x :: x in s ==> values[x] == Lookup(data, key(x), now) && values[x].Some?
  {
    forall x | x in s ensures Lookup(data, key(x), now).Some? {
      assert x !in MissSet(data, s, key, now);
    }
    var e := EvictAll(data, KeysOf(s, key), now);
    forall k | k in data ensures k in e {
      if k in KeysOf(s, key) {
        var x :| x in s && key(x) == k;
        assert Lookup(data, key(x), now).Some?;
      }
    }
    assert e.Keys == data.Keys;
  }

  /**
   * After a pull the dictionary holds the pulled items and the cached items; a cached value wins over
   * a pulled one, and an item neither cached nor pulled is left out.
   */
  lemma MergePrefersCache<I, V>(data: Store<V>, s: set<I>, key: I -> string, now: int, pulled: map<I, Option<V>>)
    requires MissSet(data, s, key, now) != {}
    ensures var values := AttributeValues(data, s, key, now, pulled);
      && values.Keys == pulled.Keys + (s - MissSet(data, s, key, now))
      && (forall x :: x in s - MissSet(data, s, key, now) ==> values[x] == Lookup(data, key(x), now))
      && (forall x :: x in pulled && x !in s - MissSet(data, s, key, now) ==> values[x] == pulled[x])
  {
    var h := Hits(data, s, key, now);
    assert h.Keys == s - MissSet(data, s, key, now);
  }

  /** Every pulled pair is written under its item's key and read back until `expire()` runs out. */
  lemma PulledPairsCached<I(!new), V>(data: Store<V>, s: set<I>, key: I -> string, now: int, pulled: map<I, Option<V>>, x: I, later: int)
    requires Injective(key)
    requires MissSet(data, s, key, now) != {}
    requires x in pulled
    requires now <= later <= now + DefaultExpire && now + DefaultExpire != 0
    ensures Lookup(AttributeData(data, s, key, now, pulled), key(x), later) == pulled[x]
  {
    var kd := Keyed(pulled, key);
    assert key(x) in kd && kd[key(x)] == pulled[x];
  }

  /** When the source answers every miss, and only with values, asking again at once needs no pull. */
  lemma SecondGetSkipsPull<I(!new), V>(data: Store<V>, s: set<I>, key: I -> string, now: int, pulled: map<I, Option<V>>)
    requires Injective(key)
    requires MissSet(data, s, key, now) != {}
    requires MissSet(data, s, key, now) <= pulled.Keys
    requires forall x :: x in pulled ==> pulled[x].Some?
    requires now + DefaultExpire != 0
    ensures MissSet(AttributeData(data, s, key, now, pulled), s, key, now) == {}
  {
    var after := AttributeData(data, s, key, now, pulled);
    forall x | x in s ensures Lookup(after, key(x), now).Some? {
      if x in pulled {
        PulledPairsCached(data, s, key, now, pulled, x, now);
      } else {
        KeysOfInjective(pulled.Keys, key, x);
        EvictionUnobservable(data, KeysOf(s, key), now, key(x));
      }
    }
  }

  /** Dirtying some items turns exactly those into misses; every other item reads as before. */
  lemma SelectiveDirty<I(!new), V>(data: Store<V>, s: set<I>, dirtied: set<I>, key: I -> string, now: int)
    requires Injective(key)
    ensures MissSet(data - KeysOf(dirtied, key), s, key, now) == (s * dirtied) + MissSet(data, s, key, now)
    ensures forall x :: x !in dirtied ==> Lookup(data - KeysOf(dirtied, key), key(x), now) == Lookup(data, key(x), now)
  {
    forall x ensures key(x) in KeysOf(dirtied, key) <==> x in dirtied {
      KeysOfInjective(dirtied, key, x);
    }
  }

  /** The batch of the tests: with 1, 2 and 3 cached, asking for 1, 2 and 4 pulls just 4. */
  lemma PartialHitPullsOnlyMisses<V>(data: Store<V>, key: int -> string, now: int)
    requires forall x :: x in {1, 2, 3} ==> Lookup(data, key(x), now).Some?
    requires Lookup(data, key(4), now).None?
    ensures MissSet(data, {1, 2, 4}, key, now) == {4}
  {
    assert Lookup(data, key(1), now).Some? && Lookup(data, key(2), now).Some?;
  }

  /** `list(set(items))`: the distinct items in some order. */
  method ListOf<I(==)>(s: set<I>) returns (order: seq<I>)
    ensures Elements(order) == s && Distinct(order)
  {
    order := [];
    var rest := s;
    while rest != {}
      invariant rest <= s && Elements(order) == s - rest && Distinct(order)
      decreases rest
    {
      var x :| x in rest;
      assert Elements(order + [x]) == Elements(order) + {x};
      order := order + [x];
      rest := rest - {x};
    }
  }

  /** Lines 48-50: overlay the cached slots that hold a value onto the pulled dictionary. */
  method MergeHits<I(==), V>(pulled: map<I, Option<V>>, order: seq<I>, cached: seq<Option<V>>) returns (result: map<I, Option<V>>)
    requires |order| == |cached|
    ensures result == pulled + HitMap(order, cached)
  {
    result := pulled;
    var i := 0;
    while i < |cached|
      invariant 0 <= i <= |cached|
      invariant result == pulled + HitMap(order[..i], cached[..i])
    {
      assert order[..i + 1][..i] == order[..i] && cached[..i + 1][..i] == cached[..i];
      if cached[i].Some? {
        result := result[order[i] := cached[i]];
      }
      i := i + 1;
    }
    assert order[..i] == order && cached[..i] == cached;
  }

  /** `list(result.values())[0]` when `one` holds. */
  method Pick<I(==), V>(values: map<I, Option<V>>, one: bool) returns (reply: Reply<I, V>)
    ensures Answers(reply, values, one)
  {
    if !one {
      reply := Values(values);
    } else if values == map[] {
      reply := IndexError;
    } else {
      var x :| x in values;
      reply := First(values[x]);
    }
  }

  /** `Attribute`: a container for a batch of items, one cache key per item. */
  class Attribute<I(==, !new), V> {
    const cache: Memory<V>
    const key: I -> string
    const source: DataSource<seq<I>, map<I, Option<V>>>

    ghost predicate Valid() {
      Injective(key)
    }

    constructor (cache: Memory<V>, key: I -> string, source: DataSource<seq<I>, map<I, Option<V>>>)
      requires Injective(key)
      ensures Valid() && this.cache == cache && this.key == key && this.source == source
    {
      this.cache := cache;
      this.key := key;
      this.source := source;
    }

    /** Deletes the keys of exactly the given items, and nothing else. */
    method Dirty(items: Items<I>)
      requires Valid()
      modifies cache
      ensures cache.data == old(cache.data) - KeysOf(Requested(items), key)
    {
      var order := ListOf(Requested(items));
      var keys := KeyList(order, key);
      KeyListIsKeysOf(order, key);
      cache.DeleteMulti(keys);
    }

    /**
     * One bulk read; when some item missed, one pull with exactly the missed items, one bulk write of
     * what came back, and the pulled values overlaid with the cached ones.
     */
    method Get(items: Items<I>, one: Option<bool>, now: int) returns (reply: Reply<I, V>)
      requires Valid()
      modifies cache, source
      ensures var miss := MissSet(old(cache.data), Requested(items), key, now);
        && (miss == {} ==> source.calls == old(source.calls))
        && (miss != {} ==>
              && |source.calls| == |old(source.calls)| + 1
              && source.calls[..|old(source.calls)|] == old(source.calls)
              && Elements(source.calls[|old(source.calls)|]) == miss
              && Distinct(source.calls[|old(source.calls)|]))
      ensures var s := Requested(items);
        var miss := MissSet(old(cache.data), s, key, now);
        var pulled := if miss == {} then map[] else source.answer(source.calls[|old(source.calls)|]);
        && cache.data == AttributeData(old(cache.data), s, key, now, pulled)
        && Answers(reply, AttributeValues(old(cache.data), s, key, now, pulled), OneResolved(items, one))
    {
      ghost var data := cache.data;
      var s := Requested(items);
      var order := ListOf(s);
      var bulkKeys := KeyList(order, key);
      KeyListIsKeysOf(order, key);
      var cached := cache.GetMulti(bulkKeys, now);
      var missed := Misses(order, cached);
      MissesAreMissSet(order, cached, data, key, now);
      HitMapIsHits(order, cached, data, key, now);
      var values;
      if |missed| == 0 {
        assert MissSet(data, s, key, now) == {};
        values := HitMap(order, cached);
      } else {
        assert missed[0] in Elements(missed);
        var pulled := source.Pull(missed);
        cache.SetMulti(Keyed(pulled, key), Some(DefaultExpire), now);
        values := MergeHits(pulled, order, cached);
      }
      reply := Pick(values, OneResolved(items, one));
    }
  }
}
