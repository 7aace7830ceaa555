/** The read-through cache of shop/utils.py: the `cache_result` decorator's
    wrapper and the `clear_model_cache` invalidation table, over Django's
    process-wide cache. The cache is a map from key to entry; time is an
    explicit clock reading `now` passed to every operation. */
module Cache {
  import opened Wrappers

  /** `cache_result`'s default timeout, in seconds. */
  const DefaultTimeout: nat := 300

  /** A stored value (Python's `None` is `None`) and the clock reading at
      which the entry stops being served. */
  datatype Entry<V> = Entry(value: Option<V>, expiresAt: int)

  /** `cache.get(key)`: the stored value while the entry is live; `None`
      when the key is absent or expired, or when the entry holds `None`. */
  function Lookup<V>(m: map<string, Entry<V>>, key: string, now: int): (r: Option<V>)
    ensures r.Some? <==> key in m && now < m[key].expiresAt && m[key].value.Some?
  {
    if key in m && now < m[key].expiresAt then m[key].value else None
  }

  /** `cache.set(key, value, timeout)`: overwrites unconditionally; the
      entry is served while the clock is below `now + timeout`. */
  function Store<V>(m: map<string, Entry<V>>, key: string, value: Option<V>, timeout: nat, now: int): (m': map<string, Entry<V>>)
  {
    m[key := Entry(value, now + timeout)]
  }

  /** `cache.delete_many(keys)`: absent keys are ignored. */
  function Evict<V>(m: map<string, Entry<V>>, keys: seq<string>): (m': map<string, Entry<V>>)
    ensures forall k :: k in m' <==> k in m && k !in keys
    ensures forall k :: k in m' ==> m'[k] == m[k]
  {
    m - (set k | k in keys)
  }

  /** The key the wrapper uses: `f"{key_prefix}:{func.__name__}:{str(args)}:{str(kwargs)}"`.
      The reprs of the positional and keyword arguments are given as text. */
  function CacheKey(prefix: string, name: string, argsRepr: string, kwargsRepr: string): string
  {
    prefix + ":" + name + ":" + argsRepr + ":" + kwargsRepr
  }

  /** Two wrapped functions with the same prefix never share a key: a
      Python function name contains no colon, so the key determines it. */
  lemma CacheKeyDeterminesName(prefix: string, n1: string, a1: string, k1: string, n2: string, a2: string, k2: string)
    requires ':' !in n1 && ':' !in n2
    requires CacheKey(prefix, n1, a1, k1) == CacheKey(prefix, n2, a2, k2)
    ensures n1 == n2
  {
    var key := CacheKey(prefix, n1, a1, k1);
    var start := |prefix| + 1;
    assert key[start..start + |n1|] == n1 && key[start + |n1|] == ':';
    assert key[start..start + |n2|] == n2 && key[start + |n2|] == ':';
    assert forall i :: 0 <= i < |n1| ==> key[start + i] == n1[i] != ':';
    assert forall i :: 0 <= i < |n2| ==> key[start + i] == n2[i] != ':';
    assert |n1| == |n2|;
    assert n1 == key[start..start + |n1|] == n2;
  }

  /** What the wrapped function does when called: return a value (Python's
      `None` included), or raise. */
  datatype Computed<V> = Returned(value: Option<V>) | Raised

  /** What one call of the wrapper does: what the caller sees, the cache
      afterwards, and how many times the wrapped function ran. */
  datatype CallOutcome<V> = CallOutcome(result: Computed<V>, entries: map<string, Entry<V>>, calls: nat)

  /** `cache_result(timeout)(func)(*args, **kwargs)` where `computed` is
      what `func(*args, **kwargs)` does. A non-`None` cached value is a
      hit: returned as is, the function is not called and the cache is
      untouched. Otherwise the function runs once; a returned result,
      `None` included, is stored under the key and returned, and a raise
      reaches the caller before `cache.set`, leaving the cache as it was. */
  function ReadThrough<V>(m: map<string, Entry<V>>, key: string, timeout: nat, now: int, computed: Computed<V>): (o: CallOutcome<V>)
    ensures o.calls <= 1
    ensures Lookup(m, key, now).Some? ==> o == CallOutcome(Returned(Lookup(m, key, now)), m, 0)
    ensures Lookup(m, key, now).None? && computed.Returned? ==>
              o == CallOutcome(computed, Store(m, key, computed.value, timeout, now), 1)
    ensures Lookup(m, key, now).None? && computed.Raised? ==> o == CallOutcome(Raised, m, 1)
    ensures o.result.Raised? ==> o.entries == m && o.calls == 1
    ensures o.result == Returned(None) ==> o.calls == 1
    ensures o.calls == 1 ==> o.result == computed
  {
    var cached := Lookup(m, key, now);
    if cached.Some? then CallOutcome(Returned(cached), m, 0)
    else if computed.Raised? then CallOutcome(Raised, m, 1)
    else CallOutcome(computed, Store(m, key, computed.value, timeout, now), 1)
  }

  /** Two calls with the same key within the timeout: when the first missed
      and stored a non-`None` value, the second is a hit that returns that
      value without calling the function, whatever it would have done. */
  lemma SecondCallHits<V>(m: map<string, Entry<V>>, key: string, timeout: nat, now: int, later: int, first: Computed<V>, second: Computed<V>)
    requires now <= later < now + timeout
    requires Lookup(m, key, now).None? && first.Returned? && first.value.Some?
    ensures var o1 := ReadThrough(m, key, timeout, now, first);
            var o2 := ReadThrough(o1.entries, key, timeout, later, second);
            o2.calls == 0 && o2.result == first && o2.entries == o1.entries
  {
    var o1 := ReadThrough(m, key, timeout, now, first);
    assert Lookup(o1.entries, key, later) == first.value;
  }

  /** A function that keeps returning `None` is called on every invocation:
      `None` is never served from the cache. */
  lemma NoneAlwaysRecomputes<V>(m: map<string, Entry<V>>, key: string, timeout: nat, now: int, later: int)
    requires Lookup(m, key, now).None?
    ensures var o1 := ReadThrough(m, key, timeout, now, Returned(None));
            ReadThrough(o1.entries, key, timeout, later, Returned(None)).calls == 1
  {
    var o1 := ReadThrough(m, key, timeout, now, Returned(None));
    assert o1.entries[key].value == None;
  }

  /** A call that raises caches nothing: the next call with the same key,
      at the same time or later, runs the function again. */
  lemma FailedCallIsRetried<V>(m: map<string, Entry<V>>, key: string, timeout: nat, now: int, later: int, second: Computed<V>)
    requires now <= later
    requires Lookup(m, key, now).None?
    ensures var o1 := ReadThrough(m, key, timeout, now, Raised);
            ReadThrough(o1.entries, key, timeout, later, second).calls == 1
  {
    var o1 := ReadThrough(m, key, timeout, now, Raised);
    assert Lookup(o1.entries, key, later).None?;
  }

  /** Cache transparency: if what is cached under the key (when anything is)
      is what the function returns, the wrapper does exactly what the
      uncached function would, raising included. */
  lemma CachedCallTransparent<V>(m: map<string, Entry<V>>, key: string, timeout: nat, now: int, computed: Computed<V>)
    requires Lookup(m, key, now).None? || Returned(Lookup(m, key, now)) == computed
    ensures ReadThrough(m, key, timeout, now, computed).result == computed
  {
  }

  /** With `cache_result()`'s defaults (timeout 300, empty prefix), a value
      stored by a missed call is served exactly for the next 300 seconds. */
  lemma DefaultsServeFiveMinutes<V>(m: map<string, Entry<V>>, name: string, argsRepr: string, kwargsRepr: string,
                                    now: int, later: int, v: V)
    requires Lookup(m, CacheKey("", name, argsRepr, kwargsRepr), now).None?
    ensures var key := CacheKey("", name, argsRepr, kwargsRepr);
            var o1 := ReadThrough(m, key, DefaultTimeout, now, Returned(Some(v)));
            Lookup(o1.entries, key, later) == if later < now + 300 then Some(v) else None
  {
  }

  /** `clear_model_cache`'s table: the keys evicted for each model name. */
  function InvalidationKeys(modelName: string): (keys: seq<string>)
    ensures modelName !in {"Product", "GlobalOption", "CompanyInfo"} ==> keys == []
  {
    if modelName == "Product" then ["products_all", "products_featured", "products_catalog"]
    else if modelName == "GlobalOption" then ["global_options_active", "global_options_grouped"]
    else if modelName == "CompanyInfo" then ["company_info"]
    else []
  }

  /** The cache after `clear_model_cache(modelName)`. */
  function ClearModel<V>(m: map<string, Entry<V>>, modelName: string): (m': map<string, Entry<V>>)
  {
    Evict(m, InvalidationKeys(modelName))
  }

  /** `clear_model_cache('Product')` removes exactly the three product list
      keys; every other key keeps its entry. */
  lemma ClearProductEvictsExactly<V>(m: map<string, Entry<V>>)
    ensures var m' := ClearModel(m, "Product");
            (forall k :: k in m' <==> k in m && k !in {"products_all", "products_featured", "products_catalog"}) &&
            (forall k :: k in m' ==> m'[k] == m[k])
  {
  }

  /** `GlobalOption` evicts exactly the two option keys, `CompanyInfo` only
      `company_info`, and any other model name changes nothing. */
  lemma ClearOtherModels<V>(m: map<string, Entry<V>>, other: string)
    requires other !in {"Product", "GlobalOption", "CompanyInfo"}
    ensures ClearModel(m, "GlobalOption") == m - {"global_options_active", "global_options_grouped"}
    ensures ClearModel(m, "CompanyInfo") == m - {"company_info"}
    ensures ClearModel(m, other) == m
  {
    assert (set k | k in InvalidationKeys("GlobalOption")) == {"global_options_active", "global_options_grouped"};
    assert (set k | k in InvalidationKeys("CompanyInfo")) == {"company_info"};
    assert (set k: string | k in InvalidationKeys(other)) == {};
  }

  /** Clearing a model's keys twice is the same as clearing them once. */
  lemma ClearModelIdempotent<V>(m: map<string, Entry<V>>, modelName: string)
    ensures ClearModel(ClearModel(m, modelName), modelName) == ClearModel(m, modelName)
  {
  }

  /** Every key `cache_result` writes contains ':', and no key of the
      invalidation table does: `clear_model_cache` never evicts an entry
      the decorator stored, whatever the model name. */
  lemma ClearModelKeepsWrapperEntries<V>(m: map<string, Entry<V>>, modelName: string,
                                          prefix: string, name: string, argsRepr: string, kwargsRepr: string)
    ensures CacheKey(prefix, name, argsRepr, kwargsRepr) !in InvalidationKeys(modelName)
    ensures var key := CacheKey(prefix, name, argsRepr, kwargsRepr);
            key in m ==> key in ClearModel(m, modelName) && ClearModel(m, modelName)[key] == m[key]
  {
    var key := CacheKey(prefix, name, argsRepr, kwargsRepr);
    assert key[|prefix|] == ':';
    forall k | k in InvalidationKeys(modelName) ensures ':' !in k {
    }
  }

  /** Django's cache: the state that `cache.get`, `cache.set`,
      `cache.delete`, `cache.delete_many` and `cache.clear` act on. */
  class CacheStore<V> {
    var entries: map<string, Entry<V>>

    constructor ()
      ensures entries == map[]
    {
      entries := map[];
    }

    method Get(key: string, now: int) returns (r: Option<V>)
      ensures r == Lookup(entries, key, now)
    {
      r := if key in entries && now < entries[key].expiresAt then entries[key].value else None;
    }

    method Set(key: string, value: Option<V>, timeout: nat, now: int)
      modifies this
      ensures entries == Store(old(entries), key, value, timeout, now)
    {
      entries := entries[key := Entry(value, now + timeout)];
    }

    method Delete(key: string)
      modifies this
      ensures entries == old(entries) - {key}
    {
      entries := entries - {key};
    }

    method DeleteMany(keys: seq<string>)
      modifies this
      ensures entries == Evict(old(entries), keys)
    {
      var i := 0;
      while i < |keys|
        invariant 0 <= i <= |keys|
        invariant forall k :: k in entries <==> k in old(entries) && k !in keys[..i]
        invariant forall k :: k in entries ==> entries[k] == old(entries)[k]
      {
        assert keys[..i + 1] == keys[..i] + [keys[i]];
        entries := entries - {keys[i]};
        i := i + 1;
      }
      assert keys[..i] == keys;
    }

    method Clear()
      modifies this
      ensures entries == map[]
    {
      entries := map[];
    }

    /** The `cache_result` wrapper: look the key up, return a hit, or call
        the function (what it does is `computed`); a returned result is
        stored and returned, a raise propagates with nothing stored. */
    method CachedCall(prefix: string, name: string, argsRepr: string, kwargsRepr: string,
                      timeout: nat, now: int, computed: Computed<V>)
      returns (result: Computed<V>, calls: nat)
      modifies this
      ensures var o := ReadThrough(old(entries), CacheKey(prefix, name, argsRepr, kwargsRepr), timeout, now, computed);
              result == o.result && entries == o.entries && calls == o.calls
    {
      var key := CacheKey(prefix, name, argsRepr, kwargsRepr);
      var cached := Get(key, now);
      if cached.Some? {
        return Returned(cached), 0;
      }
      result, calls := computed, 1;
      if computed.Raised? {
        return;
      }
      Set(key, computed.value, timeout, now);
    }

    /** `clear_model_cache(model_name)`. */
    method ClearModelCache(modelName: string)
      modifies this
      ensures entries == ClearModel(old(entries), modelName)
    {
      DeleteMany(InvalidationKeys(modelName));
    }
  }
}
