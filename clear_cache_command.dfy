/** The `clear_cache` management command
    (shop/management/commands/clear_cache.py): with a `--key` option it
    deletes that one key, otherwise it clears the whole cache. */
module ClearCacheCommand {
  import opened Wrappers
  import opened Cache

  /** The cache after `handle` with the parsed `--key` option. An empty
      `--key ""` is falsy in Python, so it clears everything too. */
  function Handled<V>(m: map<string, Entry<V>>, key: Option<string>): (m': map<string, Entry<V>>)
    ensures key.Some? && key.value != "" ==> forall k :: k in m' <==> k in m && k != key.value
    ensures forall k :: k in m' ==> k in m && m'[k] == m[k]
    ensures key.None? || key == Some("") ==> m' == map[]
  {
    if key.Some? && key.value != "" then m - {key.value} else map[]
  }

  /** `Command.handle(**options)` on the process's cache. */
  method Handle<V>(cache: CacheStore<V>, key: Option<string>)
    modifies cache
    ensures cache.entries == Handled(old(cache.entries), key)
  {
    if key.Some? && key.value != "" {
      cache.Delete(key.value);
    } else {
      cache.Clear();
    }
  }

  /** `--key k` for a key that is not cached changes nothing. */
  lemma DeleteAbsentKeyIsNoOp<V>(m: map<string, Entry<V>>, k: string)
    requires k != "" && k !in m
    ensures Handled(m, Some(k)) == m
  {
  }

  /** Running `--key k` twice has the effect of running it once. */
  lemma DeleteKeyIdempotent<V>(m: map<string, Entry<V>>, k: string)
    ensures Handled(Handled(m, Some(k)), Some(k)) == Handled(m, Some(k))
  {
  }

  /** After the command without `--key`, every lookup misses, so every
      wrapped call recomputes. */
  lemma ClearedCacheMisses<V>(m: map<string, Entry<V>>, key: string, timeout: nat, now: int, computed: Computed<V>)
    ensures Lookup(Handled(m, None), key, now) == None
    ensures ReadThrough(Handled(m, None), key, timeout, now, computed).calls == 1
  {
  }
}
