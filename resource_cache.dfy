/** The two map disciplines the engine uses: std::unordered_map::emplace, which
    inserts only under an absent key, and the load-once resource caches behind
    Renderer::GetTexture and Renderer::GetMesh. */
module ResourceCache {

  datatype Option<T> = None | Some(value: T)

  /** map::emplace(k, v): the map is unchanged when k is already a key. */
  function Emplace<K, V>(m: map<K, V>, k: K, v: V): (r: map<K, V>)
    ensures r.Keys == m.Keys + {k}
    ensures r[k] == (if k in m then m[k] else v)
    ensures forall j :: j in m ==> r[j] == m[j]
  {
    if k in m then m else m[k := v]
  }

  /** Under emplace the first value stored under a key wins. */
  lemma {:induction false} EmplaceFirstWins<K, V>(m: map<K, V>, k: K, v1: V, v2: V)
    ensures Emplace(Emplace(m, k, v1), k, v2) == Emplace(m, k, v1)
    ensures k !in m ==> Emplace(Emplace(m, k, v1), k, v2)[k] == v1
  {
  }

  /** What a cache lookup hands back, and the cache afterwards. */
  datatype Lookup<H> = Lookup(handle: Option<H>, cache: map<string, H>)

  /** The lookup GetTexture and GetMesh perform. `loaded` is what the loader
      produces when it is asked: Some(handle) when the file loads, None when it
      does not. It is consulted only on a miss. */
  function CacheGet<H>(cache: map<string, H>, key: string, loaded: Option<H>): (r: Lookup<H>)
    ensures r.handle.Some? <==> key in r.cache
    ensures r.handle.Some? ==> r.cache[key] == r.handle.value
    ensures r.cache.Keys <= cache.Keys + {key}
    ensures forall k :: k in cache ==> k in r.cache && r.cache[k] == cache[k]
    ensures key in cache ==> r.handle == Some(cache[key])
    ensures key !in cache ==> r.handle == loaded
  {
    if key in cache then Lookup(Some(cache[key]), cache)
    else match loaded
      case Some(h) => Lookup(Some(h), cache[key := h])
      case None => Lookup(None, cache)
  }

  /** A cached resource is never loaded again: on a hit the loader's outcome
      makes no difference and the cache is unchanged. */
  lemma CacheHitIgnoresLoader<H>(cache: map<string, H>, key: string, l1: Option<H>, l2: Option<H>)
    requires key in cache
    ensures CacheGet(cache, key, l1) == CacheGet(cache, key, l2) == Lookup(Some(cache[key]), cache)
  {
  }

  /** Asking twice for the same key returns the same handle the second time,
      whatever the loader would do, provided the first request found or
      loaded it. */
  lemma CacheGetTwice<H>(cache: map<string, H>, key: string, l1: Option<H>, l2: Option<H>)
    ensures var first := CacheGet(cache, key, l1);
      first.handle.Some? ==> CacheGet(first.cache, key, l2) == first
  {
  }

  /** A failed load returns nothing and leaves the cache as it was, so a later
      request tries the loader again. */
  lemma CacheFailureLeavesCache<H>(cache: map<string, H>, key: string, l2: Option<H>)
    requires key !in cache
    ensures CacheGet(cache, key, None) == Lookup(None, cache)
    ensures CacheGet(cache, key, l2).handle == l2
  {
  }
}
