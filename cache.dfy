/** The layered Infobase cache (infogami/infobase/cache.py). A lookup tries, in order, the
    objects created in the current request, the special cache, the request-local cache and
    finally the global LRU cache; a value the first three layers hold but that is falsy does
    not count as a hit. The per-request maps and the global cache are fields here. */
module InfobaseCache {
  import opened Wrappers
  import Lru

  /** The kinds of cache `create_cache` can build. */
  datatype CacheClass = LruClass | MemcachedClass | NoneDictClass

  /** The registry filled at import time: 'lru' and 'memcache'. */
  const Registry: map<string, CacheClass> := map["lru" := LruClass, "memcache" := MemcachedClass]

  /** `create_cache(type)`: the registered class, or `NoneDict` for an unknown type. */
  function CreateCache(kind: string, registry: map<string, CacheClass>): (c: CacheClass)
    ensures kind !in registry ==> c == NoneDictClass
    ensures kind in registry ==> c == registry[kind]
  {
    if kind in registry then registry[kind] else NoneDictClass
  }

  lemma CreateCacheDefaults(kind: string)
    ensures kind == "lru" ==> CreateCache(kind, Registry) == LruClass
    ensures kind == "memcache" ==> CreateCache(kind, Registry) == MemcachedClass
    ensures kind != "lru" && kind != "memcache" ==> CreateCache(kind, Registry) == NoneDictClass
  {
  }

  /** A cache that holds nothing: every read raises KeyError and writes are dropped. */
  class NoneDict<K, V> {
    constructor ()
    {
    }

    method GetItem(key: K) returns (r: Result<V, string>)
      ensures r == Err(Lru.KeyError)
    {
      r := Err(Lru.KeyError);
    }

    /** Writes are ignored: the dictionary has no state to change. */
    method SetItem(key: K, value: V)
    {
    }

    method Update(items: seq<(K, V)>)
    {
    }
  }

  /** The (key, value) pairs of `items` are exactly those of `m`, each key once. */
  ghost predicate Lists<K, V>(items: seq<(K, V)>, m: map<K, V>) {
    && |items| == |m|
    && (forall i :: 0 <= i < |items| ==> items[i].0 in m && m[items[i].0] == items[i].1)
    && (forall i, j :: 0 <= i < j < |items| ==> items[i].0 != items[j].0)
  }

  class Cache<K(==), V> {
    /** Python truthiness of a cached value. */
    const truthy: V -> bool
    /** The process-wide LRU cache of capacity 200. */
    const global: Lru.LRU<K, V>
    var special: map<K, V>
    var newObjects: map<K, V>
    var localCache: map<K, V>
    var locallyAdded: map<K, V>

    ghost predicate Valid()
      reads this, global
    {
      global.Valid()
    }

    constructor (truthy: V -> bool)
      ensures Valid() && this.truthy == truthy && fresh(global) && global.capacity == 200
      ensures global.Abs() == Lru.Cache([], map[])
      ensures special == newObjects == localCache == locallyAdded == map[]
    {
      this.truthy := truthy;
      global := new Lru.LRU(200);
      special, newObjects, localCache, locallyAdded := map[], map[], map[], map[];
    }

    /** `loadhook`: a request starts with empty per-request maps. */
    method LoadHook()
      modifies this
      ensures newObjects == localCache == locallyAdded == map[]
      ensures special == old(special)
    {
      newObjects, localCache, locallyAdded := map[], map[], map[];
    }

    /** What `unloadhook` pushes into the global cache: the locally added objects,
        overridden by the objects created in this request. */
    function Merged(): (m: map<K, V>)
      reads this
      ensures m.Keys == locallyAdded.Keys + newObjects.Keys
      ensures forall k :: k in newObjects ==> m[k] == newObjects[k]
      ensures forall k :: k in locallyAdded && k !in newObjects ==> m[k] == locallyAdded[k]
    {
      locallyAdded + newObjects
    }

    /** Lists the entries of a map, one pair per key, in an unspecified order. */
    static method Listing(m: map<K, V>) returns (items: seq<(K, V)>)
      ensures Lists(items, m)
    {
      items := [];
      var rest := m;
      while rest != map[]
        invariant rest.Keys <= m.Keys && |items| + |rest| == |m|
        invariant forall i :: 0 <= i < |items| ==> items[i].0 in m && items[i].0 !in rest && m[items[i].0] == items[i].1
        invariant forall k :: k in rest ==> rest[k] == m[k]
        invariant forall i, j :: 0 <= i < j < |items| ==> items[i].0 != items[j].0
        decreases |rest|
      {
        var k :| k in rest;
        items := items + [(k, rest[k])];
        rest := rest - {k};
      }
    }

    /** `unloadhook`: at the end of a request the merged objects are set into the global
        cache one by one; nothing is set when there is nothing to push. */
    method UnloadHook()
      requires Valid()
      modifies global
      ensures Valid()
      ensures Merged() == map[] ==> global.Abs() == old(global.Abs())
      ensures Merged() != map[] ==>
        exists items :: Lists(items, Merged()) && global.Abs() == Lru.UpdateSpec(old(global.Abs()), items, global.capacity)
    {
      var d := Merged();
      if d != map[] {
        var items := Listing(d);
        global.Update(items);
      }
    }

    /** The first of the three request layers that holds a truthy value for `key`. */
    function Hit(key: K): Option<V>
      reads this
    {
      if key in newObjects && truthy(newObjects[key]) then Some(newObjects[key])
      else if key in special && truthy(special[key]) then Some(special[key])
      else if key in localCache && truthy(localCache[key]) then Some(localCache[key])
      else None
    }

    /** `cache[key]`: a layer hit is returned as is; otherwise the global cache is read
        (KeyError when it misses too) and its value is copied into the local cache. */
    method GetItem(key: K) returns (r: Result<V, string>)
      requires Valid()
      modifies this`localCache, global
      ensures Valid()
      ensures old(Hit(key)).Some? ==>
        r == Ok(old(Hit(key)).value) && localCache == old(localCache) && global.Abs() == old(global.Abs())
      ensures old(Hit(key)).None? && key !in old(global.d) ==>
        r == Err(Lru.KeyError) && localCache == old(localCache) && global.Abs() == old(global.Abs())
      ensures old(Hit(key)).None? && key in old(global.d) ==>
        && r == Ok(old(global.d)[key])
        && localCache == old(localCache)[key := old(global.d)[key]]
        && global.Abs() == Lru.GetSpec(old(global.Abs()), key)
    {
      var obj := Hit(key);
      if obj.Some? {
        return Ok(obj.value);
      }
      var g := global.GetItem(key);
      if g.Err? {
        return g;
      }
      localCache := localCache[key := g.value];
      r := g;
    }

    /** `get(key, default)`: the default in place of the KeyError. */
    method Get(key: K, default: V) returns (v: V)
      requires Valid()
      modifies this`localCache, global
      ensures Valid()
      ensures old(Hit(key)).Some? ==> v == old(Hit(key)).value
      ensures old(Hit(key)).None? ==> v == if key in old(global.d) then old(global.d)[key] else default
      ensures old(Hit(key)).Some? || key !in old(global.d) ==>
        localCache == old(localCache) && global.Abs() == old(global.Abs())
      ensures old(Hit(key)).None? && key in old(global.d) ==>
        localCache == old(localCache)[key := old(global.d)[key]] && global.Abs() == Lru.GetSpec(old(global.Abs()), key)
    {
      var r := GetItem(key);
      v := if r.Ok? then r.value else default;
    }

    /** `key in cache`: a lookup that succeeds; like one, it may fill the local cache. */
    method Contains(key: K) returns (b: bool)
      requires Valid()
      modifies this`localCache, global
      ensures Valid()
      ensures b <==> old(Hit(key)).Some? || key in old(global.d)
      ensures old(Hit(key)).Some? || key !in old(global.d) ==>
        localCache == old(localCache) && global.Abs() == old(global.Abs())
      ensures old(Hit(key)).None? && key in old(global.d) ==>
        localCache == old(localCache)[key := old(global.d)[key]] && global.Abs() == Lru.GetSpec(old(global.Abs()), key)
    {
      var r := GetItem(key);
      b := r.Ok?;
    }

    /** `cache[key] = value`: only the request-local maps change, never the global cache. */
    method SetItem(key: K, value: V)
      modifies this`localCache, this`locallyAdded
      ensures localCache == old(localCache)[key := value]
      ensures locallyAdded == old(locallyAdded)[key := value]
    {
      localCache := localCache[key := value];
      locallyAdded := locallyAdded[key := value];
    }

    /** `clear(local)`: the per-request maps are emptied; the global cache only when not local. */
    method Clear(local: bool)
      requires Valid()
      modifies this, global
      ensures Valid()
      ensures newObjects == localCache == locallyAdded == map[] && special == old(special)
      ensures local ==> global.Abs() == old(global.Abs())
      ensures !local ==> global.Abs() == Lru.Cache([], map[])
    {
      locallyAdded, localCache, newObjects := map[], map[], map[];
      if !local {
        global.Clear();
      }
    }
  }

  /** A truthy object created in this request hides every other layer. */
  lemma NewObjectsWin<K, V>(c: Cache<K, V>, key: K)
    requires key in c.newObjects && c.truthy(c.newObjects[key])
    ensures c.Hit(key) == Some(c.newObjects[key])
  {
  }

  /** A falsy value falls through to the next layer. */
  lemma FalsyFallsThrough<K, V>(c: Cache<K, V>, key: K)
    requires key in c.newObjects && !c.truthy(c.newObjects[key])
    ensures c.Hit(key) == (if key in c.special && c.truthy(c.special[key]) then Some(c.special[key])
                           else if key in c.localCache && c.truthy(c.localCache[key]) then Some(c.localCache[key])
                           else None)
  {
  }
}
