/** The cache wrapper of cache.go: it holds the LRU-K engine, builds it on
    the first add only, and forwards add and get to it. The mutex around
    both operations is not modelled (operations are sequential here). */
module Wrapper {
  import opened LruSpec
  import Lru
  import opened ByteViews

  class Cache {
    var lru: Lru.Cache?<ByteView>
    const cacheBytes: nat
    const k: nat
    const historyMax: nat

    /** The settings the engine is built with. */
    ghost function Params(): Config<ByteView> { Config(k, cacheBytes, historyMax, ByteViews.Len) }

    ghost predicate Valid()
      reads this, lru
    {
      && WellFormed(Params())
      && (lru != null ==> lru.Valid() && lru.Params() == Params() && !lru.hasOnEvicted)
    }

    /** The engine's tiers; an engine not built yet is an empty one. */
    ghost function Engine(): State<ByteView>
      reads this, lru
    {
      if lru == null then Empty() else lru.Tiers()
    }

    /** The struct literal `cache{cacheBytes: ..., K: ..., historyMax: ...}`. */
    constructor (cacheBytes: nat, k: nat, historyMax: nat)
      requires k >= 1 && (k == 1 || historyMax >= 1)
      ensures Valid() && lru == null && Engine() == Empty()
      ensures this.cacheBytes == cacheBytes && this.k == k && this.historyMax == historyMax
    {
      this.cacheBytes := cacheBytes;
      this.k := k;
      this.historyMax := historyMax;
      lru := null;
    }

    /** add: builds the engine on first use with the stored K, cacheBytes and
        historyMax and no eviction callback, then forwards key and value. */
    method Add(key: string, value: ByteView)
      requires Valid()
      modifies this, lru
      ensures Valid() && lru != null
      ensures old(lru) == null ==> fresh(lru)
      ensures old(lru) != null ==> lru == old(lru)
      ensures Engine() == LruSpec.Add(Params(), old(Engine()), key, value).0
    {
      if lru == null {
        lru := new Lru.Cache(k, cacheBytes, historyMax, ByteViews.Len, false);
      }
      lru.Add(key, value);
    }

    /** get: a miss while no engine exists (and none is built); otherwise the
        engine's answer, with the zero ByteView on a miss. */
    method Get(key: string) returns (value: ByteView, ok: bool)
      requires Valid()
      modifies lru
      ensures Valid() && lru == old(lru)
      ensures (if ok then Some(value) else None, Engine()) == LruSpec.Get(old(Engine()), key)
      ensures !ok ==> value == ByteView([])
    {
      if lru == null {
        return ByteView([]), false;
      }
      var r := lru.Get(key);
      if r.Some? {
        return r.value, true;
      }
      return ByteView([]), false;
    }
  }
}
