/** The LRU-K eviction engine of lru/lru.go as an object updated in place.

    `ll` is the recency list of the cache tier (front = most recently used)
    and `cache` the key map beside it; `hl` and `history` are the same pair
    for the history tier of not-yet-promoted keys. `nbytes` is the running
    byte count. `evicted` records, in order, the calls made to the optional
    onEvicted callback (nothing is recorded when no callback was given). */
module Lru {
  import opened LruSpec

  class Cache<V> {
    const k: nat
    const maxBytes: nat
    const historyMax: nat
    const size: V -> nat
    const hasOnEvicted: bool
    var nbytes: nat
    var ll: seq<Entry<V>>
    var cache: map<string, V>
    var hl: seq<Entry<nat>>
    var history: map<string, nat>
    var evicted: seq<Entry<V>>

    ghost function Params(): Config<V> { Config(k, maxBytes, historyMax, size) }

    ghost function Tiers(): State<V>
      reads this
    {
      State(ll, hl)
    }

    /** The object invariant minus the byte budget. */
    ghost predicate Coherent()
      reads this
    {
      && WellFormed(Params())
      && LruSpec.Coherent(Params(), Tiers())
      && nbytes == Bytes(size, ll)
      && cache == Index(ll)
      && history == Index(hl)
    }

    ghost predicate Valid()
      reads this
    {
      Coherent() && WithinBudget(Params(), ll)
    }

    /** New(K, maxBytes, historyMax, onEvicted). */
    constructor (k: nat, maxBytes: nat, historyMax: nat, size: V -> nat, hasOnEvicted: bool)
      requires k >= 1 && (k == 1 || historyMax >= 1)
      ensures Valid()
      ensures Tiers() == Empty() && nbytes == 0 && evicted == []
      ensures this.k == k && this.maxBytes == maxBytes && this.historyMax == historyMax
      ensures this.size == size && this.hasOnEvicted == hasOnEvicted
    {
      this.k := k;
      this.maxBytes := maxBytes;
      this.historyMax := historyMax;
      this.size := size;
      this.hasOnEvicted := hasOnEvicted;
      nbytes := 0;
      ll := [];
      cache := map[];
      hl := [];
      history := map[];
      evicted := [];
    }

    /** Number of entries in the cache tier: one per resident key. */
    method Len() returns (n: nat)
      requires Valid()
      ensures n == |cache|
    {
      IndexCard(ll);
      n := |ll|;
    }

    /** Get looks in the cache tier only; a hit moves the entry to the front. */
    method Get(key: string) returns (r: Option<V>)
      requires Valid()
      modifies this
      ensures Valid()
      ensures (r, Tiers()) == LruSpec.Get(old(Tiers()), key)
      ensures nbytes == old(nbytes) && evicted == old(evicted)
    {
      if key in cache {
        var v := cache[key];
        TouchFacts(size, ll, key, v);
        ll := Touch(ll, key, v);
        r := Some(v);
      } else {
        r := None;
      }
    }

    /** Evicts the back of the cache tier, if any, and reports it to onEvicted. */
    method RemoveOldest()
      requires Coherent()
      modifies this
      ensures Coherent()
      ensures old(ll) == [] ==> ll == [] && evicted == old(evicted)
      ensures old(ll) != [] ==>
                && ll == old(ll)[..|old(ll)| - 1]
                && evicted == old(evicted) + (if hasOnEvicted then [old(ll)[|old(ll)| - 1]] else [])
      ensures hl == old(hl)
      ensures old(WithinBudget(Params(), ll)) ==> WithinBudget(Params(), ll)
    {
      if ll != [] {
        var e := ll[|ll| - 1];
        BytesDropLast(size, ll);
        DropLast(ll);
        IndexPrefix(ll, |ll| - 1);
        ll := ll[..|ll| - 1];
        cache := cache - {e.key};
        nbytes := nbytes - (|e.key| + size(e.value));
        if hasOnEvicted {
          evicted := evicted + [e];
        }
      }
    }

    /** Writes `key` at the front of the cache tier, then runs the eviction
        loop while the tier is over a non-zero budget. */
    method Insert(key: string, value: V)
      requires Valid() && key !in history
      modifies this
      ensures Valid() && hl == old(hl)
      ensures ll == Shrink(Params(), Touch(old(ll), key, value)).0
      ensures evicted == old(evicted) + (if hasOnEvicted then Shrink(Params(), Touch(old(ll), key, value)).1 else [])
    {
      Write(key, value);
      EvictOverBudget();
    }

    /** Inserts or overwrites `key` at the front, adjusting the byte count by
        the difference between the new and the replaced entry. */
    method Write(key: string, value: V)
      requires Valid() && key !in history
      modifies this
      ensures Coherent()
      ensures ll == Touch(old(ll), key, value) && hl == old(hl) && evicted == old(evicted)
    {
      TouchFacts(size, ll, key, value);
      if key in cache {
        nbytes := nbytes - (|key| + size(cache[key]));
      }
      ll := Touch(ll, key, value);
      cache := cache[key := value];
      nbytes := nbytes + |key| + size(value);
    }

    /** The eviction loop: RemoveOldest while over a non-zero budget. */
    method EvictOverBudget()
      requires Coherent()
      modifies this
      ensures Valid() && hl == old(hl)
      ensures ll == Shrink(Params(), old(ll)).0
      ensures evicted == old(evicted) + (if hasOnEvicted then Shrink(Params(), old(ll)).1 else [])
    {
      ghost var gone: seq<Entry<V>> := [];
      assert gone + Shrink(Params(), ll).1 == Shrink(Params(), ll).1;
      while maxBytes != 0 && nbytes > maxBytes
        invariant Coherent() && hl == old(hl)
        invariant Shrink(Params(), old(ll)) == (Shrink(Params(), ll).0, gone + Shrink(Params(), ll).1)
        invariant evicted == old(evicted) + (if hasOnEvicted then gone else [])
        decreases |ll|
      {
        ghost var rest := Shrink(Params(), ll[..|ll| - 1]);
        assert Shrink(Params(), ll) == (rest.0, [ll[|ll| - 1]] + rest.1);
        assert gone + ([ll[|ll| - 1]] + rest.1) == (gone + [ll[|ll| - 1]]) + rest.1;
        gone := gone + [ll[|ll| - 1]];
        RemoveOldest();
      }
    }

    /** Add: an update of a resident key (or any Add when K == 1) writes the
        cache tier; otherwise the key's history record is created, counted
        up, or, on reaching K, promoted into the cache tier. */
    method Add(key: string, value: V)
      requires Valid()
      modifies this
      ensures Valid()
      ensures Tiers() == LruSpec.Add(Params(), old(Tiers()), key, value).0
      ensures evicted == old(evicted)
                         + (if hasOnEvicted then LruSpec.Add(Params(), old(Tiers()), key, value).1 else [])
    {
      if k == 1 || key in cache {
        Insert(key, value);
      } else if key in history && history[key] + 1 >= k {
        Forget(key);
        Insert(key, value);
      } else if key in history {
        CountVisit(key);
      } else {
        Track(key);
      }
    }

    /** Drops the history record of `key` (on promotion). */
    method Forget(key: string)
      requires Valid() && key in history
      modifies this
      ensures Valid() && key !in history
      ensures hl == RemoveKey(old(hl), key)
      ensures ll == old(ll) && evicted == old(evicted)
    {
      RemoveKeyFacts(hl, key);
      hl := RemoveKey(hl, key);
      history := history - {key};
    }

    /** Counts one more visit of a key that stays below K, moving its record
        to the front of the history tier. */
    method CountVisit(key: string)
      requires Valid() && key in history && key !in cache && history[key] + 1 < k
      modifies this
      ensures Valid()
      ensures hl == [Entry(key, old(history)[key] + 1)] + RemoveKey(old(hl), key)
      ensures ll == old(ll) && evicted == old(evicted)
    {
      var n := history[key] + 1;
      RemoveKeyFacts(hl, key);
      ConsDistinct(Entry(key, n), RemoveKey(hl, key));
      hl := [Entry(key, n)] + RemoveKey(hl, key);
      history := history[key := n];
    }

    /** Starts a history record with count 1, first dropping the oldest
        record when the history tier is full. */
    method Track(key: string)
      requires Valid() && key !in history && key !in cache && k > 1
      modifies this
      ensures Valid()
      ensures hl == [Entry(key, 1)] + MakeRoom(Params(), old(hl))
      ensures ll == old(ll) && evicted == old(evicted)
    {
      MakeRoomFacts(Params(), hl);
      if |hl| >= historyMax && hl != [] {
        history := history - {hl[|hl| - 1].key};
        hl := hl[..|hl| - 1];
      }
      ConsDistinct(Entry(key, 1), hl);
      hl := [Entry(key, 1)] + hl;
      history := history[key := 1];
    }
  }
}
