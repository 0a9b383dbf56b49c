/** The namespace layer of ocache.go: a Group binds a name, a loader (Getter)
    and a cache wrapper, and implements the read-through Get; a registry maps
    names to Groups.

    A Getter is a Dafny function value from key to bytes or error, so the
    GetterFunc adapter is function application. `Group.loads` records the
    keys the loader was called with, in order, so that "the loader was not
    called" can be stated. */
module OCache {
  import opened LruSpec
  import opened ByteViews
  import Wrapper

  datatype Error = KeyRequired | LoadFailed(msg: string)

  datatype Result<T> = Ok(value: T) | Err(error: Error)

  type Getter = string -> Result<seq<bv8>>

  /** Group.Get on the engine's tiers: the answer, the engine's new tiers and
      whether the loader was called. */
  function GroupGet(c: Config<ByteView>, engine: State<ByteView>, getter: Getter, key: string)
    : (Result<ByteView>, State<ByteView>, bool)
  {
    if key == "" then
      (Err(KeyRequired), engine, false)
    else
      var (hit, after) := LruSpec.Get(engine, key);
      if hit.Some? then
        (Ok(hit.value), after, false)
      else
        match getter(key)
        case Err(e) => (Err(e), engine, true)
        case Ok(bytes) =>
          var view := ByteView(CloneBytes(bytes));
          (Ok(view), LruSpec.Add(c, engine, key, view).0, true)
  }

  class Group {
    const name: string
    const getter: Getter
    const mainCache: Wrapper.Cache
    var loads: seq<string>

    ghost predicate Valid()
      reads this, mainCache, mainCache.lru
    {
      mainCache.Valid()
    }

    constructor (name: string, cacheBytes: nat, k: nat, historyMax: nat, getter: Getter)
      requires k >= 1 && (k == 1 || historyMax >= 1)
      ensures Valid() && fresh(mainCache)
      ensures this.name == name && this.getter == getter && loads == []
      ensures mainCache.lru == null && mainCache.Params() == Config(k, cacheBytes, historyMax, ByteViews.Len)
    {
      this.name := name;
      this.getter := getter;
      mainCache := new Wrapper.Cache(cacheBytes, k, historyMax);
      loads := [];
    }

    /** Get: rejects the empty key; a cache hit is returned as is; a miss is
        loaded through the getter. */
    method Get(key: string) returns (r: Result<ByteView>)
      requires Valid()
      modifies this, mainCache, mainCache.lru
      ensures Valid() && (mainCache.lru == old(mainCache.lru) || fresh(mainCache.lru))
      ensures var (res, engine, loaded) := GroupGet(mainCache.Params(), old(mainCache.Engine()), getter, key);
              && r == res && mainCache.Engine() == engine
              && loads == old(loads) + (if loaded then [key] else [])
    {
      if key == "" {
        return Err(KeyRequired);
      }
      var v, ok := mainCache.Get(key);
      if ok {
        return Ok(v);
      }
      r := Load(key);
    }

    /** load: the miss path (only the local loader in this version). */
    method Load(key: string) returns (r: Result<ByteView>)
      requires Valid()
      modifies this, mainCache, mainCache.lru
      ensures Valid() && (mainCache.lru == old(mainCache.lru) || fresh(mainCache.lru))
      ensures loads == old(loads) + [key]
      ensures getter(key).Err? ==> r == Err(getter(key).error) && mainCache.Engine() == old(mainCache.Engine())
      ensures getter(key).Ok? ==>
                var view := ByteView(CloneBytes(getter(key).value));
                r == Ok(view)
                && mainCache.Engine() == LruSpec.Add(mainCache.Params(), old(mainCache.Engine()), key, view).0
    {
      r := GetLocally(key);
    }

    /** getLocally: calls the getter; on error nothing is cached, on success
        the bytes are copied into a ByteView that is cached and returned. */
    method GetLocally(key: string) returns (r: Result<ByteView>)
      requires Valid()
      modifies this, mainCache, mainCache.lru
      ensures Valid() && (mainCache.lru == old(mainCache.lru) || fresh(mainCache.lru))
      ensures loads == old(loads) + [key]
      ensures getter(key).Err? ==> r == Err(getter(key).error) && mainCache.Engine() == old(mainCache.Engine())
      ensures getter(key).Ok? ==>
                var view := ByteView(CloneBytes(getter(key).value));
                r == Ok(view)
                && mainCache.Engine() == LruSpec.Add(mainCache.Params(), old(mainCache.Engine()), key, view).0
    {
      loads := loads + [key];
      var bytes := getter(key);
      if bytes.Err? {
        return Err(bytes.error);
      }
      var value := ByteView(CloneBytes(bytes.value));
      PopulateCache(key, value);
      r := Ok(value);
    }

    /** populateCache: hands the loaded value to the cache wrapper. */
    method PopulateCache(key: string, value: ByteView)
      requires Valid()
      modifies mainCache, mainCache.lru
      ensures Valid() && (mainCache.lru == old(mainCache.lru) || fresh(mainCache.lru))
      ensures mainCache.Engine() == LruSpec.Add(mainCache.Params(), old(mainCache.Engine()), key, value).0
    {
      mainCache.Add(key, value);
    }
  }

  /** The process-wide map from namespace name to Group. */
  class Registry {
    var groups: map<string, Group>

    constructor ()
      ensures groups == map[]
    {
      groups := map[];
    }

    /** NewGroup(name, cacheBytes, K, historyMax, getter): a nil getter is a
        configuration error and registers nothing; otherwise a fresh Group is
        stored under `name`, replacing any earlier one. */
    method NewGroup(name: string, cacheBytes: nat, k: nat, historyMax: nat, getter: Option<Getter>)
      returns (r: Option<Group>)
      requires k >= 1 && (k == 1 || historyMax >= 1)
      modifies this
      ensures getter.None? ==> r.None? && groups == old(groups)
      ensures getter.Some? ==>
                && r.Some? && fresh(r.value) && fresh(r.value.mainCache) && r.value.Valid()
                && r.value.name == name && r.value.getter == getter.value && r.value.loads == []
                && r.value.mainCache.lru == null && r.value.mainCache.Engine() == Empty()
                && r.value.mainCache.Params() == Config(k, cacheBytes, historyMax, ByteViews.Len)
                && groups == old(groups)[name := r.value]
    {
      if getter.None? {
        return None;
      }
      var g := new Group(name, cacheBytes, k, historyMax, getter.value);
      groups := groups[name := g];
      r := Some(g);
    }

    /** GetGroup: the Group registered under `name`, or none. */
    method GetGroup(name: string) returns (r: Option<Group>)
      ensures r.Some? <==> name in groups
      ensures r.Some? ==> r.value == groups[name]
    {
      if name in groups {
        r := Some(groups[name]);
      } else {
        r := None;
      }
    }
  }

  // ---------------------------------------------------------------------
  // Properties of Group.Get

  /** The empty key is an error, the loader is not called, nothing changes. */
  lemma EmptyKeyRejected(c: Config<ByteView>, engine: State<ByteView>, getter: Getter)
    ensures GroupGet(c, engine, getter, "") == (Err(KeyRequired), engine, false)
  {
  }

  /** A cache hit returns the cached value without calling the loader and
      keeps the cached contents. */
  lemma HitSkipsLoader(c: Config<ByteView>, engine: State<ByteView>, getter: Getter, key: string)
    requires Inv(c, engine) && key != "" && key in Index(engine.ll)
    ensures var (r, after, loaded) := GroupGet(c, engine, getter, key);
            && r == Ok(Index(engine.ll)[key]) && !loaded
            && Index(after.ll) == Index(engine.ll) && after.hl == engine.hl
  {
    GetFacts(c, engine, key);
  }

  /** On a miss with a loader error, that error is returned and nothing is cached. */
  lemma LoadErrorNotCached(c: Config<ByteView>, engine: State<ByteView>, getter: Getter, key: string)
    requires Inv(c, engine) && key != "" && key !in Index(engine.ll) && getter(key).Err?
    ensures GroupGet(c, engine, getter, key) == (Err(getter(key).error), engine, true)
  {
    GetFacts(c, engine, key);
  }

  /** On a miss with loader success, the answer holds the loader's bytes and
      exactly that value is handed to the engine's Add. When the engine
      admits it at once (K = 1, or this load completes the K visits) and it
      fits the budget, the next Get hits with the same value. */
  lemma LoadSuccessCached(c: Config<ByteView>, engine: State<ByteView>, getter: Getter, key: string)
    requires WellFormed(c) && Inv(c, engine) && key != "" && key !in Index(engine.ll) && getter(key).Ok?
    ensures var (r, after, loaded) := GroupGet(c, engine, getter, key);
            var view := ByteView(getter(key).value);
            && r == Ok(view) && r.value.b == getter(key).value && loaded
            && after == LruSpec.Add(c, engine, key, view).0
            && Inv(c, after)
    ensures var view := ByteView(getter(key).value);
            (c.k == 1 || (key in Index(engine.hl) && Index(engine.hl)[key] + 1 >= c.k))
            && (c.maxBytes == 0 || |key| + c.size(view) <= c.maxBytes)
            ==> GroupGet(c, GroupGet(c, engine, getter, key).1, getter, key).0 == Ok(view)
                && !GroupGet(c, GroupGet(c, engine, getter, key).1, getter, key).2
  {
    var view := ByteView(getter(key).value);
    GetFacts(c, engine, key);
    AddPreservesInv(c, engine, key, view);
    var after := LruSpec.Add(c, engine, key, view).0;
    if (c.k == 1 || (key in Index(engine.hl) && Index(engine.hl)[key] + 1 >= c.k))
       && (c.maxBytes == 0 || |key| + c.size(view) <= c.maxBytes) {
      AddStoresValue(c, engine, key, view);
      GetFacts(c, after, key);
    }
  }

  /** Group.Get keeps every engine invariant. */
  lemma GroupGetPreservesInv(c: Config<ByteView>, engine: State<ByteView>, getter: Getter, key: string)
    requires WellFormed(c) && Inv(c, engine)
    ensures Inv(c, GroupGet(c, engine, getter, key).1)
  {
    if key != "" {
      GetFacts(c, engine, key);
      if key !in Index(engine.ll) && getter(key).Ok? {
        AddPreservesInv(c, engine, key, ByteView(CloneBytes(getter(key).value)));
      }
    }
  }
}
