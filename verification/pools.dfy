/** The cache of tenant connection pools under concurrent `TenantDB` calls. */
module Pools {
  import opened Base

  datatype Pool = Pool(database: string, open: bool)

  /** Where one `TenantDB` call is: before its cache lookup, before its query, before opening, holding the
      pool it opened, or done. */
  datatype Call =
    | Started(tenant: string)
    | Missed(tenant: string)
    | Resolved(tenant: string, database: string)
    | Holding(tenant: string, pool: int)

  datatype Outcome = Refused | Got(tenant: string, pool: int)

  /** `names` gives every tenant's database name, `ready` the tenants whose row is READY and names it. */
  datatype World = World(
    names: map<string, string>, ready: set<string>, cache: map<string, int>, pools: map<int, Pool>, nextPool: int,
    calls: map<int, Call>, results: map<int, Outcome>)

  datatype Action =
    | Begin(c: int, tenant: string)
    | Load(c: int)
    | Resolve(c: int)
    | Open(c: int, reachable: bool)
    | LoadOrStore(c: int)
    | SetReady(ready: set<string>)

  function Done(w: World, c: int, o: Outcome): World { w.(calls := w.calls - {c}, results := w.results[c := o]) }

  function Close(pools: map<int, Pool>, p: int): map<int, Pool> {
    if p in pools then pools[p := pools[p].(open := false)] else pools
  }

  /** The loser of the race closes its pool and uses the winner's. */
  function Settle(w: World, c: int, tenant: string, pool: int): World {
    if tenant in w.cache then Done(w.(pools := Close(w.pools, pool)), c, Got(tenant, w.cache[tenant]))
    else Done(w.(cache := w.cache[tenant := pool]), c, Got(tenant, pool))
  }

  function OpenPool(w: World, c: int, tenant: string, database: string): World {
    w.(pools := w.pools[w.nextPool := Pool(database, true)], nextPool := w.nextPool + 1, calls := w.calls[c := Holding(tenant, w.nextPool)])
  }

  function Step(w: World, a: Action): World {
    match a
    case Begin(c, tenant) => if c in w.calls || c in w.results || tenant == "" then w else w.(calls := w.calls[c := Started(tenant)])
    case Load(c) =>
      if c !in w.calls || !w.calls[c].Started? then w
      else if w.calls[c].tenant in w.cache then Done(w, c, Got(w.calls[c].tenant, w.cache[w.calls[c].tenant]))
      else w.(calls := w.calls[c := Missed(w.calls[c].tenant)])
    case Resolve(c) =>
      if c !in w.calls || !w.calls[c].Missed? then w
      else if w.calls[c].tenant !in w.ready || w.calls[c].tenant !in w.names then Done(w, c, Refused)
      else w.(calls := w.calls[c := Resolved(w.calls[c].tenant, w.names[w.calls[c].tenant])])
    case Open(c, reachable) =>
      if c !in w.calls || !w.calls[c].Resolved? then w
      else if !reachable then Done(w, c, Refused)
      else OpenPool(w, c, w.calls[c].tenant, w.calls[c].database)
    case LoadOrStore(c) => if c in w.calls && w.calls[c].Holding? then Settle(w, c, w.calls[c].tenant, w.calls[c].pool) else w
    case SetReady(ready) => w.(ready := ready)
  }

  function Run(w: World, actions: seq<Action>): World
    decreases actions
  {
    if actions == [] then w else Run(Step(w, actions[0]), actions[1..])
  }

  predicate Serves(w: World, tenant: string, pool: int) {
    tenant in w.names && pool in w.pools && w.pools[pool] == Pool(w.names[tenant], true)
  }

  predicate Held(calls: map<int, Call>, pool: int) { exists c :: c in calls && calls[c].Holding? && calls[c].pool == pool }

  predicate Cached(cache: map<string, int>, pool: int) { exists t :: t in cache && cache[t] == pool }

  ghost predicate CacheServes(w: World) { forall t :: t in w.cache ==> Serves(w, t, w.cache[t]) }

  /** A call in flight knows the right database; the pool it holds is its own. */
  ghost predicate CallsServe(w: World) {
    && (forall c :: c in w.calls && w.calls[c].Resolved? ==>
          w.calls[c].tenant in w.names && w.calls[c].database == w.names[w.calls[c].tenant])
    && (forall c :: c in w.calls && w.calls[c].Holding? ==>
          Serves(w, w.calls[c].tenant, w.calls[c].pool) && !Cached(w.cache, w.calls[c].pool))
    && (forall c, d :: c in w.calls && d in w.calls && c != d && w.calls[c].Holding? && w.calls[d].Holding? ==>
          w.calls[c].pool != w.calls[d].pool)
  }

  /** Every caller that was served got the pool its tenant still uses. */
  ghost predicate ResultsShared(w: World) {
    forall c :: c in w.results && w.results[c].Got? ==> w.results[c].tenant in w.cache && w.cache[w.results[c].tenant] == w.results[c].pool
  }

  /** No pool is left open that nobody uses. */
  ghost predicate NoLeak(w: World) {
    forall p :: p in w.pools ==> p < w.nextPool && (w.pools[p].open ==> Cached(w.cache, p) || Held(w.calls, p))
  }

  ghost predicate Sound(w: World) {
    CacheServes(w) && CallsServe(w) && ResultsShared(w) && NoLeak(w)
  }

  lemma DropCall(w: World, c: int, o: Outcome)
    requires Sound(w) && c in w.calls && !w.calls[c].Holding? && (o.Got? ==> o.tenant in w.cache && w.cache[o.tenant] == o.pool)
    ensures Sound(Done(w, c, o))
  {
    forall p | Held(w.calls, p) ensures Held(w.calls - {c}, p) {
      var d :| d in w.calls && w.calls[d].Holding? && w.calls[d].pool == p;
      assert d in w.calls - {c};
    }
    hide Serves, Cached;
  }

  lemma AdvanceCall(w: World, c: int, call: Call)
    requires Sound(w) && !call.Holding? && (c in w.calls ==> !w.calls[c].Holding?)
    requires call.Resolved? ==> call.tenant in w.names && call.database == w.names[call.tenant]
    ensures Sound(w.(calls := w.calls[c := call]))
  {
    var calls := w.calls[c := call];
    forall p | Held(w.calls, p) ensures Held(calls, p) {
      var d :| d in w.calls && w.calls[d].Holding? && w.calls[d].pool == p;
      assert d in calls && calls[d] == w.calls[d];
    }
    hide Serves, Cached;
  }

  lemma OpenKeepsSound(w: World, c: int)
    requires Sound(w) && c in w.calls && w.calls[c].Resolved?
    ensures Sound(OpenPool(w, c, w.calls[c].tenant, w.calls[c].database))
  {
    var tenant, p := w.calls[c].tenant, w.nextPool;
    var x := OpenPool(w, c, tenant, w.calls[c].database);
    assert Serves(x, tenant, p) && x.calls[c] == Holding(tenant, p) && Held(x.calls, p);
    assert forall t, q :: Serves(w, t, q) ==> q != p && Serves(x, t, q);
    assert !Cached(w.cache, p);
    forall q | Held(w.calls, q) ensures Held(x.calls, q) {
      var d :| d in w.calls && w.calls[d].Holding? && w.calls[d].pool == q;
      assert d in x.calls && x.calls[d] == w.calls[d];
    }
    hide Cached, Serves, Held;
  }

  lemma OthersStillHold(calls: map<int, Call>, c: int, pool: int)
    requires c in calls && calls[c].Holding? && calls[c].pool == pool
    ensures forall q :: q != pool && Held(calls, q) ==> Held(calls - {c}, q)
  {
    forall q | q != pool && Held(calls, q) ensures Held(calls - {c}, q) {
      var d :| d in calls && calls[d].Holding? && calls[d].pool == q;
      assert d in calls - {c};
    }
  }

  lemma LoserKeepsSound(w: World, c: int)
    requires Sound(w) && c in w.calls && w.calls[c].Holding? && w.calls[c].tenant in w.cache
    ensures Sound(Settle(w, c, w.calls[c].tenant, w.calls[c].pool))
  {
    var pool := w.calls[c].pool;
    var x := Settle(w, c, w.calls[c].tenant, pool);
    OthersStillHold(w.calls, c, pool);
    assert forall t :: t in w.cache ==> w.cache[t] != pool;
    assert forall t, q :: q != pool && Serves(w, t, q) ==> Serves(x, t, q);
    hide Cached, Serves, Held;
  }

  lemma WinnerKeepsSound(w: World, c: int)
    requires Sound(w) && c in w.calls && w.calls[c].Holding? && w.calls[c].tenant !in w.cache
    ensures Sound(Settle(w, c, w.calls[c].tenant, w.calls[c].pool))
  {
    var tenant, pool := w.calls[c].tenant, w.calls[c].pool;
    var x := Settle(w, c, tenant, pool);
    OthersStillHold(w.calls, c, pool);
    assert x.cache[tenant] == pool && Cached(x.cache, pool);
    forall q | q != pool ensures Cached(x.cache, q) <==> Cached(w.cache, q) {
      if t :| t in w.cache && w.cache[t] == q { assert x.cache[t] == q; }
      if t :| t in x.cache && x.cache[t] == q { assert t in w.cache && w.cache[t] == q; }
    }
    hide Cached, Held;
  }

  lemma StepKeepsSound(w: World, a: Action)
    requires Sound(w)
    ensures Sound(Step(w, a))
  {
    match a
    case Begin(c, tenant) =>
      if c !in w.calls { AdvanceCall(w, c, Started(tenant)); }
      hide Sound;
    case Load(c) =>
      if c in w.calls && w.calls[c].Started? {
        var t := w.calls[c].tenant;
        if t in w.cache { DropCall(w, c, Got(t, w.cache[t])); } else { AdvanceCall(w, c, Missed(t)); }
      }
      hide Sound, Done;
    case Resolve(c) =>
      if c in w.calls && w.calls[c].Missed? {
        var t := w.calls[c].tenant;
        DropCall(w, c, Refused);
        if t in w.names { AdvanceCall(w, c, Resolved(t, w.names[t])); }
      }
      hide Sound, Done;
    case Open(c, reachable) =>
      if c in w.calls && w.calls[c].Resolved? {
        DropCall(w, c, Refused);
        OpenKeepsSound(w, c);
      }
      hide Sound, Done, OpenPool;
    case LoadOrStore(c) =>
      if c in w.calls && w.calls[c].Holding? {
        if w.calls[c].tenant in w.cache { LoserKeepsSound(w, c); } else { WinnerKeepsSound(w, c); }
      }
      hide Sound, Settle;
    case SetReady(ready) => hide Cached, Held;
  }

  lemma {:induction false} RunKeepsSound(w: World, actions: seq<Action>)
    requires Sound(w)
    ensures Sound(Run(w, actions)) && Run(w, actions).names == w.names
    decreases actions
  {
    hide Sound, Step;
    if actions != [] {
      StepKeepsSound(w, actions[0]);
      assert Step(w, actions[0]).names == w.names by { NamesAreFixed(w, actions[0]); }
      RunKeepsSound(Step(w, actions[0]), actions[1..]);
    }
  }

  lemma NamesAreFixed(w: World, a: Action)
    ensures Step(w, a).names == w.names
  {}

  ghost predicate Injective(names: map<string, string>) {
    forall t, u :: t in names && u in names && t != u ==> names[t] != names[u]
  }

  function Empty(names: map<string, string>): World { World(names, {}, map[], map[], 0, map[], map[]) }

  /** In every interleaving of `TenantDB` calls all callers of a tenant get the same open pool on that tenant's
      database; given injective database names two tenants never share one; and once no call is in flight,
      the open pools are exactly the cached ones: every loser closed its own. */
  lemma CallersShareOnePool(names: map<string, string>, actions: seq<Action>, c: int, d: int)
    requires Injective(names)
    requires var w := Run(Empty(names), actions); c in w.results && d in w.results && w.results[c].Got? && w.results[d].Got?
    ensures var w := Run(Empty(names), actions);
            var a, b := w.results[c], w.results[d];
            && Serves(w, a.tenant, a.pool) && Serves(w, b.tenant, b.pool)
            && (a.tenant == b.tenant <==> a.pool == b.pool)
            && (a.tenant != b.tenant ==> w.pools[a.pool].database != w.pools[b.pool].database)
  {
    RunKeepsSound(Empty(names), actions);
    hide Run;
  }

  lemma LosersAreClosed(names: map<string, string>, actions: seq<Action>)
    requires Run(Empty(names), actions).calls == map[]
    ensures var w := Run(Empty(names), actions); forall p :: p in w.pools ==> (w.pools[p].open <==> Cached(w.cache, p))
  {
    RunKeepsSound(Empty(names), actions);
    var w := Run(Empty(names), actions);
    hide Run;
    forall p | p in w.pools && Cached(w.cache, p) ensures w.pools[p].open {
      var t :| t in w.cache && w.cache[t] == p;
      assert Serves(w, t, w.cache[t]);
    }
  }

  // ---- What one call gets ----

  lemma {:induction false} RunAppend(w: World, a: seq<Action>, b: seq<Action>)
    ensures Run(w, a + b) == Run(Run(w, a), b)
    decreases a
  {
    hide Step;
    if a == [] {
      assert a + b == b;
    } else {
      assert (a + b)[1..] == a[1..] + b;
      RunAppend(Step(w, a[0]), a[1..], b);
    }
  }

  lemma RunOne(w: World, a: Action)
    ensures Run(w, [a]) == Step(w, a)
  {}

  /** A tenant in the cache is served from it, and the call leaves nothing else behind. */
  lemma CachedOutcome(w: World, c: int, tenant: string)
    requires c !in w.calls && c !in w.results && tenant != "" && tenant in w.cache
    ensures Run(w, [Begin(c, tenant)] + [Load(c)]) == w.(results := w.results[c := Got(tenant, w.cache[tenant])])
  {
    var x := Step(w, Begin(c, tenant));
    assert x.calls - {c} == w.calls;
    RunAppend(w, [Begin(c, tenant)], [Load(c)]);
    RunOne(w, Begin(c, tenant));
    RunOne(x, Load(c));
  }

  /** The steps of one call up to the opening of its pool. */
  function Attempt(c: int, tenant: string, reachable: bool): seq<Action> {
    [Begin(c, tenant), Load(c)] + [Resolve(c), Open(c, reachable)]
  }

  lemma RunTwo(w: World, a: Action, b: Action)
    ensures Run(w, [a, b]) == Step(Step(w, a), b)
  {
    hide Step;
    assert [a, b] == [a] + [b];
    RunAppend(w, [a], [b]);
    RunOne(w, a);
    RunOne(Step(w, a), b);
  }

  /** Any other call opens a pool of its own on the tenant's database exactly when the tenant is ready, has one
      and it can be reached; else it is refused, and nothing is opened or cached. */
  lemma AttemptOutcome(w: World, c: int, tenant: string, reachable: bool)
    requires c !in w.calls && c !in w.results && tenant != "" && tenant !in w.cache
    ensures Run(w, Attempt(c, tenant, reachable))
            == if tenant in w.ready && tenant in w.names && reachable
               then w.(pools := w.pools[w.nextPool := Pool(w.names[tenant], true)], nextPool := w.nextPool + 1,
                       calls := w.calls[c := Holding(tenant, w.nextPool)])
               else w.(results := w.results[c := Refused])
  {
    var x := Step(Step(w, Begin(c, tenant)), Load(c));
    RunTwo(w, Begin(c, tenant), Load(c));
    RunTwo(x, Resolve(c), Open(c, reachable));
    RunAppend(w, [Begin(c, tenant), Load(c)], [Resolve(c), Open(c, reachable)]);
    assert x == w.(calls := w.calls[c := Missed(tenant)]);
    ResolveOutcome(w, c, tenant, reachable);
    hide Run, Step;
  }

  lemma ResolveOutcome(w: World, c: int, tenant: string, reachable: bool)
    requires c !in w.calls
    ensures Step(Step(w.(calls := w.calls[c := Missed(tenant)]), Resolve(c)), Open(c, reachable))
            == if tenant in w.ready && tenant in w.names && reachable
               then w.(pools := w.pools[w.nextPool := Pool(w.names[tenant], true)], nextPool := w.nextPool + 1,
                       calls := w.calls[c := Holding(tenant, w.nextPool)])
               else w.(results := w.results[c := Refused])
  {
    var x := w.(calls := w.calls[c := Missed(tenant)]);
    assert x.calls - {c} == w.calls;
    if tenant in w.ready && tenant in w.names {
      var y := Step(x, Resolve(c));
      assert y.calls == w.calls[c := Resolved(tenant, w.names[tenant])];
      assert y.calls - {c} == w.calls && y.calls[c := Holding(tenant, w.nextPool)] == w.calls[c := Holding(tenant, w.nextPool)];
    }
  }

  /** Of the callers that opened a pool, the first to store its pool keeps it for the tenant; each later one
      gets that pool too, and its own is closed. */
  lemma StoreOutcome(w: World, c: int)
    requires c in w.calls && w.calls[c].Holding?
    ensures var call, x := w.calls[c], Step(w, LoadOrStore(c));
            && x.calls == w.calls - {c} && x.names == w.names && x.ready == w.ready && x.nextPool == w.nextPool
            && (call.tenant !in w.cache ==> x.pools == w.pools && x.cache == w.cache[call.tenant := call.pool])
            && (call.tenant in w.cache ==>
                  && x.cache == w.cache && x.pools.Keys == w.pools.Keys
                  && (call.pool in w.pools ==> x.pools[call.pool] == Pool(w.pools[call.pool].database, false))
                  && forall p :: p in w.pools && p != call.pool ==> x.pools[p] == w.pools[p])
            && x.results == w.results[c := Got(call.tenant, x.cache[call.tenant])]
  {}

  /** A call runs only the step it is at, never a second time, and only for a named tenant. */
  lemma OutOfTurn(w: World, c: int)
    ensures c in w.calls || c in w.results ==> forall t :: Step(w, Begin(c, t)) == w
    ensures Step(w, Begin(c, "")) == w
    ensures (c !in w.calls || !w.calls[c].Started?) ==> Step(w, Load(c)) == w
    ensures (c !in w.calls || !w.calls[c].Missed?) ==> Step(w, Resolve(c)) == w
    ensures (c !in w.calls || !w.calls[c].Resolved?) ==> forall r :: Step(w, Open(c, r)) == w
    ensures (c !in w.calls || !w.calls[c].Holding?) ==> Step(w, LoadOrStore(c)) == w
    ensures forall ready :: Step(w, SetReady(ready)) == w.(ready := ready)
  {}
}

/** `TenantDB` itself. */
module PoolStore {
  import opened Base
  import opened Pools

  class TenantPools {
    const names: map<string, string>
    var ready: set<string>
    var cache: map<string, int>
    var pools: map<int, Pool>
    var nextPool: int

    /** The cache and the pools, with these calls in flight and these already answered. */
    function State(calls: map<int, Call>, results: map<int, Outcome>): World
      reads this
    {
      World(names, ready, cache, pools, nextPool, calls, results)
    }

    /** A call that runs alone: the pool of the cache, or a new one that enters it. */
    method TenantDB(tenant: string, reachable: bool) returns (pool: Option<int>)
      requires tenant != "" && Sound(State(map[], map[]))
      modifies this
      ensures Sound(State(map[], map[]))
      ensures pool.Some? <==> tenant in old(cache) || (tenant in ready && tenant in names && reachable)
      ensures pool.Some? ==> tenant in cache && cache[tenant] == pool.value && Serves(State(map[], map[]), tenant, pool.value)
      ensures pool.None? || tenant in old(cache) ==> State(map[], map[]) == old(State(map[], map[]))
      ensures forall t :: t in old(cache) ==> t in cache && cache[t] == old(cache)[t]
    {
      if tenant in cache { return Some(cache[tenant]); }
      if tenant !in ready || tenant !in names || !reachable { return None; }
      ghost var w := State(map[0 := Resolved(tenant, names[tenant])], map[]);
      assert Sound(w) by { AdvanceCall(State(map[], map[]), 0, Resolved(tenant, names[tenant])); }
      OpenKeepsSound(w, 0);
      var conn := nextPool;
      pools, nextPool := pools[conn := Pool(names[tenant], true)], nextPool + 1;
      ghost var x := State(map[0 := Holding(tenant, conn)], map[]);
      assert x == OpenPool(w, 0, tenant, names[tenant]);
      WinnerKeepsSound(x, 0);
      cache := cache[tenant := conn];
      ResultsMayGo(State(map[], map[0 := Got(tenant, conn)]));
      assert map[0 := Holding(tenant, conn)] - {0} == map[];
      pool := Some(conn);
    }
  }

  lemma ResultsMayGo(w: World)
    requires Sound(w)
    ensures Sound(w.(results := map[]))
  {}
}
