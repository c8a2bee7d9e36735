/** The route cache of app/lib/modules/llm/android/optimization/RouteLoader.ts: loaded
    route components cached by route id with the time they were last used, the set
    of preloaded route ids, priority-ordered preloading, and age-based eviction. The
    component and asset loaders are outcomes given to the operations; `C` stands for
    a loaded component. */
module Routes {
  import opened Common

  datatype Asset = Asset(id: string, url: string, kind: string)

  /** A route's configuration; an absent `preload` is `false`, an absent or zero
      `priority` is 0, absent lists are empty. */
  datatype RouteConfig = RouteConfig(
    id: string,
    path: string,
    component: string,
    preload: bool,
    priority: int,
    assets: seq<Asset>,
    dependencies: seq<string>)

  datatype CacheEntry<C> = CacheEntry(component: C, lastAccessed: int)

  /** `(b.priority || 0) - (a.priority || 0)` as a key. */
  function PriorityOf(r: RouteConfig): int
  {
    r.priority
  }

  /** The eviction test of `clearCache`: everything when `olderThan` is absent or 0,
      otherwise entries not used for strictly longer than `olderThan`. */
  predicate Evicted<C>(e: CacheEntry<C>, olderThan: int, now: int)
  {
    olderThan == 0 || now - e.lastAccessed > olderThan
  }

  /** `preloadRoute` on the set of preloaded ids, given the outcome of the loads. */
  function PreloadOne(preloaded: set<string>, r: RouteConfig, loaded: Outcome): (set<string>, Outcome)
  {
    if r.id in preloaded then (preloaded, Pass)
    else if loaded.Fail? then (preloaded, loaded)
    else (preloaded + {r.id}, Pass)
  }

  /** The loop of `preloadRoutes` over `sorted`: routes without `preload` are skipped,
      and the first failure ends the loop. */
  function PreloadEach(preloaded: set<string>, sorted: seq<RouteConfig>, outcomeOf: RouteConfig -> Outcome): (r: (set<string>, Outcome))
    ensures preloaded <= r.0
    ensures forall id :: id in r.0 ==> id in preloaded || exists i :: 0 <= i < |sorted| && sorted[i].preload && sorted[i].id == id
    ensures r.1.Pass? ==> forall i :: 0 <= i < |sorted| && sorted[i].preload ==> sorted[i].id in r.0
  {
    if sorted == [] then (preloaded, Pass)
    else
      var init := sorted[..|sorted| - 1];
      var route := sorted[|sorted| - 1];
      var before := PreloadEach(preloaded, init, outcomeOf);
      assert forall i :: 0 <= i < |init| ==> init[i] == sorted[i];
      if before.1.Fail? || !route.preload then before
      else PreloadOne(before.0, route, outcomeOf(route))
  }

  /** The routes `preloadRoutes` visits, in the order it visits them: a copy of the
      input sorted stably by descending priority. */
  function VisitOrder(routes: seq<RouteConfig>): (r: seq<RouteConfig>)
    ensures SortedDesc(r, PriorityOf) && multiset(r) == multiset(routes)
    ensures forall k :: WithKey(r, PriorityOf, k) == WithKey(routes, PriorityOf, k)
  {
    SortDescCorrect(routes, PriorityOf);
    forall k ensures WithKey(SortDesc(routes, PriorityOf), PriorityOf, k) == WithKey(routes, PriorityOf, k) {
      SortDescStable(routes, PriorityOf, k);
    }
    SortDesc(routes, PriorityOf)
  }

  /** When every preload succeeds, exactly the routes marked `preload` are added. */
  lemma PreloadRoutesAddsMarked(preloaded: set<string>, routes: seq<RouteConfig>)
    ensures var r := PreloadEach(preloaded, VisitOrder(routes), _ => Pass);
      && r.1 == Pass
      && forall id :: id in r.0 <==> id in preloaded || exists route :: route in routes && route.preload && route.id == id
  {
    var sorted := VisitOrder(routes);
    var r := PreloadEach(preloaded, sorted, _ => Pass);
    AllPass(preloaded, sorted);
    forall id ensures id in r.0 <==> id in preloaded || exists route :: route in routes && route.preload && route.id == id {
      if exists route :: route in routes && route.preload && route.id == id {
        var route :| route in routes && route.preload && route.id == id;
        assert route in multiset(sorted);
        var i :| 0 <= i < |sorted| && sorted[i] == route;
      }
      if id in r.0 && id !in preloaded {
        var i :| 0 <= i < |sorted| && sorted[i].preload && sorted[i].id == id;
        assert sorted[i] in multiset(routes);
      }
    }
  }

  lemma {:induction false} AllPass(preloaded: set<string>, sorted: seq<RouteConfig>)
    ensures PreloadEach(preloaded, sorted, _ => Pass).1 == Pass
  {
    if sorted != [] {
      AllPass(preloaded, sorted[..|sorted| - 1]);
    }
  }

  class RouteLoader<C> {
    var routeCache: map<string, CacheEntry<C>>
    var preloadedRoutes: set<string>

    constructor ()
      ensures routeCache == map[] && preloadedRoutes == {}
    {
      routeCache := map[];
      preloadedRoutes := {};
    }

    /** `loadRoute` at time `now`; `loaded` is the result of loading the dependencies,
        the component and the assets. A cached route is returned with its
        `lastAccessed` refreshed and nothing loaded; otherwise the component is cached
        only when every load succeeded. */
    method LoadRoute(config: RouteConfig, now: int, loaded: Result<C>) returns (r: Result<C>)
      modifies this`routeCache
      ensures config.id in old(routeCache) ==>
        r == Ok(old(routeCache)[config.id].component) &&
        routeCache == old(routeCache)[config.id := CacheEntry(old(routeCache)[config.id].component, now)]
      ensures config.id !in old(routeCache) && loaded.Err? ==> r == loaded && routeCache == old(routeCache)
      ensures config.id !in old(routeCache) && loaded.Ok? ==>
        r == loaded && routeCache == old(routeCache)[config.id := CacheEntry(loaded.value, now)]
      ensures r.Ok? ==> IsRouteLoaded(config.id)
    {
      if config.id in routeCache {
        var cached := routeCache[config.id];
        routeCache := routeCache[config.id := cached.(lastAccessed := now)];
        return Ok(cached.component);
      }
      if loaded.Err? {
        return loaded;
      }
      routeCache := routeCache[config.id := CacheEntry(loaded.value, now)];
      r := loaded;
    }

    /** `preloadRoute`: a no-op for a route already preloaded; a route is marked only
        once its loads succeeded. */
    method PreloadRoute(config: RouteConfig, loaded: Outcome) returns (r: Outcome)
      modifies this`preloadedRoutes
      ensures (preloadedRoutes, r) == PreloadOne(old(preloadedRoutes), config, loaded)
      ensures config.id in old(preloadedRoutes) ==> r == Pass && preloadedRoutes == old(preloadedRoutes)
      ensures config.id !in old(preloadedRoutes) ==>
        r == loaded && preloadedRoutes == (if loaded.Pass? then old(preloadedRoutes) + {config.id} else old(preloadedRoutes))
    {
      if config.id in preloadedRoutes {
        return Pass;
      }
      if loaded.Fail? {
        return loaded;
      }
      preloadedRoutes := preloadedRoutes + {config.id};
      r := Pass;
    }

    /** `preloadRoutes`: the routes are visited by descending priority and those
        marked `preload` are preloaded one after another; a failure ends the loop. */
    method PreloadRoutes(routes: seq<RouteConfig>, outcomeOf: RouteConfig -> Outcome) returns (r: Outcome)
      modifies this`preloadedRoutes
      ensures (preloadedRoutes, r) == PreloadEach(old(preloadedRoutes), VisitOrder(routes), outcomeOf)
    {
      var sorted := VisitOrder(routes);
      var i := 0;
      r := Pass;
      while i < |sorted| && r.Pass?
        invariant 0 <= i <= |sorted|
        invariant (preloadedRoutes, r) == PreloadEach(old(preloadedRoutes), sorted[..i], outcomeOf)
      {
        var route := sorted[i];
        PreloadStep(old(preloadedRoutes), sorted, i, outcomeOf);
        if route.preload {
          r := PreloadRoute(route, outcomeOf(route));
        }
        i := i + 1;
      }
      if i < |sorted| {
        FailureSticks(old(preloadedRoutes), sorted, i, outcomeOf);
      }
      assert sorted[..|sorted|] == sorted;
    }

    /** `clearCache(olderThan)` at time `now`: the loop over the cache entries deletes
        each evicted entry from the cache and from the preloaded set. A preloaded id
        that was never cached stays. */
    method ClearCache(olderThan: int, now: int)
      modifies this`routeCache, this`preloadedRoutes
      ensures routeCache == map id | id in old(routeCache) && !Evicted(old(routeCache)[id], olderThan, now) :: old(routeCache)[id]
      ensures preloadedRoutes == old(preloadedRoutes) - set id | id in old(routeCache) && Evicted(old(routeCache)[id], olderThan, now)
    {
      var todo := routeCache.Keys;
      while todo != {}
        invariant todo <= old(routeCache).Keys
        invariant routeCache == map id | id in old(routeCache) && (id in todo || !Evicted(old(routeCache)[id], olderThan, now)) :: old(routeCache)[id]
        invariant preloadedRoutes == old(preloadedRoutes) - set id | id in old(routeCache) && id !in todo && Evicted(old(routeCache)[id], olderThan, now)
        decreases |todo|
      {
        var id :| id in todo;
        if Evicted(routeCache[id], olderThan, now) {
          routeCache := routeCache - {id};
          preloadedRoutes := preloadedRoutes - {id};
        }
        todo := todo - {id};
      }
    }

    /** `isRouteLoaded`. */
    predicate IsRouteLoaded(routeId: string)
      reads this
    {
      routeId in routeCache
    }

    /** `isRoutePreloaded`. */
    predicate IsRoutePreloaded(routeId: string)
      reads this
    {
      routeId in preloadedRoutes
    }
  }

  /** One more route visited, after no failure so far: a route marked `preload` is
      preloaded, any other is skipped. */
  lemma PreloadStep(preloaded: set<string>, sorted: seq<RouteConfig>, i: nat, outcomeOf: RouteConfig -> Outcome)
    requires i < |sorted| && PreloadEach(preloaded, sorted[..i], outcomeOf).1.Pass?
    ensures var before := PreloadEach(preloaded, sorted[..i], outcomeOf);
      PreloadEach(preloaded, sorted[..i + 1], outcomeOf) ==
        if sorted[i].preload then PreloadOne(before.0, sorted[i], outcomeOf(sorted[i])) else before
  {
    assert sorted[..i + 1][..i] == sorted[..i];
  }

  /** Once a preload failed, the loop over the rest changes nothing. */
  lemma {:induction false} FailureSticks(preloaded: set<string>, sorted: seq<RouteConfig>, i: nat, outcomeOf: RouteConfig -> Outcome)
    requires i <= |sorted| && PreloadEach(preloaded, sorted[..i], outcomeOf).1.Fail?
    ensures PreloadEach(preloaded, sorted, outcomeOf) == PreloadEach(preloaded, sorted[..i], outcomeOf)
    decreases |sorted| - i
  {
    if i < |sorted| {
      assert sorted[..i + 1][..i] == sorted[..i];
      FailureSticks(preloaded, sorted, i + 1, outcomeOf);
    } else {
      assert sorted[..i] == sorted;
    }
  }
}
