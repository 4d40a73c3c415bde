/** The map of accessors of the remote cache. Every method body runs under the cache's lock. */
module RemoteCaches {
  import opened Common
  import opened HealthChecks
  import opened Accessors
  import opened ClusterCaches

  /** The connected accessor that a reconcile gets to: the one that is there, or, for a ready cluster
      or an accessor left without a connection, one with the connection it opens. */
  function Reached(before: Option<Accessor>, ready: bool, cache: Option<CacheId>): Option<Accessor> {
    if before.Some? && before.value.connection.Some? then before
    else if (before.Some? || ready) && cache.Some? then Some(AfterSetState(cache.value))
    else None
  }

  /** An accessor with these watches. */
  function WithWatches(a: Accessor, watches: map<string, Watcher>): Accessor
    requires a.connection.Some?
  {
    a.(connection := Some(a.connection.value.(watches := watches)))
  }

  /** The cache of every cluster's accessor. The reconcile of a cluster takes several critical sections;
      here it is one call, with nothing else going on in between. */
  class RemoteCache {
    var accessors: map<string, AccessorObject>

    constructor ()
      ensures Valid() && accessors == map[]
    {
      accessors := map[];
    }

    /** Every accessor is valid, and no two clusters share one. */
    ghost predicate Valid()
      reads this, accessors.Values
    {
      && (forall c :: c in accessors ==> accessors[c].Valid())
      && (forall c, d :: c in accessors && d in accessors && c != d ==> accessors[c] != accessors[d])
    }

    method GetAccessor(cluster: string) returns (found: AccessorObject?)
      ensures found == if cluster in accessors then accessors[cluster] else null
    {
      found := null;
      if cluster in accessors {
        found := accessors[cluster];
      }
    }

    method CreateAccessor(cluster: string) returns (created: AccessorObject)
      requires Valid()
      modifies this
      ensures Valid() && fresh(created) && created.View() == NEW_ACCESSOR && created.cancelled == []
      ensures accessors == old(accessors)[cluster := created]
    {
      created := new AccessorObject();
      accessors := accessors[cluster := created];
    }

    /** The accessor leaves the map, and is disconnected; those of other clusters are not touched. */
    method DeleteAccessor(cluster: string) returns (watchers: seq<Watcher>)
      requires Valid()
      modifies this, if cluster in accessors then {accessors[cluster]} else {}
      ensures Valid() && accessors == old(accessors) - {cluster}
      ensures cluster !in old(accessors) ==> watchers == []
      ensures cluster in old(accessors) ==>
                var a := old(accessors)[cluster];
                && a.View() == old(a.View()).(connection := None)
                && if old(a.connection).None? then watchers == [] && a.cancelled == old(a.cancelled)
                   else Lists(old(a.connection.value.watches), watchers)
                        && a.cancelled == old(a.cancelled) + [old(a.connection.value.cache)]
    {
      if cluster !in accessors {
        return [];
      }
      watchers := accessors[cluster].Disconnect();
      accessors := accessors - {cluster};
    }

    /** `started` is the outcome of starting the informer, if one has to be started. */
    method Watch(cluster: string, w: Watcher, started: bool) returns (r: Result<()>)
      requires Valid()
      modifies if cluster in accessors then {accessors[cluster]} else {}
      ensures Valid() && accessors == old(accessors)
      ensures r.Ok? <==> cluster in accessors && w.name != "" && old(accessors[cluster].connection).Some?
                         && (w.name in old(accessors[cluster].connection.value.watches) || started)
      ensures cluster in accessors ==>
                accessors[cluster].View() == if r.Ok? then AfterWatch(old(accessors[cluster].View()), w, started)
                                             else old(accessors[cluster].View())
    {
      if cluster !in accessors {
        return Err(NOT_CONNECTED);
      }
      r := accessors[cluster].Watch(w, started);
    }
  
    ghost function Footprint(cluster: string): set<object>
      reads this, accessors.Values
    {
      if cluster !in accessors then {}
      else if accessors[cluster].health == null then {accessors[cluster]}
      else {accessors[cluster], accessors[cluster].health}
    }

    ghost function ViewOf(cluster: string): Option<Accessor>
      reads this, accessors.Values, Footprint(cluster)
    {
      if cluster in accessors then Some(accessors[cluster].View()) else None
    }

    /** Reconciles a cluster. `cache` is the cache that connecting gives, if it succeeds, and
        `answer` the error of the health probe, if it is made and fails; `watches` are those to
        register, and `starts` says whose informers can be started. */
    method Reconcile(cluster: string, ready: bool, cache: Option<CacheId>, answer: Option<string>,
                     watches: seq<Watcher>, starts: seq<bool>)
      returns (r: Result<()>, told: seq<Watcher>, ghost registered: nat)
      requires Valid() && |starts| == |watches|
      modifies this, Footprint(cluster)
      ensures Valid() && accessors - {cluster} == old(accessors) - {cluster}
      ensures var x := Reached(old(ViewOf(cluster)), ready, cache);
              x.None? ==>
                && r.Err? && told == []
                && ViewOf(cluster) ==
                   if old(ViewOf(cluster)).None? && ready then Some(NEW_ACCESSOR) else old(ViewOf(cluster))
      ensures var x := Reached(old(ViewOf(cluster)), ready, cache);
              x.Some? && CheckError(x.value.health.value).Some? ==>
                && cluster in old(accessors) && cluster !in accessors
                && r == Err(CheckError(x.value.health.value).value)
                && Lists(x.value.connection.value.watches, told)
                && old(accessors)[cluster].connection.None?
                && old(accessors)[cluster].cancelled ==
                   old(accessors[cluster].cancelled) + [x.value.connection.value.cache]
      ensures var x := Reached(old(ViewOf(cluster)), ready, cache);
              x.Some? && CheckError(x.value.health.value).None? ==>
                && told == [] && registered <= |watches| && (r.Ok? <==> registered == |watches|)
                && var now := x.value.connection.value.watches + Latest(watches[..registered]);
                   && ViewOf(cluster) ==
                      Some(WithWatches(x.value, now).(health := Some(AfterCheck(x.value.health.value, answer))))
                   && (registered < |watches| ==>
                         var w := watches[registered]; w.name == "" || (w.name !in now && !starts[registered]))
    {
      told, registered := [], 0;
      var accessor := Connect(cluster, ready, cache);
      if accessor == null {
        r := Err("dpuCluster is not ready, or failed to connect");
        return;
      }
      var err := accessor.HealthCheck(answer);
      if err.Some? {
        told := DeleteAccessor(cluster);
        r := Err(err.value);
        return;
      }
      r, registered := RegisterWatches(accessor, watches, starts);
    }

    /** Gets or creates the accessor and connects it; null if that is not possible. */
    method Connect(cluster: string, ready: bool, cache: Option<CacheId>) returns (accessor: AccessorObject?)
      requires Valid()
      modifies this, Footprint(cluster)
      ensures Valid() && accessors - {cluster} == old(accessors) - {cluster}
      ensures accessor != null <==> Reached(old(ViewOf(cluster)), ready, cache).Some?
      ensures accessor == null ==>
                ViewOf(cluster) ==
                if old(ViewOf(cluster)).None? && ready then Some(NEW_ACCESSOR) else old(ViewOf(cluster))
      ensures accessor != null ==>
                && cluster in accessors && accessors[cluster] == accessor
                && accessor.View() == Reached(old(ViewOf(cluster)), ready, cache).value
                && (if cluster in old(accessors)
                    then accessor == old(accessors)[cluster] && accessor.cancelled == old(accessors[cluster].cancelled)
                    else fresh(accessor))
                && (fresh(accessor.health)
                    || (cluster in old(accessors) && accessor.health == old(accessors[cluster].health)))
    {
      accessor := GetAccessor(cluster);
      if accessor == null {
        if !ready {
          return null;
        }
        accessor := CreateAccessor(cluster);
      }
      if accessor.connection.None? {
        if cache.None? {
          return null;
        }
        accessor.SetState(cache.value);
      }
    }

    method RegisterWatches(accessor: AccessorObject, watches: seq<Watcher>, starts: seq<bool>)
      returns (r: Result<()>, ghost registered: nat)
      requires accessor.Valid() && accessor.connection.Some? && |starts| == |watches|
      modifies accessor
      ensures accessor.Valid() && registered <= |watches| && (r.Ok? <==> registered == |watches|)
      ensures var now := old(accessor.connection.value.watches) + Latest(watches[..registered]);
              && accessor.View() == WithWatches(old(accessor.View()), now)
              && (registered < |watches| ==>
                    var w := watches[registered]; w.name == "" || (w.name !in now && !starts[registered]))
    {
      hide FiledByName;
      ghost var was := accessor.connection.value.watches;
      registered := 0;
      r := Ok(());
      assert watches[..0] == [] && was + map[] == was;
      for i := 0 to |watches|
        invariant registered == i && accessor.Valid() && r.Ok?
        invariant accessor.View() == WithWatches(old(accessor.View()), was + Latest(watches[..i]))
      {
        ghost var now := was + Latest(watches[..i]);
        r := accessor.Watch(watches[i], starts[i]);
        if r.Err? {
          return;
        }
        assert watches[..i + 1] == watches[..i] + [watches[i]];
        LatestExtends(watches[..i], watches[i]);
        assert was + Latest(watches[..i + 1]) == now[watches[i].name := watches[i]];
        registered := registered + 1;
      }
      assert watches[..|watches|] == watches;
    }
  }
}
