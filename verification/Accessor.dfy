/** The connection of one dpu cluster. Every method body runs under the accessor's lock. */
module Accessors {
  import opened Common
  import opened HealthChecks

  type CacheId = nat

  /** A watch request; `handler` stands for the DisconnectHandler that came with it. */
  datatype Watcher = Watcher(name: string, handler: nat)

  datatype Connection = Connection(cache: CacheId, watches: map<string, Watcher>)

  datatype Accessor = Accessor(connection: Option<Connection>, health: Option<Health>)

  const NOT_CONNECTED := "dpu cluster is not connected"

  const NEW_ACCESSOR := Accessor(None, None)

  function AfterSetState(cache: CacheId): Accessor {
    Accessor(Some(Connection(cache, map[])), Some(NewHealth(DEFAULT_MAX_RETRIES)))
  }

  /** Whether watching `w` starts an informer: its name is not running on this connection yet. */
  predicate StartsInformer(a: Accessor, w: Watcher) {
    a.connection.Some? && w.name !in a.connection.value.watches
  }

  /** The latest watcher of a name is kept; a new name only if its informer could be started. */
  function AfterWatch(a: Accessor, w: Watcher, started: bool): Accessor {
    if a.connection.None? || (StartsInformer(a, w) && !started) then a
    else a.(connection := Some(a.connection.value.(watches := a.connection.value.watches[w.name := w])))
  }

  function WatchResult(a: Accessor, w: Watcher, started: bool): Result<()> {
    if a.connection.None? then Err(NOT_CONNECTED)
    else if StartsInformer(a, w) && !started then Err("failed to create watch")
    else Ok(())
  }

  /** Every watch of the connection once, in some order. */
  ghost predicate Lists(watches: map<string, Watcher>, order: seq<Watcher>) {
    && (forall i :: 0 <= i < |order| ==> order[i].name in watches && watches[order[i].name] == order[i])
    && (forall n :: n in watches ==> watches[n] in order)
    && (forall i, j :: 0 <= i < j < |order| ==> order[i].name != order[j].name)
  }

  /** Watches are filed under their own name. */
  ghost predicate FiledByName(watches: map<string, Watcher>) {
    forall n :: n in watches ==> watches[n].name == n
  }

  class AccessorObject {
    var connection: Option<Connection>
    var health: HealthServer?
    ghost var cancelled: seq<CacheId>
    ghost var started: seq<(CacheId, Watcher)>

    constructor ()
      ensures View() == NEW_ACCESSOR && Valid() && cancelled == [] && started == []
    {
      connection, health, cancelled, started := None, null, [], [];
    }

    ghost function View(): Accessor
      reads this, health
    {
      Accessor(connection, if health == null then None else Some(health.View()))
    }

    ghost predicate Valid()
      reads this
    {
      && (connection.Some? ==> health != null && FiledByName(connection.value.watches))
    }

    method SetState(cache: CacheId)
      requires Valid()
      modifies this
      ensures Valid() && View() == AfterSetState(cache) && fresh(health)
      ensures cancelled == old(cancelled) && started == old(started)
    {
      connection := Some(Connection(cache, map[]));
      health := new HealthServer(DEFAULT_MAX_RETRIES);
    }

    method HealthCheck(serverVersion: Option<string>) returns (err: Option<string>)
      requires Valid()
      modifies health
      ensures Valid()
      ensures old(View()).connection.None? ==> err == Some(NOT_CONNECTED) && View() == old(View())
      ensures old(View()).connection.Some? ==>
                && View() == old(View()).(health := Some(AfterCheck(old(View()).health.value, serverVersion)))
                && err == CheckError(old(View()).health.value)
    {
      if connection.None? {
        return Some(NOT_CONNECTED);
      }
      var _, error := health.Check(serverVersion);
      return error;
    }

    /** Cancels the cache and returns the watches that were running on it. */
    method Disconnect() returns (watchers: seq<Watcher>)
      requires Valid()
      modifies this
      ensures Valid() && View() == old(View()).(connection := None) && started == old(started)
      ensures match old(connection)
              case None => watchers == [] && cancelled == old(cancelled)
              case Some(c) => Lists(c.watches, watchers) && cancelled == old(cancelled) + [c.cache]
    {
      watchers := [];
      if connection.None? {
        return;
      }
      var watches := connection.value.watches;
      cancelled := cancelled + [connection.value.cache];
      var todo := watches.Keys;
      while todo != {}
        invariant todo <= watches.Keys
        invariant Lists(map n | n in watches && n !in todo :: watches[n], watchers)
        modifies {}
        decreases todo
      {
        var n :| n in todo;
        ghost var before := map m | m in watches && m !in todo :: watches[m];
        ghost var order := watchers;
        todo := todo - {n};
        watchers := watchers + [watches[n]];
        ListsOneMore(before, order, watches[n], map m | m in watches && m !in todo :: watches[m]);
      }
      assert (map n | n in watches && n !in todo :: watches[n]) == watches;
      connection := None;
    }

    /** `ok` is the outcome of starting the informer, if one has to be started. */
    method Watch(w: Watcher, ok: bool) returns (r: Result<()>)
      requires Valid()
      modifies this
      ensures Valid() && cancelled == old(cancelled)
      ensures w.name == "" ==> r.Err? && View() == old(View()) && started == old(started)
      ensures w.name != "" ==>
                && r == WatchResult(old(View()), w, ok) && View() == AfterWatch(old(View()), w, ok)
                && started == if StartsInformer(old(View()), w) && ok
                              then old(started) + [(old(View()).connection.value.cache, w)] else old(started)
    {
      if w.name == "" {
        return Err("watcher name must not be empty");
      }
      if connection.None? {
        return Err(NOT_CONNECTED);
      }
      var current := connection.value;
      if w.name !in current.watches {
        if !ok {
          return Err("failed to create watch");
        }
        started := started + [(current.cache, w)];
      }
      connection := Some(current.(watches := current.watches[w.name := w]));
      return Ok(());
    }
  }

  lemma ListsOneMore(before: map<string, Watcher>, order: seq<Watcher>, w: Watcher, after: map<string, Watcher>)
    requires Lists(before, order) && w.name !in before && after == before[w.name := w]
    ensures Lists(after, order + [w])
  {
    forall n | n in after ensures after[n] in order + [w] {
      if n in before {
        assert before[n] in order;
      }
    }
  }
}
