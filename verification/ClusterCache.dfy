/** The life of one dpu cluster in the remote cache. One reconciler works on the cluster at a time
    and owns connecting, health checks and disconnecting; watches come in from any goroutine. Each
    step is one critical section, or one stretch of the reconciler that touches shared state once. */
module ClusterCaches {
  import opened Common
  import opened HealthChecks
  import opened Accessors

  type AccessorId = nat

  /** What became of a cache that was started. */
  datatype Fate = Opened | Installed | SyncFailed | DiscoveryFailed | Removed | Dropped

  /** The history of a started cache: how often it was cancelled, the answers of the health probes,
      the informers started on it, the watches accepted for it, and the watchers told of its loss. */
  datatype CacheRecord = CacheRecord(fate: Fate, cancels: nat, probes: seq<bool>, starts: seq<Watcher>,
                                     accepted: seq<Watcher>, told: seq<Watcher>)

  /** Where the reconciler is. */
  datatype Phase =
    | Idle
    | Missing
    | Have(a: AccessorId)
    | Connecting(a: AccessorId)
    | Opening(a: AccessorId, cache: CacheId)
    | Checking(a: AccessorId)
    | Failing(a: AccessorId)
    | Registering(a: AccessorId)
    | Notifying(lost: CacheId, todo: seq<Watcher>)

  /** A watch call that holds a reference to an accessor, perhaps one that was deleted since. */
  datatype WatchCall = WatchCall(a: AccessorId, w: Watcher, tested: bool)

  datatype State = State(entry: Option<AccessorId>, accessors: seq<Accessor>, caches: seq<CacheRecord>,
                         phase: Phase, calls: map<nat, WatchCall>)

  /** How createConnection ends: before a cache is started, after a failed sync, after a failed
      discovery client, or well. */
  datatype Outcome = FailsEarly | SyncFails | DiscoveryFails | Opens

  datatype Step =
    | Delete
    | Look
    | Create(ready: bool)
    | TestConnected
    | Connect(outcome: Outcome)
    | SetState
    | CheckHealth(error: Option<string>)
    | Drop(order: seq<Watcher>)
    | Notify
    | Register(id: nat, w: Watcher)
    | Finish
    | BeginWatch(id: nat, w: Watcher)
    | TestWatch(id: nat)
    | RunWatch(id: nat, started: bool)

  const INITIAL := State(None, [], [], Idle, map[])

  /** References point to accessors and caches that exist. */
  ghost predicate WellFormed(s: State) {
    && (s.entry.Some? ==> s.entry.value < |s.accessors|)
    && (forall a :: 0 <= a < |s.accessors| && s.accessors[a].connection.Some? ==>
          s.accessors[a].connection.value.cache < |s.caches| && s.accessors[a].health.Some?)
    && (forall id :: id in s.calls ==> s.calls[id].a < |s.accessors|)
    && PhaseFormed(s)
  }

  predicate PhaseFormed(s: State) {
    match s.phase
    case Idle | Missing => true
    case Notifying(c, _) => c < |s.caches|
    case Opening(a, c) => a < |s.accessors| && c < |s.caches|
    case _ => s.phase.a < |s.accessors|
  }

  predicate Connected(s: State, a: AccessorId)
    requires a < |s.accessors|
  {
    s.accessors[a].connection.Some?
  }

  ghost predicate Enabled(s: State, step: Step)
    requires WellFormed(s)
  {
    match step
    case Delete | Look => s.phase.Idle?
    case Create(_) => s.phase.Missing?
    case TestConnected => s.phase.Have?
    case Connect(_) => s.phase.Connecting?
    case SetState => s.phase.Opening?
    case CheckHealth(_) => s.phase.Checking?
    case Drop(order) => s.phase.Failing? && Order(s, order)
    case Notify => s.phase.Notifying?
    case Register(id, _) => s.phase.Registering? && id !in s.calls
    case Finish => s.phase.Registering?
    case BeginWatch(id, _) => id !in s.calls
    case TestWatch(id) => id in s.calls && !s.calls[id].tested
    case RunWatch(id, _) => id in s.calls && s.calls[id].tested
  }

  /** The watches of the connection that goes away, in the order the disconnect returns them. */
  ghost predicate Order(s: State, order: seq<Watcher>)
    requires WellFormed(s)
  {
    if s.entry.Some? && Connected(s, s.entry.value)
    then Lists(s.accessors[s.entry.value].connection.value.watches, order)
    else order == []
  }

  /** The accessor leaves the map and its cache, if it has one, is cancelled. */
  ghost function WithoutAccessor(s: State, fate: Fate): State
    requires WellFormed(s)
  {
    if s.entry.None? then s
    else if !Connected(s, s.entry.value) then s.(entry := None)
    else
      var a := s.entry.value;
      var c := s.accessors[a].connection.value.cache;
      s.(entry := None, accessors := s.accessors[a := s.accessors[a].(connection := None)],
         caches := s.caches[c := s.caches[c].(fate := fate, cancels := s.caches[c].cancels + 1)])
  }

  function Started(fate: Fate): CacheRecord {
    CacheRecord(fate, if fate.SyncFailed? then 1 else 0, [], [], [], [])
  }

  ghost function AfterConnect(s: State, a: AccessorId, outcome: Outcome): State
    requires WellFormed(s) && a < |s.accessors|
  {
    if Connected(s, a) then s.(phase := Checking(a))
    else
      match outcome
      case FailsEarly => s.(phase := Idle)
      case SyncFails => s.(phase := Idle, caches := s.caches + [Started(SyncFailed)])
      case DiscoveryFails => s.(phase := Idle, caches := s.caches + [Started(DiscoveryFailed)])
      case Opens => s.(phase := Opening(a, |s.caches|), caches := s.caches + [Started(Opened)])
  }

  ghost function AfterSetStateStep(s: State, a: AccessorId, c: CacheId): State
    requires WellFormed(s) && a < |s.accessors| && c < |s.caches|
  {
    s.(phase := Checking(a), accessors := s.accessors[a := AfterSetState(c)],
       caches := s.caches[c := s.caches[c].(fate := Installed)])
  }

  ghost function AfterHealth(s: State, a: AccessorId, error: Option<string>): State
    requires WellFormed(s) && a < |s.accessors|
  {
    if !Connected(s, a) then s.(phase := Failing(a))
    else
      var h := s.accessors[a].health.value;
      var c := s.accessors[a].connection.value.cache;
      s.(phase := if CheckError(h).Some? then Failing(a) else Registering(a),
         accessors := s.accessors[a := s.accessors[a].(health := Some(AfterCheck(h, error)))],
         caches := s.caches[c := s.caches[c].(probes := Probed(h, s.caches[c].probes, error))])
  }

  ghost function AfterDrop(s: State, order: seq<Watcher>): State
    requires WellFormed(s)
  {
    if s.entry.Some? && Connected(s, s.entry.value)
    then WithoutAccessor(s, Dropped).(phase := Notifying(s.accessors[s.entry.value].connection.value.cache, order))
    else WithoutAccessor(s, Dropped).(phase := Idle)
  }

  ghost function AfterNotify(s: State, c: CacheId, todo: seq<Watcher>): State
    requires c < |s.caches|
  {
    if todo == [] then s.(phase := Idle)
    else s.(phase := Notifying(c, todo[1..]),
            caches := s.caches[c := s.caches[c].(told := s.caches[c].told + [todo[0]])])
  }

  ghost function AfterTestWatch(s: State, id: nat): State
    requires WellFormed(s) && id in s.calls
  {
    var call := s.calls[id];
    s.(calls := if call.w.name == "" || !Connected(s, call.a) then s.calls - {id}
                else s.calls[id := call.(tested := true)])
  }

  ghost function AfterRunWatch(s: State, id: nat, started: bool): State
    requires WellFormed(s) && id in s.calls
  {
    var call := s.calls[id];
    var acc := s.accessors[call.a];
    var left := s.(calls := s.calls - {id});
    if WatchResult(acc, call.w, started).Err? then left
    else
      var c := acc.connection.value.cache;
      left.(accessors := s.accessors[call.a := AfterWatch(acc, call.w, started)],
            caches := s.caches[c := Accepted(s.caches[c], call.w, StartsInformer(acc, call.w))])
  }

  function Accepted(r: CacheRecord, w: Watcher, starts: bool): CacheRecord {
    r.(accepted := r.accepted + [w], starts := if starts then r.starts + [w] else r.starts)
  }

  ghost function Apply(s: State, step: Step): State
    requires WellFormed(s) && Enabled(s, step)
  {
    match step
    case Delete => WithoutAccessor(s, Removed)
    case Look => s.(phase := if s.entry.Some? then Have(s.entry.value) else Missing)
    case Create(ready) =>
      if !ready then s.(phase := Idle)
      else s.(accessors := s.accessors + [NEW_ACCESSOR], entry := Some(|s.accessors|), phase := Have(|s.accessors|))
    case TestConnected => s.(phase := if Connected(s, s.phase.a) then Checking(s.phase.a) else Connecting(s.phase.a))
    case Connect(outcome) => AfterConnect(s, s.phase.a, outcome)
    case SetState => AfterSetStateStep(s, s.phase.a, s.phase.cache)
    case CheckHealth(error) => AfterHealth(s, s.phase.a, error)
    case Drop(order) => AfterDrop(s, order)
    case Notify => AfterNotify(s, s.phase.lost, s.phase.todo)
    case Register(id, w) => s.(calls := s.calls[id := WatchCall(s.phase.a, w, false)])
    case Finish => s.(phase := Idle)
    case BeginWatch(id, w) =>
      if s.entry.Some? then s.(calls := s.calls[id := WatchCall(s.entry.value, w, false)]) else s
    case TestWatch(id) => AfterTestWatch(s, id)
    case RunWatch(id, started) => AfterRunWatch(s, id, started)
  }

  // ---------------------------------------------------------------- the latest watcher of each name

  function Latest(accepted: seq<Watcher>): map<string, Watcher> {
    if accepted == [] then map[]
    else var last := accepted[|accepted| - 1]; Latest(accepted[..|accepted| - 1])[last.name := last]
  }

  /** `Latest` holds, per accepted name, the watcher accepted last under it. */
  lemma {:induction false} LatestIsLast(accepted: seq<Watcher>, n: string)
    ensures n in Latest(accepted) <==> exists i :: 0 <= i < |accepted| && accepted[i].name == n
    ensures n in Latest(accepted) ==>
              exists i :: 0 <= i < |accepted| && accepted[i] == Latest(accepted)[n] && accepted[i].name == n
                          && forall j :: i < j < |accepted| ==> accepted[j].name != n
  {
    if accepted != [] {
      var init := accepted[..|accepted| - 1];
      LatestIsLast(init, n);
      var last := |accepted| - 1;
      if accepted[last].name != n && n in Latest(init) {
        var i :| 0 <= i < |init| && init[i] == Latest(init)[n] && init[i].name == n
                 && forall j :: i < j < |init| ==> init[j].name != n;
        assert accepted[i] == init[i] && forall j :: i < j < |init| ==> accepted[j] == init[j];
      } else if accepted[last].name != n && n !in Latest(init) {
        forall i | 0 <= i < |accepted| ensures accepted[i].name != n {
          assert i < last ==> accepted[i] == init[i];
        }
      } else {
        assert accepted[last].name == n;
      }
    }
  }

  lemma LatestExtends(accepted: seq<Watcher>, w: Watcher)
    ensures Latest(accepted + [w]) == Latest(accepted)[w.name := w]
  {
    assert (accepted + [w])[..|accepted|] == accepted;
  }

  // ---------------------------------------------------------------- the invariant

  /** The reconciler works on the accessor that is in the map, and knows whether it is connected. */
  predicate PhaseOk(s: State)
    requires PhaseFormed(s)
  {
    match s.phase
    case Idle => true
    case Missing => s.entry.None?
    case Have(a) => s.entry == Some(a)
    case Connecting(a) => s.entry == Some(a) && !Connected(s, a)
    case Opening(a, c) => s.entry == Some(a) && !Connected(s, a) && s.caches[c].fate == Opened
    case Checking(a) => s.entry == Some(a) && Connected(s, a)
    case Registering(a) => s.entry == Some(a) && Connected(s, a)
    case Failing(a) =>
      s.entry == Some(a) && Connected(s, a) && s.accessors[a].health.Some? && Exhausted(s.accessors[a].health.value)
    case Notifying(c, _) => s.entry.None? && s.caches[c].fate == Dropped
  }

  /** Only the accessor in the map can be connected, and then to an installed cache. */
  ghost predicate HoldersOk(s: State)
    requires WellFormed(s)
  {
    forall a :: 0 <= a < |s.accessors| && Connected(s, a) ==>
      s.entry == Some(a) && s.caches[s.accessors[a].connection.value.cache].fate == Installed
  }

  /** A connection agrees with the watches accepted and the probes made on its cache. */
  ghost predicate AgreesWith(acc: Accessor, accepted: seq<Watcher>, probes: seq<bool>) {
    && acc.connection.Some? && acc.health.Some?
    && acc.connection.value.watches == Latest(accepted)
    && acc.health.value.maxRetries == DEFAULT_MAX_RETRIES
    && Tracks(acc.health.value, probes)
  }

  ghost predicate ConnectionOk(s: State)
    requires WellFormed(s)
  {
    s.entry.Some? && Connected(s, s.entry.value) ==>
      var acc := s.accessors[s.entry.value];
      var r := s.caches[acc.connection.value.cache];
      AgreesWith(acc, r.accepted, r.probes)
  }

  /** One informer per accepted name, started once. */
  ghost predicate OneInformerEach(accepted: seq<Watcher>, starts: seq<Watcher>) {
    && (forall i :: 0 <= i < |starts| ==> starts[i].name in Latest(accepted))
    && (forall n :: n in Latest(accepted) ==> exists i :: 0 <= i < |starts| && starts[i].name == n)
    && (forall i, j :: 0 <= i < j < |starts| ==> starts[i].name != starts[j].name)
    && FiledByName(Latest(accepted))
  }

  ghost predicate InformersOk(s: State) {
    forall c :: 0 <= c < |s.caches| ==> OneInformerEach(s.caches[c].accepted, s.caches[c].starts)
  }

  /** The connected accessor in the map uses cache `c`. */
  predicate Holds(s: State, c: CacheId)
    requires s.entry.Some? ==> s.entry.value < |s.accessors|
  {
    && s.entry.Some? && Connected(s, s.entry.value)
    && s.accessors[s.entry.value].connection.value.cache == c
  }

  predicate IsOpening(s: State, c: CacheId) {
    s.phase.Opening? && s.phase.cache == c
  }

  /** The watchers that are still to be told of the loss of cache `c`. */
  function ToTell(s: State, c: CacheId): seq<Watcher> {
    if s.phase.Notifying? && s.phase.lost == c then s.phase.todo else []
  }

  /** What the fate of a cache says about its cancellation, its owner and its watchers. */
  ghost predicate FateFits(r: CacheRecord, held: bool, opening: bool, toTell: seq<Watcher>) {
    && (r.fate.Installed? <==> held) && (r.fate.Opened? <==> opening)
    && match r.fate
       case Opened => r == Started(Opened)
       case Installed => r.cancels == 0 && r.told == []
       case SyncFailed => r == Started(SyncFailed)
       case DiscoveryFailed => r == Started(DiscoveryFailed)
       case Removed => r.cancels == 1 && r.told == []
       case Dropped =>
         && r.cancels == 1 && Lists(Latest(r.accepted), r.told + toTell)
         && TrailingFailures(r.probes) == DEFAULT_MAX_RETRIES + 1
  }

  ghost predicate FatesOk(s: State)
    requires WellFormed(s)
  {
    forall c :: 0 <= c < |s.caches| ==> FateFits(s.caches[c], Holds(s, c), IsOpening(s, c), ToTell(s, c))
  }

  ghost predicate Inv(s: State) {
    WellFormed(s) && PhaseOk(s) && HoldersOk(s) && ConnectionOk(s) && InformersOk(s) && FatesOk(s)
  }

  // ---------------------------------------------------------------- every step keeps it

  lemma LostCacheFits(acc: Accessor, r: CacheRecord, fate: Fate, order: seq<Watcher>)
    requires AgreesWith(acc, r.accepted, r.probes) && FateFits(r, true, false, []) && fate in {Removed, Dropped}
    requires fate.Dropped? ==> Exhausted(acc.health.value) && Lists(acc.connection.value.watches, order)
    ensures FateFits(r.(fate := fate, cancels := r.cancels + 1), false, false, if fate.Dropped? then order else [])
  {
    assert r.told + order == order;
  }

  lemma DropKeepsInv(s: State, order: seq<Watcher>)
    requires Inv(s) && s.phase.Failing? && Order(s, order)
    ensures Inv(AfterDrop(s, order))
  {
    hide AgreesWith, FateFits, OneInformerEach, Lists;
    var acc := s.accessors[s.phase.a];
    var c := acc.connection.value.cache;
    LostCacheFits(acc, s.caches[c], Dropped, order);
  }

  lemma DeleteKeepsInv(s: State)
    requires Inv(s) && s.phase.Idle?
    ensures Inv(WithoutAccessor(s, Removed))
  {
    hide AgreesWith, FateFits, OneInformerEach;
    if s.entry.Some? && Connected(s, s.entry.value) {
      var acc := s.accessors[s.entry.value];
      LostCacheFits(acc, s.caches[acc.connection.value.cache], Removed, []);
    }
  }

  lemma NewCacheFits(fate: Fate)
    requires fate in {Opened, SyncFailed, DiscoveryFailed}
    ensures FateFits(Started(fate), false, fate.Opened?, [])
    ensures OneInformerEach(Started(fate).accepted, Started(fate).starts)
  {
  }

  lemma ConnectKeepsInv(s: State, outcome: Outcome)
    requires Inv(s) && s.phase.Connecting?
    ensures Inv(AfterConnect(s, s.phase.a, outcome))
  {
    hide AgreesWith, FateFits, OneInformerEach;
    NewCacheFits(Opened);
    NewCacheFits(SyncFailed);
    NewCacheFits(DiscoveryFailed);
  }

  lemma InstalledFits(r: CacheRecord, c: CacheId)
    requires FateFits(r, false, true, [])
    ensures FateFits(r.(fate := Installed), true, false, [])
    ensures AgreesWith(AfterSetState(c), r.accepted, r.probes)
  {
  }

  lemma SetStateKeepsInv(s: State)
    requires Inv(s) && s.phase.Opening?
    ensures Inv(AfterSetStateStep(s, s.phase.a, s.phase.cache))
  {
    hide AgreesWith, FateFits, OneInformerEach;
    InstalledFits(s.caches[s.phase.cache], s.phase.cache);
  }

  lemma CheckAgrees(acc: Accessor, r: CacheRecord, error: Option<string>)
    requires AgreesWith(acc, r.accepted, r.probes) && FateFits(r, true, false, [])
    ensures var h := acc.health.value;
            && AgreesWith(acc.(health := Some(AfterCheck(h, error))), r.accepted, Probed(h, r.probes, error))
            && FateFits(r.(probes := Probed(h, r.probes, error)), true, false, [])
    ensures CheckError(acc.health.value).Some? <==> Exhausted(acc.health.value)
  {
    CheckTracks(acc.health.value, r.probes, error);
  }

  lemma HealthKeepsInv(s: State, error: Option<string>)
    requires Inv(s) && s.phase.Checking?
    ensures Inv(AfterHealth(s, s.phase.a, error))
  {
    hide AgreesWith, FateFits, OneInformerEach;
    var acc := s.accessors[s.phase.a];
    CheckAgrees(acc, s.caches[acc.connection.value.cache], error);
  }

  lemma ToldFits(r: CacheRecord, toTell: seq<Watcher>)
    requires FateFits(r, false, false, toTell) && r.fate.Dropped? && toTell != []
    ensures FateFits(r.(told := r.told + [toTell[0]]), false, false, toTell[1..])
  {
    assert r.told + toTell == (r.told + [toTell[0]]) + toTell[1..];
  }

  lemma NotifyKeepsInv(s: State)
    requires Inv(s) && s.phase.Notifying?
    ensures Inv(AfterNotify(s, s.phase.lost, s.phase.todo))
  {
    hide AgreesWith, FateFits, OneInformerEach;
    if s.phase.todo != [] {
      ToldFits(s.caches[s.phase.lost], s.phase.todo);
    }
  }

  lemma AcceptedInformers(accepted: seq<Watcher>, starts: seq<Watcher>, w: Watcher)
    requires OneInformerEach(accepted, starts)
    ensures w.name in Latest(accepted) ==> OneInformerEach(accepted + [w], starts)
    ensures w.name !in Latest(accepted) ==> OneInformerEach(accepted + [w], starts + [w])
  {
    hide Latest;
    LatestExtends(accepted, w);
    var more := starts + [w];
    forall n | n in Latest(accepted) ensures exists i :: 0 <= i < |more| && more[i].name == n {
      var i :| 0 <= i < |starts| && starts[i].name == n;
      assert more[i].name == n;
    }
    assert more[|starts|].name == w.name;
  }

  lemma WatchAgrees(acc: Accessor, r: CacheRecord, w: Watcher, started: bool)
    requires AgreesWith(acc, r.accepted, r.probes) && FateFits(r, true, false, [])
    requires OneInformerEach(r.accepted, r.starts) && WatchResult(acc, w, started).Ok?
    ensures var t := Accepted(r, w, StartsInformer(acc, w));
            && AgreesWith(AfterWatch(acc, w, started), t.accepted, t.probes)
            && FateFits(t, true, false, []) && OneInformerEach(t.accepted, t.starts)
  {
    LatestExtends(r.accepted, w);
    AcceptedInformers(r.accepted, r.starts, w);
  }

  lemma RunWatchKeepsInv(s: State, id: nat, started: bool)
    requires Inv(s) && id in s.calls
    ensures Inv(AfterRunWatch(s, id, started))
  {
    hide AgreesWith, FateFits, OneInformerEach, Lists, Accepted;
    var call := s.calls[id];
    var acc := s.accessors[call.a];
    if WatchResult(acc, call.w, started).Ok? {
      WatchAgrees(acc, s.caches[acc.connection.value.cache], call.w, started);
    }
  }

  /** Steps that only move the reconciler or a watch call. */
  lemma QuietStepKeepsInv(s: State, step: Step)
    requires Inv(s) && Enabled(s, step)
    requires step.Look? || step.Create? || step.TestConnected? || step.Register? || step.Finish? || step.BeginWatch?
             || step.TestWatch?
    ensures Inv(Apply(s, step))
  {
    hide AgreesWith, FateFits, OneInformerEach, Order;
  }

  lemma StepKeepsInv(s: State, step: Step)
    requires Inv(s) && Enabled(s, step)
    ensures Inv(Apply(s, step))
  {
    hide WellFormed, PhaseOk, HoldersOk, ConnectionOk, InformersOk, FatesOk;
    match step
    case Delete => DeleteKeepsInv(s);
    case Connect(outcome) => ConnectKeepsInv(s, outcome);
    case SetState => SetStateKeepsInv(s);
    case CheckHealth(error) => HealthKeepsInv(s, error);
    case Drop(order) => DropKeepsInv(s, order);
    case Notify => NotifyKeepsInv(s);
    case RunWatch(id, started) => RunWatchKeepsInv(s, id, started);
    case _ => QuietStepKeepsInv(s, step);
  }
}
