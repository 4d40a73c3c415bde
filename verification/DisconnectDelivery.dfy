/** All clusters and the disconnect registry together. The clusters share the map of accessors and
    the registry; telling a watcher of a lost connection is a call of the registry, and the notifier
    waits for one call to end before it tells the next watcher. */
module DisconnectDelivery {
  import opened Common
  import A = Accessors
  import C = ClusterCaches
  import Runs = ClusterCacheRuns
  import R = DisconnectRegistry
  import Q = RequestSources

  /** The DisconnectHandler of a watcher: the controller that runs it, and the requests it returns
      for a cluster. */
  datatype Handler = Handler(watcher: R.Watcher, requestType: R.RequestType, requests: string -> seq<R.Request>)

  /** The handler behind each handler number; None if the watcher came without one. */
  type Handlers = nat -> Option<Handler>

  /** Which watcher of which lost connection a call of the registry is for. */
  datatype Asked = Asked(cluster: string, cache: A.CacheId, w: A.Watcher)

  /** `accessors` is the one map of RemoteCache, `clusters` the rest of each cluster's state, and
      `asked` says what each call of the registry is for. */
  datatype System = System(accessors: map<string, C.AccessorId>, clusters: map<string, C.State>, registry: R.State,
                           asked: seq<Asked>)

  datatype Step =
    | Reconcile(c: string, step: C.Step)
    | Tell(c: string)
    | Serve(call: R.Step)

  // ---------------------------------------------------------------- steps

  /** The state of one cluster, with its entry of the shared map. */
  function View(s: System, c: string): C.State
    requires c in s.clusters
  {
    s.clusters[c].(entry := if c in s.accessors then Some(s.accessors[c]) else None)
  }

  function Put(s: System, c: string, t: C.State): System {
    s.(clusters := s.clusters[c := t],
       accessors := if t.entry.Some? then s.accessors[c := t.entry.value] else s.accessors - {c})
  }

  predicate Finished(call: R.Call) {
    call.pc.Enqueued? || (call.pc.Returned? && call.pc.result.Err?)
  }

  /** The notifier of the cluster is not inside a call. */
  predicate AllFinished(s: System, c: string) {
    forall i :: 0 <= i < |s.asked| && i < |s.registry.calls| && s.asked[i].cluster == c ==>
      Finished(s.registry.calls[i])
  }

  /** A step of one cluster; telling watchers is left to `Tell`. */
  ghost predicate CanReconcile(s: System, c: string, step: C.Step) {
    && c in s.clusters && C.WellFormed(View(s, c)) && C.Enabled(View(s, c), step)
    && (step.Notify? ==> View(s, c).phase.todo == [] && AllFinished(s, c))
  }

  ghost predicate CanTell(s: System, c: string) {
    && c in s.clusters && C.WellFormed(View(s, c)) && View(s, c).phase.Notifying?
    && View(s, c).phase.todo != [] && AllFinished(s, c)
  }

  ghost predicate Enabled(s: System, step: Step) {
    match step
    case Reconcile(c, st) => CanReconcile(s, c, st)
    case Tell(c) => CanTell(s, c)
    case Serve(call) => !call.Invoke? && R.Enabled(s.registry, call)
  }

  function Invocation(h: Handler, c: string): R.Step {
    R.Invoke(h.watcher, h.requestType, h.requests(c))
  }

  ghost function AfterTell(handlers: Handlers, s: System, c: string): System
    requires CanTell(s, c)
  {
    var now := View(s, c);
    var w := now.phase.todo[0];
    var t := Put(s, c, C.Apply(now, C.Notify));
    match handlers(w.handler)
    case None => t
    case Some(h) =>
      t.(registry := R.Apply(s.registry, Invocation(h, c)), asked := s.asked + [Asked(c, now.phase.lost, w)])
  }

  ghost function Apply(handlers: Handlers, s: System, step: Step): System
    requires Enabled(s, step)
  {
    match step
    case Reconcile(c, st) => Put(s, c, C.Apply(View(s, c), st))
    case Tell(c) => AfterTell(handlers, s, c)
    case Serve(call) => s.(registry := R.Apply(s.registry, call))
  }

  ghost predicate Initial(s: System) {
    s.accessors == map[] && s.registry == R.INITIAL && s.asked == []
    && forall c :: c in s.clusters ==> s.clusters[c] == C.INITIAL
  }

  ghost predicate Behavior(handlers: Handlers, states: seq<System>, steps: seq<Step>) {
    && |states| == |steps| + 1 && Initial(states[0])
    && forall n :: 0 <= n < |steps| ==>
         Enabled(states[n], steps[n]) && states[n + 1] == Apply(handlers, states[n], steps[n])
  }

  // ---------------------------------------------------------------- each part behaves as it does alone

  lemma PutViews(s: System, c: string, t: C.State)
    ensures View(Put(s, c, t), c) == t
    ensures forall d :: d in s.clusters && d != c ==> View(Put(s, c, t), d) == View(s, d)
  {
  }

  lemma TellViews(handlers: Handlers, s: System, d: string)
    requires CanTell(s, d)
    ensures C.Enabled(View(s, d), C.Notify)
    ensures View(AfterTell(handlers, s, d), d) == C.Apply(View(s, d), C.Notify)
    ensures forall c :: c in s.clusters && c != d ==> View(AfterTell(handlers, s, d), c) == View(s, c)
  {
    PutViews(s, d, C.Apply(View(s, d), C.Notify));
  }

  /** What a step of the system is for one cluster: a step of its own, or nothing. */
  lemma ClusterStep(handlers: Handlers, s: System, step: Step, c: string) returns (own: Option<C.Step>)
    requires Enabled(s, step) && c in s.clusters
    ensures c in Apply(handlers, s, step).clusters
    ensures own.None? ==> View(Apply(handlers, s, step), c) == View(s, c)
    ensures own.Some? ==>
              && C.WellFormed(View(s, c)) && C.Enabled(View(s, c), own.value)
              && View(Apply(handlers, s, step), c) == C.Apply(View(s, c), own.value)
  {
    hide C.Apply, R.Apply, C.Enabled, R.Enabled, C.WellFormed;
    own := None;
    match step
    case Reconcile(d, st) =>
      PutViews(s, d, C.Apply(View(s, d), st));
      own := if d == c then Some(st) else None;
    case Tell(d) =>
      TellViews(handlers, s, d);
      own := if d == c then Some(C.Notify) else None;
    case Serve(_) =>
  }

  /** Whatever the other clusters do to the shared map, one cluster sees a run of its own. */
  lemma {:induction false} EachClusterBehaves(handlers: Handlers, states: seq<System>, steps: seq<Step>, n: nat,
                                              c: string)
    returns (own: seq<C.State>, ownSteps: seq<C.Step>)
    requires Behavior(handlers, states, steps) && n < |states| && c in states[0].clusters
    ensures c in states[n].clusters
    ensures Runs.Behavior(own, ownSteps) && own[|ownSteps|] == View(states[n], c)
  {
    hide C.Apply, C.Enabled, C.WellFormed, Apply, Enabled;
    if n == 0 {
      own, ownSteps := [View(states[0], c)], [];
    } else {
      own, ownSteps := EachClusterBehaves(handlers, states, steps, n - 1, c);
      var step := ClusterStep(handlers, states[n - 1], steps[n - 1], c);
      if step.Some? {
        own, ownSteps := own + [View(states[n], c)], ownSteps + [step.value];
      }
    }
  }

  /** The registry sees a run of its own, in which every call comes from a watcher being told. */
  lemma {:induction false} RegistryBehaves(handlers: Handlers, states: seq<System>, steps: seq<Step>, n: nat)
    returns (own: seq<R.State>, ownSteps: seq<R.Step>)
    requires Behavior(handlers, states, steps) && n < |states|
    ensures R.Behavior(own, ownSteps) && own[|ownSteps|] == states[n].registry
  {
    hide C.Apply, R.Apply, C.Enabled, C.WellFormed;
    if n == 0 {
      own, ownSteps := [states[0].registry], [];
    } else {
      own, ownSteps := RegistryBehaves(handlers, states, steps, n - 1);
      var s, step := states[n - 1], steps[n - 1];
      match step
      case Reconcile(_, _) =>
      case Tell(c) =>
        var h := handlers(View(s, c).phase.todo[0].handler);
        if h.Some? {
          own, ownSteps := own + [states[n].registry], ownSteps + [Invocation(h.value, c)];
        }
      case Serve(call) => own, ownSteps := own + [states[n].registry], ownSteps + [call];
    }
  }

  // ---------------------------------------------------------------- calls and watchers correspond

  /** The watchers of one lost connection that the registry was called for, in order. */
  function AskedFor(asked: seq<Asked>, c: string, k: A.CacheId): seq<A.Watcher> {
    if asked == [] then []
    else
      var last := asked[|asked| - 1];
      AskedFor(asked[..|asked| - 1], c, k) + if last.cluster == c && last.cache == k then [last.w] else []
  }

  /** The watchers that have a handler, in order. */
  function Handled(handlers: Handlers, told: seq<A.Watcher>): seq<A.Watcher> {
    if told == [] then []
    else
      var last := told[|told| - 1];
      Handled(handlers, told[..|told| - 1]) + if handlers(last.handler).Some? then [last] else []
  }

  /** A call carries what its watcher's handler gives. */
  ghost predicate CallOk(handlers: Handlers, s: System, i: nat)
    requires i < |s.asked| == |s.registry.calls|
  {
    var asked, call := s.asked[i], s.registry.calls[i];
    && asked.cluster in s.clusters && asked.cache < |s.clusters[asked.cluster].caches|
    && handlers(asked.w.handler).Some?
    && var h := handlers(asked.w.handler).value;
       call.watcher == h.watcher && call.requestType == h.requestType && call.requests == h.requests(asked.cluster)
  }

  /** A call that has not ended is the one its cluster's notifier is in. */
  ghost predicate InCall(s: System, i: nat)
    requires i < |s.asked| == |s.registry.calls|
  {
    !Finished(s.registry.calls[i]) ==>
      s.asked[i].cluster in s.clusters &&
      var phase := s.clusters[s.asked[i].cluster].phase; phase.Notifying? && phase.lost == s.asked[i].cache
  }

  ghost predicate CallsOk(handlers: Handlers, s: System) {
    && |s.asked| == |s.registry.calls|
    && forall i :: 0 <= i < |s.asked| ==> CallOk(handlers, s, i) && InCall(s, i)
  }

  ghost predicate ToldOk(handlers: Handlers, s: System) {
    forall c, k :: c in s.clusters && 0 <= k < |s.clusters[c].caches| ==>
      AskedFor(s.asked, c, k) == Handled(handlers, s.clusters[c].caches[k].told)
  }

  ghost predicate Linked(handlers: Handlers, s: System) {
    CallsOk(handlers, s) && ToldOk(handlers, s)
  }

  /** Steps of the registry move calls, end them at most once, and change nothing else about them. */
  lemma ServeKeepsCalls(s: R.State, step: R.Step)
    requires R.Enabled(s, step) && !step.Invoke?
    ensures |R.Apply(s, step).calls| == |s.calls|
    ensures forall i :: 0 <= i < |s.calls| ==>
              R.Apply(s, step).calls[i].(pc := s.calls[i].pc) == s.calls[i]
              && (Finished(s.calls[i]) ==> Finished(R.Apply(s, step).calls[i]))
  {
  }

  lemma ServeKeepsLinked(handlers: Handlers, s: System, call: R.Step)
    requires Linked(handlers, s) && Enabled(s, Serve(call))
    ensures Linked(handlers, Apply(handlers, s, Serve(call)))
  {
    hide R.Apply, R.Enabled;
    ServeKeepsCalls(s.registry, call);
    var t := Apply(handlers, s, Serve(call));
    forall i | 0 <= i < |t.asked| ensures CallOk(handlers, t, i) && InCall(t, i) {
      assert CallOk(handlers, s, i) && InCall(s, i);
    }
  }

  /** A step of a cluster other than telling tells nobody, and starts caches nobody was told of. */
  lemma StepTellsNobody(s: C.State, step: C.Step)
    requires C.WellFormed(s) && C.Enabled(s, step) && (step.Notify? ==> s.phase.todo == [])
    ensures var t := C.Apply(s, step);
            && |s.caches| <= |t.caches|
            && (forall k :: 0 <= k < |s.caches| ==> t.caches[k].told == s.caches[k].told)
            && (forall k :: |s.caches| <= k < |t.caches| ==> t.caches[k].told == [])
            && (s.phase.Notifying? && !step.Notify? ==> t.phase == s.phase)
  {
    hide A.Lists;
  }

  lemma {:induction false} NotAskedYet(asked: seq<Asked>, c: string, k: A.CacheId)
    requires forall i :: 0 <= i < |asked| ==> !(asked[i].cluster == c && asked[i].cache == k)
    ensures AskedFor(asked, c, k) == []
  {
    if asked != [] {
      NotAskedYet(asked[..|asked| - 1], c, k);
    }
  }

  lemma ReconcileKeepsLinked(handlers: Handlers, s: System, c: string, step: C.Step)
    requires Linked(handlers, s) && CanReconcile(s, c, step)
    ensures Linked(handlers, Put(s, c, C.Apply(View(s, c), step)))
  {
    hide C.Apply, C.Enabled, C.WellFormed;
    StepTellsNobody(View(s, c), step);
    var t := Put(s, c, C.Apply(View(s, c), step));
    forall i | 0 <= i < |t.asked| ensures CallOk(handlers, t, i) && InCall(t, i) {
      assert CallOk(handlers, s, i) && InCall(s, i);
    }
    forall d, k | d in t.clusters && 0 <= k < |t.clusters[d].caches|
      ensures AskedFor(t.asked, d, k) == Handled(handlers, t.clusters[d].caches[k].told)
    {
      if k >= |s.clusters[d].caches| {
        forall i | 0 <= i < |s.asked| ensures !(s.asked[i].cluster == d && s.asked[i].cache == k) {
          assert CallOk(handlers, s, i);
        }
        NotAskedYet(s.asked, d, k);
      }
    }
  }

  lemma AskedOneMore(asked: seq<Asked>, more: Asked, c: string, k: A.CacheId)
    ensures AskedFor(asked + [more], c, k) ==
            AskedFor(asked, c, k) + if more.cluster == c && more.cache == k then [more.w] else []
  {
    assert (asked + [more])[..|asked|] == asked;
  }

  lemma HandledOneMore(handlers: Handlers, told: seq<A.Watcher>, w: A.Watcher)
    ensures Handled(handlers, told + [w]) == Handled(handlers, told) + if handlers(w.handler).Some? then [w] else []
  {
    assert (told + [w])[..|told|] == told;
  }

  /** Telling moves one watcher from those to tell to those told. */
  lemma NotifyTells(s: C.State)
    requires C.WellFormed(s) && s.phase.Notifying? && s.phase.todo != []
    ensures C.Enabled(s, C.Notify) && s.phase.lost < |s.caches|
    ensures var t := C.Apply(s, C.Notify);
            && t.phase == C.Notifying(s.phase.lost, s.phase.todo[1..]) && |t.caches| == |s.caches|
            && forall k :: 0 <= k < |s.caches| ==>
                 t.caches[k].told == s.caches[k].told + if k == s.phase.lost then [s.phase.todo[0]] else []
  {
  }

  lemma TellKeepsCalls(handlers: Handlers, s: System, c: string)
    requires Linked(handlers, s) && CanTell(s, c)
    ensures CallsOk(handlers, AfterTell(handlers, s, c))
  {
    hide C.Apply, C.Enabled, C.WellFormed, AskedFor, Handled;
    NotifyTells(View(s, c));
    var t := AfterTell(handlers, s, c);
    forall i | 0 <= i < |t.asked| ensures CallOk(handlers, t, i) && InCall(t, i) {
      if i < |s.asked| {
        assert CallOk(handlers, s, i) && InCall(s, i);
      }
    }
  }

  lemma TellKeepsTold(handlers: Handlers, s: System, c: string)
    requires Linked(handlers, s) && CanTell(s, c)
    ensures ToldOk(handlers, AfterTell(handlers, s, c))
  {
    hide C.Apply, C.Enabled, C.WellFormed, AskedFor, Handled, R.Apply, CallsOk;
    var now := View(s, c);
    NotifyTells(now);
    var t := AfterTell(handlers, s, c);
    var w := now.phase.todo[0];
    forall d, k | d in t.clusters && 0 <= k < |t.clusters[d].caches|
      ensures AskedFor(t.asked, d, k) == Handled(handlers, t.clusters[d].caches[k].told)
    {
      var told := s.clusters[d].caches[k].told;
      assert AskedFor(s.asked, d, k) == Handled(handlers, told);
      AskedOneMore(s.asked, Asked(c, now.phase.lost, w), d, k);
      HandledOneMore(handlers, told, w);
      assert told + [] == told && Handled(handlers, told) + [] == Handled(handlers, told);
    }
  }

  lemma StepKeepsLinked(handlers: Handlers, s: System, step: Step)
    requires Linked(handlers, s) && Enabled(s, step)
    ensures Linked(handlers, Apply(handlers, s, step))
  {
    hide CallsOk, ToldOk, CanReconcile, CanTell;
    match step
    case Reconcile(c, st) => ReconcileKeepsLinked(handlers, s, c, st);
    case Tell(c) =>
      TellKeepsCalls(handlers, s, c);
      TellKeepsTold(handlers, s, c);
    case Serve(call) => ServeKeepsLinked(handlers, s, call);
  }

  /** In every state of every run, the calls of the registry for a lost connection are those of its
      watchers told so far that have a handler, in order. */
  lemma {:induction false} LinkedAlways(handlers: Handlers, states: seq<System>, steps: seq<Step>, n: nat)
    requires Behavior(handlers, states, steps) && n < |states|
    ensures Linked(handlers, states[n])
  {
    hide Apply, Enabled;
    if n > 0 {
      LinkedAlways(handlers, states, steps, n - 1);
      StepKeepsLinked(handlers, states[n - 1], steps[n - 1]);
    }
  }

  // ---------------------------------------------------------------- finding the call of a watcher

  lemma {:induction false} CallOfAsked(asked: seq<Asked>, c: string, k: A.CacheId, w: A.Watcher) returns (i: nat)
    requires w in AskedFor(asked, c, k)
    ensures i < |asked| && asked[i] == Asked(c, k, w)
  {
    var n := |asked| - 1;
    if asked[n] == Asked(c, k, w) {
      i := n;
    } else {
      i := CallOfAsked(asked[..n], c, k, w);
    }
  }

  lemma {:induction false} AskedIsListed(asked: seq<Asked>, i: nat)
    requires i < |asked|
    ensures asked[i].w in AskedFor(asked, asked[i].cluster, asked[i].cache)
  {
    var n := |asked| - 1;
    if i < n {
      AskedIsListed(asked[..n], i);
    }
  }

  ghost predicate DistinctNames(ws: seq<A.Watcher>) {
    forall i, j :: 0 <= i < j < |ws| ==> ws[i].name != ws[j].name
  }

  /** If the watchers asked for have different names, no two calls are for the same one. */
  lemma {:induction false} AskedOnce(asked: seq<Asked>, c: string, k: A.CacheId, i: nat, j: nat)
    requires DistinctNames(AskedFor(asked, c, k)) && i < j < |asked|
    requires asked[i].cluster == asked[j].cluster == c && asked[i].cache == asked[j].cache == k
    ensures asked[i].w.name != asked[j].w.name
  {
    var n := |asked| - 1;
    var before, all := AskedFor(asked[..n], c, k), AskedFor(asked, c, k);
    assert forall x :: 0 <= x < |before| ==> all[x] == before[x];
    if j < n {
      AskedOnce(asked[..n], c, k, i, j);
    } else {
      AskedIsListed(asked[..n], i);
      var x :| 0 <= x < |before| && before[x] == asked[i].w;
      assert all[x].name != all[|before|].name;
    }
  }

  lemma {:induction false} HandledOnes(handlers: Handlers, told: seq<A.Watcher>)
    ensures forall w :: w in Handled(handlers, told) <==> w in told && handlers(w.handler).Some?
    ensures DistinctNames(told) ==> DistinctNames(Handled(handlers, told))
  {
    if told != [] {
      var n := |told| - 1;
      HandledOnes(handlers, told[..n]);
      assert told == told[..n] + [told[n]];
      if DistinctNames(told) {
        assert DistinctNames(told[..n]);
        forall w | w in told[..n] ensures w.name != told[n].name {
          var x :| 0 <= x < n && told[x] == w;
        }
      }
    }
  }

  // ---------------------------------------------------------------- from the drop to the controller

  /** Two calls for the same name on the same connection. */
  predicate SameWatch(a: Asked, b: Asked) {
    a.cluster == b.cluster && a.cache == b.cache && a.w.name == b.w.name
  }

  lemma ToldAreLatest(s: C.State, k: A.CacheId)
    requires C.Inv(s) && k < |s.caches|
    ensures s.caches[k].told != [] ==> s.caches[k].fate.Dropped?
    ensures s.caches[k].fate.Dropped? ==> A.Lists(C.Latest(s.caches[k].accepted), s.caches[k].told + C.ToTell(s, k))
  {
    assert C.FateFits(s.caches[k], C.Holds(s, k), C.IsOpening(s, k), C.ToTell(s, k));
  }

  lemma DistinctPrefix(watches: map<string, A.Watcher>, told: seq<A.Watcher>, rest: seq<A.Watcher>)
    requires A.Lists(watches, told + rest)
    ensures DistinctNames(told)
  {
    forall i, j | 0 <= i < j < |told| ensures told[i].name != told[j].name {
      assert (told + rest)[i] == told[i] && (told + rest)[j] == told[j];
    }
  }

  /** Every call of the registry is for the latest watcher of a name on a dropped connection, and the
      only one for that name and connection. */
  lemma CallsComeFromDrops(handlers: Handlers, states: seq<System>, steps: seq<Step>, n: nat, i: nat)
    requires Behavior(handlers, states, steps) && n < |states| && i < |states[n].registry.calls|
    ensures CallsOk(handlers, states[n]) && CallOk(handlers, states[n], i)
    ensures var asked := states[n].asked[i];
            var r := states[n].clusters[asked.cluster].caches[asked.cache];
            && r.fate.Dropped? && Runs.IsLatest(r.accepted, asked.w)
            && forall j :: 0 <= j < |states[n].asked| && SameWatch(states[n].asked[j], asked) ==> j == i
  {
    hide Apply, Enabled, C.Inv, C.FateFits, A.Lists, R.Apply;
    LinkedAlways(handlers, states, steps, n);
    var s := states[n];
    assert CallOk(handlers, s, i);
    var c, k, w := s.asked[i].cluster, s.asked[i].cache, s.asked[i].w;
    ClusterInv(handlers, states, steps, n, c);
    var view := View(s, c);
    var r := view.caches[k];
    AskedIsListed(s.asked, i);
    HandledOnes(handlers, r.told);
    assert w in r.told;
    ToldAreLatest(view, k);
    var names := C.Latest(r.accepted);
    DistinctPrefix(names, r.told, C.ToTell(view, k));
    Runs.ListsLatest(r.accepted, r.told + C.ToTell(view, k));
    var x :| 0 <= x < |r.told| && r.told[x] == w;
    assert (r.told + C.ToTell(view, k))[x] == w;
    forall j | 0 <= j < |s.asked| && SameWatch(s.asked[j], s.asked[i]) ensures j == i {
      if j < i {
        AskedOnce(s.asked, c, k, j, i);
      } else if i < j {
        AskedOnce(s.asked, c, k, i, j);
      }
    }
  }

  lemma {:induction false} ClustersStay(handlers: Handlers, states: seq<System>, steps: seq<Step>, n: nat)
    requires Behavior(handlers, states, steps) && n < |states|
    ensures states[n].clusters.Keys == states[0].clusters.Keys
  {
    hide C.Apply, R.Apply, C.Enabled, R.Enabled, C.WellFormed, Initial;
    if n > 0 {
      ClustersStay(handlers, states, steps, n - 1);
    }
  }

  lemma ClusterInv(handlers: Handlers, states: seq<System>, steps: seq<Step>, n: nat, c: string)
    requires Behavior(handlers, states, steps) && n < |states| && c in states[n].clusters
    ensures C.Inv(View(states[n], c))
  {
    hide Apply, Enabled, C.Inv, Initial, C.Apply, C.Enabled;
    ClustersStay(handlers, states, steps, n);
    var own, ownSteps := EachClusterBehaves(handlers, states, steps, n, c);
    Runs.InvAlways(own, ownSteps, |ownSteps|);
  }

  /** The requests of call `i` are with the source of its controller, among all that was enqueued
      for that controller and nothing else. */
  ghost predicate Delivered(s: R.State, i: nat)
    requires i < |s.calls|
  {
    && s.calls[i].pc.Enqueued? && s.calls[i].watcher.Comparable? && s.calls[i].pc.src < |s.srcs|
    && var taken := Q.Taken(s.srcs[s.calls[i].pc.src]);
       && taken == R.AddedFor(s.calls, s.enqueued, s.calls[i].watcher.controller)
       && exists a, b :: taken == a + s.calls[i].requests + b
  }

  /** Call `i` failed: its watcher cannot be a key, or the registration it went by failed, or was
      made for another type of request. */
  ghost predicate Refused(s: R.State, i: nat)
    requires i < |s.calls|
  {
    && s.calls[i].pc.Returned? && s.calls[i].pc.result.Err?
    && (s.calls[i].watcher.Comparable? ==>
          exists x :: 0 <= x < |s.setups| && s.calls[i].watcher == R.Comparable(s.setups[x].controller)
                      && R.Done(s.setups[x])
                      && s.calls[i].pc.result == R.WaitResult(s.setups[x], s.calls[i].requestType))
  }

  lemma {:induction false} EnqueuedIsAdded(calls: seq<R.Call>, enqueued: seq<R.CallId>, i: nat)
    returns (a: seq<R.Request>, b: seq<R.Request>)
    requires i < |calls| && i in enqueued && calls[i].watcher.Comparable?
    ensures R.AddedFor(calls, enqueued, calls[i].watcher.controller) == a + calls[i].requests + b
  {
    var n := |enqueued| - 1;
    if enqueued[n] == i {
      a, b := R.AddedFor(calls, enqueued[..n], calls[i].watcher.controller), [];
    } else {
      var more;
      a, more := EnqueuedIsAdded(calls, enqueued[..n], i);
      var last := if enqueued[n] < |calls| && calls[enqueued[n]].watcher == calls[i].watcher
                  then calls[enqueued[n]].requests else [];
      b := more + last;
      assert a + calls[i].requests + more + last == a + calls[i].requests + b;
    }
  }

  /** A call that has ended was delivered or refused. */
  lemma FinishedIsSettled(states: seq<R.State>, steps: seq<R.Step>, n: nat, i: nat)
    requires R.Behavior(states, steps) && n < |states| && i < |states[n].calls| && Finished(states[n].calls[i])
    ensures Delivered(states[n], i) || Refused(states[n], i)
  {
    hide R.Apply, R.Enabled, R.SetupsOk, R.OwnersOk;
    var s := states[n];
    R.InvAlways(states, steps, n);
    assert R.OutcomeOk(s, s.calls[i]);
    if s.calls[i].pc.Enqueued? {
      var x := R.ReturnedSource(states, steps, n, i);
      R.DisconnectsAreDelivered(states, steps, n, x);
      assert i in s.enqueued;
      var a, b := EnqueuedIsAdded(s.calls, s.enqueued, i);
    }
  }

  /** Once a drop is through, every name watched on that connection whose latest watcher has a
      handler led to exactly one call of the registry, with the requests of that handler for this
      cluster, and the call delivered them to the controller's source or failed with the error of
      the registration. */
  lemma DropReachesControllers(handlers: Handlers, states: seq<System>, steps: seq<Step>, n: nat, c: string,
                               k: A.CacheId, x: nat) returns (i: nat)
    requires Behavior(handlers, states, steps) && n < |states| && c in states[n].clusters
    requires k < |states[n].clusters[c].caches| && states[n].clusters[c].caches[k].fate.Dropped?
    requires states[n].clusters[c].phase.Notifying? ==> states[n].clusters[c].phase.lost != k
    requires Runs.LastOfName(states[n].clusters[c].caches[k].accepted, x)
    requires handlers(states[n].clusters[c].caches[k].accepted[x].handler).Some?
    ensures var s := states[n];
            var w := s.clusters[c].caches[k].accepted[x];
            && i < |s.asked| == |s.registry.calls| && s.asked[i] == Asked(c, k, w) && CallOk(handlers, s, i)
            && (forall j :: 0 <= j < |s.asked| && SameWatch(s.asked[j], s.asked[i]) ==> j == i)
            && (Delivered(s.registry, i) || Refused(s.registry, i))
  {
    hide Apply, Enabled, C.Inv, C.FateFits, A.Lists, Delivered, Refused, R.Apply, R.Enabled;
    LinkedAlways(handlers, states, steps, n);
    var s := states[n];
    var r := s.clusters[c].caches[k];
    ClusterInv(handlers, states, steps, n, c);
    ToldAreLatest(View(s, c), k);
    assert r.told + [] == r.told;
    Runs.ListsLatest(r.accepted, r.told);
    HandledOnes(handlers, r.told);
    assert r.accepted[x] in r.told;
    i := CallOfAsked(s.asked, c, k, r.accepted[x]);
    assert CallOk(handlers, s, i) && InCall(s, i);
    CallsComeFromDrops(handlers, states, steps, n, i);
    var own, ownSteps := RegistryBehaves(handlers, states, steps, n);
    FinishedIsSettled(own, ownSteps, |ownSteps|, i);
  }
}
