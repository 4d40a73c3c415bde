/** When a connection is dropped, and that it is: what each reconcile decides in every run, and how a
    run goes on once all probes fail. */
module ClusterDrops {
  import opened Common
  import opened HealthChecks
  import opened Accessors
  import opened ClusterCaches
  import opened ClusterCacheRuns

  // ---------------------------------------------------------------- what a check decides

  /** The last `maxRetries + 1` probes failed. */
  ghost predicate LastFailed(probes: seq<bool>) {
    && |probes| > DEFAULT_MAX_RETRIES
    && forall i :: |probes| - DEFAULT_MAX_RETRIES - 1 <= i < |probes| ==> !probes[i]
  }

  /** The cache of the accessor in the map. */
  function Held(s: State): CacheId
    requires s.entry.Some? && s.entry.value < |s.accessors| && Connected(s, s.entry.value)
  {
    s.accessors[s.entry.value].connection.value.cache
  }

  ghost predicate HasConnection(s: State) {
    s.entry.Some? && s.entry.value < |s.accessors| && Connected(s, s.entry.value) && Held(s) < |s.caches|
  }

  ghost predicate IsHeld(s: State, c: CacheId) {
    HasConnection(s) && Held(s) == c
  }

  lemma ExhaustedIffLastFailed(h: Health, probes: seq<bool>)
    requires Tracks(h, probes) && h.maxRetries == DEFAULT_MAX_RETRIES
    ensures Exhausted(h) <==> LastFailed(probes)
    ensures CheckError(h).Some? <==> LastFailed(probes)
  {
  }

  /** A check leads on to the drop exactly if the last `maxRetries + 1` probes of this connection
      failed, and then probes no more; otherwise it probes once and goes on to the watches. */
  lemma CheckDecides(states: seq<State>, steps: seq<Step>, n: nat)
    requires Behavior(states, steps) && n < |steps| && steps[n].CheckHealth?
    ensures var s, t := states[n], states[n + 1];
            && HasConnection(s) && s.entry == Some(s.phase.a)
            && IsHeld(t, Held(s)) && t.entry == s.entry
            && var probes := s.caches[Held(s)].probes;
               if LastFailed(probes)
               then t.phase == Failing(s.phase.a) && t.caches[Held(s)].probes == probes
               else t.phase == Registering(s.phase.a) && t.caches[Held(s)].probes == probes + [steps[n].error.None?]
  {
    hide Tracks, FateFits, OneInformerEach, LastFailed;
    InvAlways(states, steps, n);
    var s := states[n];
    var c := s.accessors[s.phase.a].connection.value.cache;
    ExhaustedIffLastFailed(s.accessors[s.phase.a].health.value, s.caches[c].probes);
  }

  /** A step of the reconciler, rather than of a watch call. */
  predicate ByReconciler(step: Step) {
    !step.BeginWatch? && !step.TestWatch? && !step.RunWatch?
  }

  lemma WatchCallsKeepPhase(s: State, step: Step, c: CacheId)
    requires Inv(s) && Enabled(s, step) && !ByReconciler(step) && IsHeld(s, c)
    ensures Apply(s, step).phase == s.phase && Apply(s, step).entry == s.entry && IsHeld(Apply(s, step), c)
  {
    hide AgreesWith, FateFits, OneInformerEach;
  }

  lemma {:induction false} FailingStays(states: seq<State>, steps: seq<Step>, n: nat, m: nat)
    requires Behavior(states, steps) && n < m < |states| && steps[n].CheckHealth?
    requires forall k :: n < k < m ==> !ByReconciler(steps[k])
    ensures HasConnection(states[n])
    ensures LastFailed(states[n].caches[Held(states[n])].probes) ==>
              states[m].phase == Failing(states[n].phase.a) && IsHeld(states[m], Held(states[n]))
  {
    hide LastFailed, Apply;
    CheckDecides(states, steps, n);
    if m > n + 1 && LastFailed(states[n].caches[Held(states[n])].probes) {
      FailingStays(states, steps, n, m - 1);
      InvAlways(states, steps, m - 1);
      WatchCallsKeepPhase(states[m - 1], steps[m - 1], Held(states[n]));
    }
  }

  lemma DropDrops(s: State, step: Step, c: CacheId)
    requires Inv(s) && Enabled(s, step) && ByReconciler(step) && s.phase.Failing? && IsHeld(s, c)
    ensures step.Drop?
    ensures var t := Apply(s, step);
            && t.entry.None? && c < |t.caches| && t.caches[c].fate.Dropped? && t.caches[c].cancels == 1
            && t.phase == Notifying(c, step.order) && t.caches[c].told == []
  {
    hide AgreesWith, OneInformerEach;
    assert FateFits(s.caches[c], Holds(s, c), IsOpening(s, c), ToTell(s, c));
  }

  /** After a check that finds the last `maxRetries + 1` probes failed, whatever watch calls do in
      between, the next step of the reconciler takes the accessor out of the map and cancels its
      cache, for the first time. */
  lemma ExhaustedIsDropped(states: seq<State>, steps: seq<Step>, n: nat, m: nat)
    requires Behavior(states, steps) && n < m < |steps| && steps[n].CheckHealth?
    requires forall k :: n < k < m ==> !ByReconciler(steps[k])
    requires ByReconciler(steps[m])
    ensures HasConnection(states[n])
    ensures LastFailed(states[n].caches[Held(states[n])].probes) ==>
              var t, c := states[m + 1], Held(states[n]);
              && steps[m].Drop? && t.entry.None? && t.phase == Notifying(c, steps[m].order)
              && c < |t.caches| && t.caches[c].fate.Dropped? && t.caches[c].cancels == 1
  {
    hide LastFailed, Apply;
    FailingStays(states, steps, n, m);
    InvAlways(states, steps, m);
    if LastFailed(states[n].caches[Held(states[n])].probes) {
      DropDrops(states[m], steps[m], Held(states[n]));
    }
  }

  // ---------------------------------------------------------------- the map and the watches

  /** The map gets an accessor exactly when there is none and the cluster is ready, and loses it
      exactly by a deletion or a drop; its cache is cancelled then, and nobody is told of a deletion. */
  lemma EntryChanges(states: seq<State>, steps: seq<Step>, n: nat)
    requires Behavior(states, steps) && n < |steps|
    ensures var s, t := states[n], states[n + 1];
            && (steps[n] == Create(true) ==>
                  && s.entry.None? && t.entry == Some(|s.accessors|) && |t.accessors| == |s.accessors| + 1
                  && t.accessors[|s.accessors|].connection.None?)
            && (steps[n].Delete? || steps[n].Drop? ==> t.entry.None?)
            && (steps[n] != Create(true) && !steps[n].Delete? && !steps[n].Drop? ==> t.entry == s.entry)
            && (forall c: CacheId :: IsHeld(s, c) && steps[n].Delete? ==>
                  t.phase.Idle? && t.caches[c].fate.Removed? && t.caches[c].cancels == 1 && t.caches[c].told == [])
  {
    hide AgreesWith, FateFits, OneInformerEach;
    InvAlways(states, steps, n);
    forall c: CacheId | IsHeld(states[n], c)
      ensures states[n].caches[c].cancels == 0 && states[n].caches[c].told == [] {
      HeldIsFresh(states[n], c);
    }
  }

  lemma HeldIsFresh(s: State, c: CacheId)
    requires Inv(s) && IsHeld(s, c)
    ensures s.caches[c].fate.Installed? && s.caches[c].cancels == 0 && s.caches[c].told == []
  {
    assert FateFits(s.caches[c], Holds(s, c), IsOpening(s, c), ToTell(s, c));
  }

  /** Connecting starts at most one cache: none if it fails early, one cancelled at once if that does
      not sync, one never cancelled if the discovery client fails then, and one for the accessor if all
      goes well. */
  lemma ConnectStarts(states: seq<State>, steps: seq<Step>, n: nat)
    requires Behavior(states, steps) && n < |steps| && steps[n].Connect?
    ensures var s, t := states[n], states[n + 1];
            match steps[n].outcome
            case FailsEarly => t == s.(phase := Idle)
            case SyncFails =>
              t.phase.Idle? && t.caches == s.caches + [CacheRecord(SyncFailed, 1, [], [], [], [])]
            case DiscoveryFails =>
              t.phase.Idle? && t.caches == s.caches + [CacheRecord(DiscoveryFailed, 0, [], [], [], [])]
            case Opens =>
              && t.phase == Opening(s.phase.a, |s.caches|) && s.entry == Some(s.phase.a)
              && t.caches == s.caches + [CacheRecord(Opened, 0, [], [], [], [])]
  {
    InvAlways(states, steps, n);
  }

  /** A watch call that gets to its locked part ends there. It takes effect exactly if its accessor is
      connected and the name is running or its informer starts; then its watcher is the one kept for
      the name. */
  lemma WatchTakesEffect(states: seq<State>, steps: seq<Step>, n: nat)
    requires Behavior(states, steps) && n < |steps| && steps[n].RunWatch?
    ensures var s, t, id := states[n], states[n + 1], steps[n].id;
            var call := s.calls[id];
            && t.calls == s.calls - {id} && call.a < |s.accessors|
            && if Connected(s, call.a)
                  && (call.w.name in s.accessors[call.a].connection.value.watches || steps[n].started)
               then
                 var c := s.accessors[call.a].connection.value.cache;
                 && IsHeld(s, c) && IsHeld(t, c) && s.entry == t.entry == Some(call.a) && t.phase == s.phase
                 && t.accessors[call.a].connection.value.watches ==
                    s.accessors[call.a].connection.value.watches[call.w.name := call.w]
                 && t.caches[c].accepted == s.caches[c].accepted + [call.w]
                 && t.caches[c].probes == s.caches[c].probes
               else t == s.(calls := t.calls)
  {
    hide AgreesWith, FateFits, OneInformerEach;
    InvAlways(states, steps, n);
  }

  /** A watch call gets to its locked part exactly if its name is not empty and its accessor is
      connected when it looks; and there is a call exactly if the cluster has an accessor. */
  lemma WatchGoesOn(states: seq<State>, steps: seq<Step>, n: nat)
    requires Behavior(states, steps) && n < |steps|
    ensures steps[n].TestWatch? ==>
              var s, t, id := states[n], states[n + 1], steps[n].id;
              && s.calls[id].a < |s.accessors| && t == s.(calls := t.calls)
              && (id in t.calls <==> s.calls[id].w.name != "" && Connected(s, s.calls[id].a))
              && (id in t.calls ==> t.calls == s.calls[id := s.calls[id].(tested := true)])
    ensures steps[n].BeginWatch? ==>
              var s, t := states[n], states[n + 1];
              t == if s.entry.None? then s
                   else s.(calls := s.calls[steps[n].id := WatchCall(s.entry.value, steps[n].w, false)])
  {
  }

  // ---------------------------------------------------------------- how a run goes on when probes fail

  lemma Continue(states: seq<State>, steps: seq<Step>, step: Step) returns (states': seq<State>, steps': seq<Step>)
    requires Behavior(states, steps) && WellFormed(states[|steps|]) && Enabled(states[|steps|], step)
    ensures steps' == steps + [step] && states' == states + [Apply(states[|steps|], step)] && Behavior(states', steps')
    ensures Inv(states'[|steps'|])
  {
    hide Apply, Enabled, WellFormed;
    steps', states' := steps + [step], states + [Apply(states[|steps|], step)];
    InvAlways(states', steps', |steps'|);
  }

  /** From step `n` on only the reconciler moves. */
  ghost predicate ReconcilerOnly(steps: seq<Step>, n: nat) {
    forall k :: n <= k < |steps| ==> ByReconciler(steps[k])
  }

  /** Between reconciles, with a connection to cache `c`. */
  ghost predicate Resting(s: State, c: CacheId) {
    s.phase.Idle? && IsHeld(s, c)
  }

  /** From rest the reconciler looks the accessor up, finds it connected and is about to check it. */
  lemma BeginReconcile(states: seq<State>, steps: seq<Step>, c: CacheId)
    returns (states': seq<State>, steps': seq<Step>)
    requires Behavior(states, steps) && Resting(states[|steps|], c)
    ensures Behavior(states', steps') && |steps'| == |steps| + 2 && steps <= steps' && states <= states'
    ensures ReconcilerOnly(steps', |steps|)
    ensures var s, t := states[|steps|], states'[|steps'|]; s.entry.Some? && t == s.(phase := Checking(s.entry.value))
    ensures Inv(states'[|steps'|])
  {
    hide Inv;
    InvAlways(states, steps, |steps|);
    InvIsWellFormed(states[|steps|]);
    states', steps' := Continue(states, steps, Look);
    InvIsWellFormed(states'[|steps'|]);
    states', steps' := Continue(states', steps', TestConnected);
  }

  /** A reconcile whose probe fails, when that is not one too many. */
  lemma FailedReconcile(states: seq<State>, steps: seq<Step>, c: CacheId, error: string)
    returns (states': seq<State>, steps': seq<Step>)
    requires Behavior(states, steps) && Resting(states[|steps|], c) && !LastFailed(states[|steps|].caches[c].probes)
    ensures Behavior(states', steps') && |steps'| == |steps| + 4 && steps <= steps' && states <= states'
    ensures ReconcilerOnly(steps', |steps|)
    ensures var s, t := states[|steps|], states'[|steps'|];
            && Resting(t, c) && t.caches[c].probes == s.caches[c].probes + [false]
            && t.caches[c].accepted == s.caches[c].accepted
  {
    hide LastFailed, Inv;
    states', steps' := BeginReconcile(states, steps, c);
    var n := |steps'|;
    InvIsWellFormed(states'[n]);
    states', steps' := Continue(states', steps', CheckHealth(Some(error)));
    CheckDecides(states', steps', n);
    CheckKeepsWatches(states'[n], Some(error), c);
    InvIsWellFormed(states'[n + 1]);
    states', steps' := Continue(states', steps', Finish);
  }

  lemma InvIsWellFormed(s: State)
    requires Inv(s)
    ensures WellFormed(s)
  {
  }

  lemma CheckKeepsWatches(s: State, error: Option<string>, c: CacheId)
    requires WellFormed(s) && s.phase.Checking? && c < |s.caches|
    ensures Apply(s, CheckHealth(error)).caches[c].accepted == s.caches[c].accepted
  {
  }

  lemma {:induction false} SomeOrder(watches: map<string, Watcher>) returns (order: seq<Watcher>)
    requires FiledByName(watches)
    ensures Lists(watches, order)
    decreases watches.Keys
  {
    order := [];
    if watches != map[] {
      var n :| n in watches;
      order := SomeOrder(watches - {n});
      ListsOneMore(watches - {n}, order, watches[n], watches);
      order := order + [watches[n]];
    }
  }

  lemma WatchesAreFiled(s: State, c: CacheId)
    requires Inv(s) && IsHeld(s, c)
    ensures s.accessors[s.entry.value].connection.value.watches == Latest(s.caches[c].accepted)
    ensures FiledByName(s.accessors[s.entry.value].connection.value.watches)
  {
    assert AgreesWith(s.accessors[s.entry.value], s.caches[c].accepted, s.caches[c].probes);
    assert OneInformerEach(s.caches[c].accepted, s.caches[c].starts);
  }

  /** Dropped, cancelled once, and the latest watcher of every name told. */
  ghost predicate DroppedAndTold(t: State, c: CacheId) {
    && t.phase.Idle? && t.entry.None? && c < |t.caches| && t.caches[c].fate.Dropped? && t.caches[c].cancels == 1
    && LatestTold(t.caches[c].accepted, t.caches[c].told)
  }

  /** A reconcile that finds the retries used up drops the connection and tells all watchers. */
  lemma DroppingReconcile(states: seq<State>, steps: seq<Step>, c: CacheId)
    returns (states': seq<State>, steps': seq<Step>)
    requires Behavior(states, steps) && Resting(states[|steps|], c) && LastFailed(states[|steps|].caches[c].probes)
    ensures Behavior(states', steps') && steps <= steps' && states <= states' && ReconcilerOnly(steps', |steps|)
    ensures DroppedAndTold(states'[|steps'|], c)
    ensures states'[|steps'|].caches[c].accepted == states[|steps|].caches[c].accepted
    ensures states'[|steps'|].caches[c].probes == states[|steps|].caches[c].probes
  {
    hide LastFailed, Inv, DroppedAndTold;
    states', steps' := BeginReconcile(states, steps, c);
    var n := |steps'|;
    InvIsWellFormed(states'[n]);
    states', steps' := Continue(states', steps', CheckHealth(None));
    CheckDecides(states', steps', n);
    CheckKeepsWatches(states'[n], None, c);
    hide Apply, Enabled, WellFormed;
    states', steps' := DropAndTell(states', steps', c);
  }

  lemma DropAndTell(states: seq<State>, steps: seq<Step>, c: CacheId) returns (states': seq<State>, steps': seq<Step>)
    requires Behavior(states, steps) && states[|steps|].phase.Failing? && IsHeld(states[|steps|], c)
    ensures Behavior(states', steps') && steps <= steps' && states <= states' && ReconcilerOnly(steps', |steps|)
    ensures DroppedAndTold(states'[|steps'|], c)
    ensures states'[|steps'|].caches[c].accepted == states[|steps|].caches[c].accepted
    ensures states'[|steps'|].caches[c].probes == states[|steps|].caches[c].probes
  {
    hide Inv, LatestTold;
    var s := states[|steps|];
    InvAlways(states, steps, |steps|);
    InvIsWellFormed(s);
    WatchesAreFiled(s, c);
    var order := SomeOrder(s.accessors[s.entry.value].connection.value.watches);
    states', steps' := Continue(states, steps, Drop(order));
    DropDrops(s, Drop(order), c);
    DropKeepsWatches(s, order, c);
    hide Apply, Enabled, WellFormed;
    states', steps' := TellAll(states', steps', c);
    WatchersAreTold(states', steps', |steps'|, c);
  }

  lemma DropKeepsWatches(s: State, order: seq<Watcher>, c: CacheId)
    requires WellFormed(s) && Enabled(s, Drop(order)) && IsHeld(s, c)
    ensures Apply(s, Drop(order)).caches[c].accepted == s.caches[c].accepted
    ensures Apply(s, Drop(order)).caches[c].probes == s.caches[c].probes
  {
  }

  /** The notifier tells one watcher after the other. */
  lemma {:induction false} TellAll(states: seq<State>, steps: seq<Step>, c: CacheId)
    returns (states': seq<State>, steps': seq<Step>)
    requires Behavior(states, steps) && c < |states[|steps|].caches| && states[|steps|].caches[c].fate.Dropped?
    requires states[|steps|].phase.Notifying? && states[|steps|].phase.lost == c
    ensures Behavior(states', steps') && steps <= steps' && states <= states' && ReconcilerOnly(steps', |steps|)
    ensures var s, t := states[|steps|], states'[|steps'|];
            && t.phase.Idle? && t.entry == s.entry && c < |t.caches| && t.caches[c].fate == s.caches[c].fate
            && t.caches[c].cancels == s.caches[c].cancels && t.caches[c].accepted == s.caches[c].accepted
            && t.caches[c].probes == s.caches[c].probes
    decreases |states[|steps|].phase.todo|
  {
    hide Inv;
    InvAlways(states, steps, |steps|);
    InvIsWellFormed(states[|steps|]);
    states', steps' := Continue(states, steps, Notify);
    if states[|steps|].phase.todo != [] {
      states', steps' := TellAll(states', steps', c);
    }
  }

  /** From any state of any run at rest with a connection, if every probe from now on fails, the
      connection is dropped and the latest watcher of every name is told. */
  lemma {:induction false} FailingProbesDrop(states: seq<State>, steps: seq<Step>, c: CacheId, error: string)
    returns (states': seq<State>, steps': seq<Step>)
    requires Behavior(states, steps) && Resting(states[|steps|], c)
    ensures Behavior(states', steps') && steps <= steps' && states <= states'
    ensures ReconcilerOnly(steps', |steps|)
    ensures DroppedAndTold(states'[|steps'|], c)
    ensures states'[|steps'|].caches[c].accepted == states[|steps|].caches[c].accepted
    ensures var probes := states[|steps|].caches[c].probes;
            states'[|steps'|].caches[c].probes == probes + Failures(DEFAULT_MAX_RETRIES + 1 - FailedSoFar(probes))
    decreases DEFAULT_MAX_RETRIES + 1 - FailedSoFar(states[|steps|].caches[c].probes)
  {
    hide LastFailed, LatestTold, TrailingFailures;
    var probes := states[|steps|].caches[c].probes;
    LastFailedIff(probes);
    if LastFailed(probes) {
      states', steps' := DroppingReconcile(states, steps, c);
      assert probes + Failures(0) == probes;
    } else {
      states', steps' := FailedReconcile(states, steps, c, error);
      OneMoreFailure(probes);
      var left := DEFAULT_MAX_RETRIES - FailedSoFar(probes);
      states', steps' := FailingProbesDrop(states', steps', c, error);
      assert probes + [false] + Failures(left) == probes + Failures(left + 1);
    }
  }

  function FailedSoFar(probes: seq<bool>): (n: nat)
    ensures n <= DEFAULT_MAX_RETRIES + 1
  {
    if TrailingFailures(probes) > DEFAULT_MAX_RETRIES then DEFAULT_MAX_RETRIES + 1 else TrailingFailures(probes)
  }

  function Failures(n: nat): seq<bool> {
    seq(n, _ => false)
  }

  lemma LastFailedIff(probes: seq<bool>)
    ensures LastFailed(probes) <==> TrailingFailures(probes) > DEFAULT_MAX_RETRIES
  {
  }

  lemma OneMoreFailure(probes: seq<bool>)
    ensures TrailingFailures(probes + [false]) == TrailingFailures(probes) + 1
  {
    assert (probes + [false])[..|probes|] == probes;
  }

  // ---------------------------------------------------------------- a whole life

  /** From any state of any run between reconciles, without an accessor, a cluster that is ready can be
      connected: it gets an accessor, and that accessor a new cache. */
  lemma ReadyClusterConnects(states: seq<State>, steps: seq<Step>) returns (states': seq<State>, steps': seq<Step>)
    requires Behavior(states, steps) && states[|steps|].phase.Idle? && states[|steps|].entry.None?
    ensures Behavior(states', steps') && steps <= steps' && states <= states' && ReconcilerOnly(steps', |steps|)
    ensures var s, t := states[|steps|], states'[|steps'|];
            && t.phase == Registering(|s.accessors|) && t.entry == Some(|s.accessors|) && IsHeld(t, |s.caches|)
            && t.calls == s.calls && t.caches[|s.caches|].accepted == [] && t.caches[|s.caches|].probes == [true]
  {
    states', steps' := GetsAccessor(states, steps);
    states', steps' := GetsCache(states', steps');
  }

  lemma GetsAccessor(states: seq<State>, steps: seq<Step>) returns (states': seq<State>, steps': seq<Step>)
    requires Behavior(states, steps) && states[|steps|].phase.Idle? && states[|steps|].entry.None?
    ensures Behavior(states', steps') && steps <= steps' && states <= states' && ReconcilerOnly(steps', |steps|)
    ensures var s, t := states[|steps|], states'[|steps'|];
            && t.phase == Connecting(|s.accessors|) && t.entry == Some(|s.accessors|) && t.caches == s.caches
            && t.calls == s.calls && |t.accessors| == |s.accessors| + 1
  {
    hide Inv;
    InvAlways(states, steps, |steps|);
    InvIsWellFormed(states[|steps|]);
    states', steps' := Continue(states, steps, Look);
    InvIsWellFormed(states'[|steps'|]);
    states', steps' := Continue(states', steps', Create(true));
    InvIsWellFormed(states'[|steps'|]);
    states', steps' := Continue(states', steps', TestConnected);
  }

  lemma GetsCache(states: seq<State>, steps: seq<Step>) returns (states': seq<State>, steps': seq<Step>)
    requires Behavior(states, steps) && states[|steps|].phase.Connecting?
    ensures Behavior(states', steps') && steps <= steps' && states <= states' && ReconcilerOnly(steps', |steps|)
    ensures var s, t := states[|steps|], states'[|steps'|];
            && t.phase == Registering(s.phase.a) && t.entry == s.entry && IsHeld(t, |s.caches|)
            && t.calls == s.calls && t.caches[|s.caches|].accepted == [] && t.caches[|s.caches|].probes == [true]
  {
    hide Inv, WellFormed, Apply, Enabled;
    var s := states[|steps|];
    InvAlways(states, steps, |steps|);
    OpensStep(s);
    states', steps' := Continue(states, steps, Connect(Opens));
    SetStateStep(states'[|steps'|]);
    states', steps' := Continue(states', steps', SetState);
    var n := |steps'|;
    CheckStep(states'[n]);
    states', steps' := Continue(states', steps', CheckHealth(None));
    CheckDecides(states', steps', n);
  }

  lemma OpensStep(s: State)
    requires Inv(s) && s.phase.Connecting?
    ensures WellFormed(s) && Enabled(s, Connect(Opens)) && s.entry == Some(s.phase.a)
    ensures Apply(s, Connect(Opens)) ==
            s.(phase := Opening(s.phase.a, |s.caches|), caches := s.caches + [Started(Opened)])
  {
  }

  lemma SetStateStep(s: State)
    requires Inv(s) && s.phase.Opening?
    ensures WellFormed(s) && Enabled(s, SetState)
    ensures var t := Apply(s, SetState);
            && t.phase == Checking(s.phase.a) && t.entry == s.entry && t.calls == s.calls && IsHeld(t, s.phase.cache)
            && t.caches[s.phase.cache].accepted == s.caches[s.phase.cache].accepted
            && t.caches[s.phase.cache].probes == s.caches[s.phase.cache].probes
  {
  }

  lemma CheckStep(s: State)
    requires Inv(s) && s.phase.Checking?
    ensures WellFormed(s) && Enabled(s, CheckHealth(None))
    ensures var t := Apply(s, CheckHealth(None));
            && t.calls == s.calls && |t.caches| == |s.caches|
            && forall c :: 0 <= c < |s.caches| ==> t.caches[c].accepted == s.caches[c].accepted
  {
  }

  /** The reconciler registers one watch. */
  lemma Registers(states: seq<State>, steps: seq<Step>, w: Watcher) returns (states': seq<State>, steps': seq<Step>)
    requires Behavior(states, steps) && w.name != ""
    requires var s := states[|steps|];
             s.phase == Registering(0) && s.entry == Some(0) && IsHeld(s, 0) && s.calls == map[]
    ensures Behavior(states', steps')
    ensures var s, t := states[|steps|], states'[|steps'|];
            && t.phase == s.phase && t.entry == s.entry && IsHeld(t, 0) && t.calls == map[]
            && t.caches[0].accepted == s.caches[0].accepted + [w] && t.caches[0].probes == s.caches[0].probes
  {
    hide Inv, IsHeld, Apply, Enabled, WellFormed;
    InvAlways(states, steps, |steps|);
    InvIsWellFormed(states[|steps|]);
    RegisterStep(states[|steps|], w);
    states', steps' := Continue(states, steps, Register(0, w));
    HeldStays(states[|steps|], states'[|steps'|]);
    InvIsWellFormed(states'[|steps'|]);
    var n := |steps'|;
    WatchSteps(states'[n]);
    states', steps' := Continue(states', steps', TestWatch(0));
    HeldIsConnected(states'[n]);
    WatchGoesOn(states', steps', n);
    HeldStays(states'[n], states'[n + 1]);
    InvIsWellFormed(states'[n + 1]);
    WatchSteps(states'[n + 1]);
    states', steps' := Continue(states', steps', RunWatch(0, true));
    HeldIsConnected(states'[n + 1]);
    WatchTakesEffect(states', steps', n + 1);
  }

  lemma RegisterStep(s: State, w: Watcher)
    requires WellFormed(s) && s.phase == Registering(0) && s.calls == map[]
    ensures Enabled(s, Register(0, w)) && Apply(s, Register(0, w)) == s.(calls := map[0 := WatchCall(0, w, false)])
  {
  }

  lemma WatchSteps(s: State)
    requires WellFormed(s) && 0 in s.calls
    ensures if s.calls[0].tested then Enabled(s, RunWatch(0, true)) else Enabled(s, TestWatch(0))
  {
  }

  lemma HeldStays(s: State, t: State)
    requires t.entry == s.entry && t.accessors == s.accessors && t.caches == s.caches
    ensures IsHeld(s, 0) ==> IsHeld(t, 0)
  {
  }

  lemma HeldIsConnected(s: State)
    requires IsHeld(s, 0) && s.entry == Some(0)
    ensures 0 < |s.accessors| && Connected(s, 0) && s.accessors[0].connection.value.cache == 0
  {
  }

  /** A run from the start: the cluster is connected and watched twice under one name, six probes in
      a row fail, the connection is dropped and the second watcher is told, once. */
  lemma DropExample(w: Watcher, v: Watcher, error: string) returns (states: seq<State>, steps: seq<Step>)
    requires w.name == v.name != ""
    ensures Behavior(states, steps)
    ensures var t := states[|steps|];
            && t.phase.Idle? && t.entry.None? && |t.caches| > 0 && t.caches[0].fate.Dropped? && t.caches[0].cancels == 1
            && t.caches[0].accepted == [w, v] && t.caches[0].told == [v]
            && t.caches[0].probes == [true, false, false, false, false, false, false]
  {
    hide Inv, LatestTold, WellFormed;
    states, steps := ReadyClusterConnects([INITIAL], []);
    states, steps := Registers(states, steps, w);
    states, steps := Registers(states, steps, v);
    InvAlways(states, steps, |steps|);
    InvIsWellFormed(states[|steps|]);
    states, steps := Continue(states, steps, Finish);
    states, steps := FailingProbesDrop(states, steps, 0, error);
    assert [] + [w] + [v] == [w, v];
    assert [true][..0] == [] && [true] + Failures(6) == [true, false, false, false, false, false, false];
    OnlyLatest(w, v, states[|steps|].caches[0].told);
  }

  lemma OnlyLatest(w: Watcher, v: Watcher, told: seq<Watcher>)
    requires w.name == v.name && LatestTold([w, v], told)
    ensures told == [v]
  {
    var accepted := [w, v];
    assert LastOfName(accepted, 1) && accepted[1] == v;
    forall k | 0 <= k < |told| ensures told[k] == v {
      assert IsLatest(accepted, told[k]);
      var i: nat :| LastOfName(accepted, i) && accepted[i] == told[k];
    }
    assert v in told && (|told| < 2 || told[0].name != told[1].name);
  }
}
