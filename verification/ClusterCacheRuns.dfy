/** What holds in every run of the remote cache. */
module ClusterCacheRuns {
  import opened Common
  import opened HealthChecks
  import opened Accessors
  import opened ClusterCaches

  ghost predicate Behavior(states: seq<State>, steps: seq<Step>) {
    && |states| == |steps| + 1 && states[0] == INITIAL
    && forall i :: 0 <= i < |steps| ==>
         WellFormed(states[i]) && Enabled(states[i], steps[i]) && states[i + 1] == Apply(states[i], steps[i])
  }

  lemma {:induction false} InvAlways(states: seq<State>, steps: seq<Step>, n: nat)
    requires Behavior(states, steps) && n < |states|
    ensures Inv(states[n])
  {
    if n > 0 {
      InvAlways(states, steps, n - 1);
      StepKeepsInv(states[n - 1], steps[n - 1]);
    }
  }

  // ---------------------------------------------------------------- caches

  /** Only the accessor in the map can be connected; a stale reference never is. */
  lemma StaleAccessorsAreDisconnected(states: seq<State>, steps: seq<Step>, n: nat, a: AccessorId)
    requires Behavior(states, steps) && n < |states| && a < |states[n].accessors| && states[n].entry != Some(a)
    ensures states[n].accessors[a].connection.None?
  {
    InvAlways(states, steps, n);
  }

  /** No cache is cancelled twice, and the ones not cancelled are in use, being opened, or belong to
      a connection whose discovery client could not be created. */
  lemma CancelledAtMostOnce(states: seq<State>, steps: seq<Step>, n: nat, c: CacheId)
    requires Behavior(states, steps) && n < |states| && c < |states[n].caches|
    ensures WellFormed(states[n])
    ensures states[n].caches[c].cancels <= 1
    ensures states[n].caches[c].cancels == 0 <==>
              Holds(states[n], c) || IsOpening(states[n], c) || states[n].caches[c].fate.DiscoveryFailed?
  {
    InvAlways(states, steps, n);
  }

  /** Step `k` started cache `c`. */
  ghost predicate StartedAt(states: seq<State>, steps: seq<Step>, c: CacheId, k: nat) {
    k < |steps| && k + 1 < |states| && steps[k].Connect? && |states[k].caches| == c && |states[k + 1].caches| == c + 1
  }

  lemma StepKeepsDiscoveryFailed(s: State, step: Step, c: CacheId)
    requires Inv(s) && Enabled(s, step) && c < |s.caches|
    ensures c < |Apply(s, step).caches|
    ensures Apply(s, step).caches[c].fate.DiscoveryFailed? <==> s.caches[c].fate.DiscoveryFailed?
  {
    hide AgreesWith, FateFits, OneInformerEach, Lists;
  }

  lemma StepStartsCache(s: State, step: Step)
    requires Inv(s) && Enabled(s, step)
    ensures |s.caches| <= |Apply(s, step).caches| <= |s.caches| + 1
    ensures |Apply(s, step).caches| > |s.caches| ==>
              step.Connect?
              && (Apply(s, step).caches[|s.caches|].fate.DiscoveryFailed? <==> step.outcome.DiscoveryFails?)
  {
    hide AgreesWith, FateFits, OneInformerEach, Lists;
  }

  /** Every cache was started by a connect step, which decides whether it is given up unstopped. */
  lemma {:induction false} Origin(states: seq<State>, steps: seq<Step>, n: nat, c: CacheId) returns (k: nat)
    requires Behavior(states, steps) && n < |states| && c < |states[n].caches|
    ensures k < n && StartedAt(states, steps, c, k)
    ensures states[n].caches[c].fate.DiscoveryFailed? <==> steps[k].outcome.DiscoveryFails?
  {
    InvAlways(states, steps, n - 1);
    StepStartsCache(states[n - 1], steps[n - 1]);
    if c < |states[n - 1].caches| {
      k := Origin(states, steps, n - 1, c);
      StepKeepsDiscoveryFailed(states[n - 1], steps[n - 1], c);
    } else {
      k := n - 1;
    }
  }

  /** Between reconciles, a started cache is still running without an owner exactly if the
      discovery client failed after it was started. */
  lemma LeakedIffDiscoveryFailed(states: seq<State>, steps: seq<Step>, n: nat, c: CacheId) returns (k: nat)
    requires Behavior(states, steps) && n < |states| && c < |states[n].caches| && states[n].phase.Idle?
    ensures k < n && StartedAt(states, steps, c, k) && WellFormed(states[n])
    ensures states[n].caches[c].cancels == 0 && !Holds(states[n], c) <==> steps[k].outcome.DiscoveryFails?
  {
    InvAlways(states, steps, n);
    CancelledAtMostOnce(states, steps, n, c);
    k := Origin(states, steps, n, c);
  }

  /** The run in which a cache is left behind: connect, and the discovery client fails. */
  lemma LeakExample() returns (states: seq<State>, steps: seq<Step>)
    ensures Behavior(states, steps) && states[|steps|].phase.Idle?
    ensures |states[|steps|].caches| == 1 && states[|steps|].caches[0].cancels == 0 && states[|steps|].entry == Some(0)
    ensures |states[|steps|].accessors| == 1 && states[|steps|].accessors[0].connection.None?
  {
    steps := [Look, Create(true), TestConnected, Connect(DiscoveryFails)];
    var s1 := Apply(INITIAL, Look);
    var s2 := Apply(s1, Create(true));
    var s3 := Apply(s2, TestConnected);
    states := [INITIAL, s1, s2, s3, Apply(s3, Connect(DiscoveryFails))];
  }

  // ---------------------------------------------------------------- nothing live is overwritten

  /** Creating an accessor never replaces one, although the code would let it; connecting never
      replaces a live connection; and the reconciler finds its connection when it checks it. */
  lemma NothingOverwritten(states: seq<State>, steps: seq<Step>, n: nat)
    requires Behavior(states, steps) && n < |steps|
    ensures steps[n].Create? ==> states[n].entry.None?
    ensures steps[n].SetState? ==>
              states[n].entry == Some(states[n].phase.a) && states[n].accessors[states[n].phase.a].connection.None?
    ensures steps[n].CheckHealth? || steps[n].Register? ==>
              states[n].entry == Some(states[n].phase.a) && states[n].accessors[states[n].phase.a].connection.Some?
  {
    InvAlways(states, steps, n);
  }

  /** An informer is only ever started on a running cache that the map's accessor holds, and only
      for a name that has none there yet. */
  lemma InformersOnLiveCaches(states: seq<State>, steps: seq<Step>, n: nat, c: CacheId)
    requires Behavior(states, steps) && n < |steps| && c < |states[n].caches| && c < |states[n + 1].caches|
    requires states[n + 1].caches[c].starts != states[n].caches[c].starts
    ensures steps[n].RunWatch? && WellFormed(states[n]) && Holds(states[n], c) && states[n].caches[c].cancels == 0
    ensures var w := states[n].calls[steps[n].id].w;
            && states[n + 1].caches[c].starts == states[n].caches[c].starts + [w]
            && forall i :: 0 <= i < |states[n].caches[c].starts| ==> states[n].caches[c].starts[i].name != w.name
  {
    InvAlways(states, steps, n);
    OnlyWatchesStart(states[n], steps[n], c);
  }

  lemma OnlyWatchesStart(s: State, step: Step, c: CacheId)
    requires Inv(s) && Enabled(s, step) && c < |s.caches| && c < |Apply(s, step).caches|
    requires Apply(s, step).caches[c].starts != s.caches[c].starts
    ensures step.RunWatch? && Holds(s, c) && s.caches[c].cancels == 0
    ensures var w := s.calls[step.id].w;
            && Apply(s, step).caches[c].starts == s.caches[c].starts + [w]
            && forall i :: 0 <= i < |s.caches[c].starts| ==> s.caches[c].starts[i].name != w.name
  {
    hide Lists;
    assert FateFits(s.caches[c], Holds(s, c), IsOpening(s, c), ToTell(s, c));
    assert OneInformerEach(s.caches[c].accepted, s.caches[c].starts);
  }

  // ---------------------------------------------------------------- drops and their notifications

  /** A connection is dropped only after `maxRetries + 1` failed probes in a row. */
  lemma DroppedOnlyWhenExhausted(states: seq<State>, steps: seq<Step>, n: nat, c: CacheId)
    requires Behavior(states, steps) && n < |states| && c < |states[n].caches| && states[n].caches[c].fate.Dropped?
    ensures var probes := states[n].caches[c].probes;
            && |probes| > DEFAULT_MAX_RETRIES
            && forall i :: |probes| - DEFAULT_MAX_RETRIES - 1 <= i < |probes| ==> !probes[i]
  {
    InvAlways(states, steps, n);
    assert FateFits(states[n].caches[c], Holds(states[n], c), IsOpening(states[n], c), ToTell(states[n], c));
  }

  /** Once a drop is through, each name watched on that connection was told exactly once, through
      the watcher accepted last under that name; a deletion tells nobody. */
  lemma WatchersAreTold(states: seq<State>, steps: seq<Step>, n: nat, c: CacheId)
    requires Behavior(states, steps) && n < |states| && c < |states[n].caches| && ToTell(states[n], c) == []
    ensures states[n].caches[c].fate.Dropped? ==>
              LatestTold(states[n].caches[c].accepted, states[n].caches[c].told)
    ensures !states[n].caches[c].fate.Dropped? ==> states[n].caches[c].told == []
  {
    InvAlways(states, steps, n);
    var r := states[n].caches[c];
    assert FateFits(r, Holds(states[n], c), IsOpening(states[n], c), []);
    if r.fate.Dropped? {
      assert r.told + [] == r.told;
      ListsLatest(r.accepted, r.told);
    }
  }

  /** The position of the last watcher accepted under its name. */
  ghost predicate LastOfName(accepted: seq<Watcher>, i: nat) {
    i < |accepted| && forall j :: i < j < |accepted| ==> accepted[j].name != accepted[i].name
  }

  ghost predicate IsLatest(accepted: seq<Watcher>, w: Watcher) {
    exists i: nat :: LastOfName(accepted, i) && accepted[i] == w
  }

  ghost predicate LatestTold(accepted: seq<Watcher>, told: seq<Watcher>) {
    && (forall i: nat :: LastOfName(accepted, i) ==> accepted[i] in told)
    && (forall k :: 0 <= k < |told| ==> IsLatest(accepted, told[k]))
    && (forall j, k :: 0 <= j < k < |told| ==> told[j].name != told[k].name)
  }

  lemma ListsLatest(accepted: seq<Watcher>, told: seq<Watcher>)
    requires Lists(Latest(accepted), told)
    ensures LatestTold(accepted, told)
  {
    forall i: nat | LastOfName(accepted, i) ensures accepted[i] in told {
      LatestIsLast(accepted, accepted[i].name);
    }
    forall k | 0 <= k < |told| ensures IsLatest(accepted, told[k]) {
      LatestIsLast(accepted, told[k].name);
      var i :| 0 <= i < |accepted| && accepted[i] == Latest(accepted)[told[k].name] && accepted[i].name == told[k].name
               && forall j :: i < j < |accepted| ==> accepted[j].name != told[k].name;
      assert LastOfName(accepted, i);
    }
  }
}
