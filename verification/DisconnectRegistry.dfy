/** Lazy registration of one disconnect source per controller, and the delivery of disconnect
    requests through it, for any number of concurrent callers.

    Each critical section is one step. Between its two critical sections an owner runs Watch
    without the lock; callers that arrive meanwhile block on the setup's done channel. */
module DisconnectRegistry {
  import opened Common
  import opened RequestSources

  type Controller = nat
  type RequestType = nat
  type Request = nat
  type QueueId = nat
  type SourceId = nat
  type SetupId = nat
  type CallId = nat

  /** The watcher given to ensureDisconnectSource, which becomes a map key. */
  datatype Watcher = Nil | NotComparable | Comparable(controller: Controller)

  /** One registration. `closes` counts how often its done channel was closed (a second close
      panics); `owner` is the call that runs Watch for it. */
  datatype Setup = Setup(controller: Controller, requestType: RequestType, src: SourceId,
                         closes: nat, err: Option<string>, owner: CallId)

  datatype Pc =
    | Entering
    | Watching(setup: SetupId)
    | Waiting(setup: SetupId)
    | Returned(from: Option<SetupId>, result: Result<SourceId>)
    | Enqueued(src: SourceId)

  /** One call of invokeDisconnect, with the requests its DisconnectHandler returns. */
  datatype Call = Call(watcher: Watcher, requestType: RequestType, requests: seq<Request>, pc: Pc)

  /** `sources` is RemoteCache.disconnectSources; `setups` keeps every registration ever started,
      and `enqueued` the calls whose requests were added to a source, in lock order. */
  datatype State = State(sources: map<Controller, SetupId>, setups: seq<Setup>,
                         srcs: seq<Source<QueueId, Request>>, calls: seq<Call>, enqueued: seq<CallId>)

  const NIL_WATCHER := "disconnect handler requires a watcher"
  const NOT_COMPARABLE := "disconnect handler watcher is not comparable"
  const OTHER_TYPE := "disconnect source has a different request type"

  // ---------------------------------------------------------------- steps

  datatype Step =
    | Invoke(watcher: Watcher, requestType: RequestType, requests: seq<Request>)
    | Enter(c: CallId)
    | Finish(c: CallId, err: Option<string>)
    | Wake(c: CallId)
    | Enqueue(c: CallId)
    | StartSource(src: SourceId, queue: Option<QueueId>)

  ghost predicate Enabled(s: State, step: Step) {
    match step
    case Invoke(_, _, _) => true
    case Enter(c) => c < |s.calls| && s.calls[c].pc.Entering?
    case Finish(c, _) =>
      c < |s.calls| && s.calls[c].pc.Watching? && s.calls[c].pc.setup < |s.setups|
    case Wake(c) =>
      && c < |s.calls| && s.calls[c].pc.Waiting? && s.calls[c].pc.setup < |s.setups|
      && s.setups[s.calls[c].pc.setup].closes > 0
    case Enqueue(c) =>
      && c < |s.calls| && s.calls[c].pc.Returned? && s.calls[c].pc.result.Ok?
      && s.calls[c].pc.result.value < |s.srcs|
    case StartSource(src, _) => src < |s.srcs|
  }

  function Goto(s: State, c: CallId, pc: Pc): State
    requires c < |s.calls|
  {
    s.(calls := s.calls[c := s.calls[c].(pc := pc)])
  }

  /** The first critical section: reuse the registration that is there, or become the owner of a
      new one. A watcher that cannot be a map key never gets here. */
  function EnterSection(s: State, c: CallId): State
    requires c < |s.calls|
  {
    var call := s.calls[c];
    match call.watcher
    case Nil => Goto(s, c, Returned(None, Err(NIL_WATCHER)))
    case NotComparable => Goto(s, c, Returned(None, Err(NOT_COMPARABLE)))
    case Comparable(k) =>
      if k in s.sources then Goto(s, c, Waiting(s.sources[k]))
      else
        var setup := Setup(k, call.requestType, |s.srcs|, 0, None, c);
        Goto(s, c, Watching(|s.setups|)).(sources := s.sources[k := |s.setups|],
                                          setups := s.setups + [setup],
                                          srcs := s.srcs + [Empty()])
  }

  /** The owner's second critical section, once Watch has returned `err`. */
  function FinishSection(s: State, c: CallId, err: Option<string>): State
    requires c < |s.calls| && s.calls[c].pc.Watching? && s.calls[c].pc.setup < |s.setups|
  {
    var i := s.calls[c].pc.setup;
    var setup := s.setups[i];
    var k := setup.controller;
    var sources := if err.Some? && k in s.sources && s.sources[k] == i then s.sources - {k} else s.sources;
    var result := if err.Some? then Err(err.value) else Ok(setup.src);
    Goto(s, c, Returned(Some(i), result)).(
      sources := sources,
      setups := s.setups[i := setup.(err := err, closes := setup.closes + 1)])
  }

  /** What a latecomer returns once done is closed. */
  function WaitResult(setup: Setup, requestType: RequestType): Result<SourceId> {
    if setup.err.Some? then Err(setup.err.value)
    else if setup.requestType != requestType then Err(OTHER_TYPE)
    else Ok(setup.src)
  }

  function Apply(s: State, step: Step): State
    requires Enabled(s, step)
  {
    match step
    case Invoke(w, t, requests) => s.(calls := s.calls + [Call(w, t, requests, Entering)])
    case Enter(c) => EnterSection(s, c)
    case Finish(c, err) => FinishSection(s, c, err)
    case Wake(c) =>
      var i := s.calls[c].pc.setup;
      Goto(s, c, Returned(Some(i), WaitResult(s.setups[i], s.calls[c].requestType)))
    case Enqueue(c) =>
      var x := s.calls[c].pc.result.value;
      Goto(s, c, Enqueued(x)).(srcs := s.srcs[x := AfterAdd(s.srcs[x], s.calls[c].requests)],
                               enqueued := s.enqueued + [c])
    case StartSource(x, q) => s.(srcs := s.srcs[x := AfterStart(s.srcs[x], q)])
  }

  const INITIAL := State(map[], [], [], [], [])

  /** An interleaving of any number of callers, from the empty registry on. */
  ghost predicate Behavior(states: seq<State>, steps: seq<Step>) {
    && |states| == |steps| + 1
    && states[0] == INITIAL
    && forall n :: 0 <= n < |steps| ==> Enabled(states[n], steps[n]) && states[n + 1] == Apply(states[n], steps[n])
  }

  // ---------------------------------------------------------------- the invariant

  predicate Done(setup: Setup) {
    setup.closes > 0
  }

  predicate Failed(setup: Setup) {
    Done(setup) && setup.err.Some?
  }

  predicate Succeeded(setup: Setup) {
    Done(setup) && setup.err.None?
  }

  predicate Registered(s: State, i: SetupId)
    requires i < |s.setups|
  {
    var k := s.setups[i].controller;
    k in s.sources && s.sources[k] == i
  }

  /** The map points at setups of the right controller; a setup is in the map from the moment it
      is created until its Watch fails; done is closed at most once; sources are not shared. */
  ghost predicate SetupsOk(s: State) {
    && (forall k :: k in s.sources ==> s.sources[k] < |s.setups| && s.setups[s.sources[k]].controller == k)
    && (forall i :: 0 <= i < |s.setups| ==>
          && (Registered(s, i) <==> !Failed(s.setups[i]))
          && s.setups[i].closes <= 1
          && (s.setups[i].closes == 0 ==> s.setups[i].err.None?)
          && s.setups[i].src < |s.srcs|)
    && (forall i, j :: 0 <= i < j < |s.setups| ==> s.setups[i].src != s.setups[j].src)
  }

  /** Exactly the unfinished setups have a call inside Watch: their owner. */
  ghost predicate OwnersOk(s: State) {
    && (forall i :: 0 <= i < |s.setups| ==>
          s.setups[i].owner < |s.calls| && s.calls[s.setups[i].owner].watcher == Comparable(s.setups[i].controller))
    && (forall i :: 0 <= i < |s.setups| && !Done(s.setups[i]) ==> s.calls[s.setups[i].owner].pc == Watching(i))
    && (forall c :: 0 <= c < |s.calls| && s.calls[c].pc.Watching? ==>
          var i := s.calls[c].pc.setup;
          && i < |s.setups| && !Done(s.setups[i]) && s.setups[i].owner == c
          && s.setups[i].requestType == s.calls[c].requestType)
  }

  /** The outcome a call reports is the one its setup ended with. */
  ghost predicate OutcomeOk(s: State, call: Call) {
    match call.pc
    case Entering => true
    case Watching(i) => true
    case Waiting(i) => i < |s.setups| && call.watcher == Comparable(s.setups[i].controller)
    case Returned(None, result) => !call.watcher.Comparable? && result.Err?
    case Returned(Some(i), result) =>
      && i < |s.setups| && call.watcher == Comparable(s.setups[i].controller)
      && Done(s.setups[i]) && result == WaitResult(s.setups[i], call.requestType)
    case Enqueued(x) => exists i :: GotSource(s, call, i, x)
  }

  ghost predicate GotSource(s: State, call: Call, i: SetupId, x: SourceId) {
    && i < |s.setups| && call.watcher == Comparable(s.setups[i].controller)
    && Succeeded(s.setups[i]) && s.setups[i].src == x && s.setups[i].requestType == call.requestType
  }

  /** The requests added to source `x` by the given calls, in order. */
  function AddedTo(calls: seq<Call>, enqueued: seq<CallId>, x: SourceId): seq<Request> {
    if enqueued == [] then []
    else
      var n := |enqueued| - 1;
      var c := enqueued[n];
      AddedTo(calls, enqueued[..n], x) +
      if c < |calls| && calls[c].pc == Enqueued(x) then calls[c].requests else []
  }

  ghost predicate QueuesOk(s: State) {
    && (forall n :: 0 <= n < |s.enqueued| ==> s.enqueued[n] < |s.calls| && s.calls[s.enqueued[n]].pc.Enqueued?)
    && (forall m, n :: 0 <= m < n < |s.enqueued| ==> s.enqueued[m] != s.enqueued[n])
    && (forall c :: 0 <= c < |s.calls| && s.calls[c].pc.Enqueued? ==> c in s.enqueued)
    && (forall x :: 0 <= x < |s.srcs| ==>
          WellFormed(s.srcs[x]) && Taken(s.srcs[x]) == AddedTo(s.calls, s.enqueued, x))
  }

  ghost predicate Inv(s: State) {
    && SetupsOk(s)
    && OwnersOk(s)
    && (forall c :: 0 <= c < |s.calls| ==> OutcomeOk(s, s.calls[c]))
    && QueuesOk(s)
  }

  // ---------------------------------------------------------------- every step keeps it

  /** Requests already added do not depend on calls that have not been enqueued yet. */
  lemma {:induction false} AddedToUnchanged(before: seq<Call>, after: seq<Call>, enqueued: seq<CallId>, x: SourceId)
    requires forall n :: 0 <= n < |enqueued| ==>
               enqueued[n] < |before| && enqueued[n] < |after| && before[enqueued[n]] == after[enqueued[n]]
    ensures AddedTo(before, enqueued, x) == AddedTo(after, enqueued, x)
  {
    if enqueued != [] {
      AddedToUnchanged(before, after, enqueued[..|enqueued| - 1], x);
    }
  }

  /** No call enqueued so far used the source that is being created. */
  lemma {:induction false} AddedToNewSource(s: State, enqueued: seq<CallId>)
    requires Inv(s)
    requires forall n :: 0 <= n < |enqueued| ==> enqueued[n] < |s.calls|
    ensures AddedTo(s.calls, enqueued, |s.srcs|) == []
  {
    if enqueued != [] {
      AddedToNewSource(s, enqueued[..|enqueued| - 1]);
      var c := enqueued[|enqueued| - 1];
      assert OutcomeOk(s, s.calls[c]);
    }
  }

  /** A step that only moves call `c`, and does not enqueue it, leaves the queues as they were. */
  lemma QueuesKept(s: State, t: State)
    requires Inv(s)
    requires |s.calls| <= |t.calls| && |s.srcs| <= |t.srcs| && t.enqueued == s.enqueued
    requires forall c :: 0 <= c < |s.calls| && s.calls[c].pc.Enqueued? ==> t.calls[c] == s.calls[c]
    requires forall c :: 0 <= c < |t.calls| && t.calls[c].pc.Enqueued? ==> c < |s.calls| && s.calls[c].pc.Enqueued?
    requires forall x :: 0 <= x < |s.srcs| ==> t.srcs[x] == s.srcs[x]
    requires |t.srcs| <= |s.srcs| + 1 && (|t.srcs| == |s.srcs| + 1 ==> t.srcs[|s.srcs|] == Empty())
    ensures QueuesOk(t)
  {
    forall x | 0 <= x < |t.srcs|
      ensures WellFormed(t.srcs[x]) && Taken(t.srcs[x]) == AddedTo(t.calls, t.enqueued, x)
    {
      AddedToUnchanged(s.calls, t.calls, s.enqueued, x);
      if x == |s.srcs| {
        AddedToNewSource(s, s.enqueued);
      }
    }
  }

  lemma InvokeKeepsInv(s: State, step: Step)
    requires Inv(s) && step.Invoke?
    ensures Inv(Apply(s, step))
  {
    QueuesKept(s, Apply(s, step));
    forall c | 0 <= c < |s.calls| ensures OutcomeOk(Apply(s, step), s.calls[c]) {
      OutcomeKept(s, Apply(s, step), s.calls[c]);
    }
  }

  /** Setups that do not change and are only added to keep every outcome valid. */
  lemma OutcomeKept(s: State, t: State, call: Call)
    requires OutcomeOk(s, call)
    requires |s.setups| <= |t.setups|
    requires forall i :: 0 <= i < |s.setups| ==>
               t.setups[i] == s.setups[i] || (!Done(s.setups[i]) && t.setups[i].controller == s.setups[i].controller)
    ensures OutcomeOk(t, call)
  {
    if call.pc.Enqueued? {
      var i :| GotSource(s, call, i, call.pc.src);
      assert GotSource(t, call, i, call.pc.src);
    }
  }

  /** The same for all calls but the one that moves. */
  lemma OutcomesKept(s: State, t: State, c: CallId)
    requires Inv(s) && c < |s.calls| == |t.calls|
    requires forall d :: 0 <= d < |s.calls| && d != c ==> t.calls[d] == s.calls[d]
    requires |s.setups| <= |t.setups|
    requires forall i :: 0 <= i < |s.setups| ==>
               t.setups[i] == s.setups[i] || (!Done(s.setups[i]) && t.setups[i].controller == s.setups[i].controller)
    ensures forall d :: 0 <= d < |t.calls| && d != c ==> OutcomeOk(t, t.calls[d])
  {
    forall d | 0 <= d < |t.calls| && d != c ensures OutcomeOk(t, t.calls[d]) {
      assert OutcomeOk(s, s.calls[d]);
      OutcomeKept(s, t, s.calls[d]);
    }
  }

  lemma NewSetupKeepsSetups(s: State, t: State, setup: Setup)
    requires SetupsOk(s) && setup.controller !in s.sources && !Done(setup) && setup.err.None? && setup.src == |s.srcs|
    requires t.setups == s.setups + [setup] && |t.srcs| == |s.srcs| + 1
    requires t.sources == s.sources[setup.controller := |s.setups|]
    ensures SetupsOk(t)
  {
    forall i | 0 <= i < |s.setups| ensures Registered(t, i) == Registered(s, i) {
      assert t.setups[i] == s.setups[i];
    }
  }

  lemma EnterKeepsSetups(s: State, c: CallId)
    requires SetupsOk(s) && Enabled(s, Enter(c))
    ensures SetupsOk(Apply(s, Enter(c)))
  {
    var t := Apply(s, Enter(c));
    if t.setups == s.setups {
      assert t.sources == s.sources && t.srcs == s.srcs;
    } else {
      hide SetupsOk;
      NewSetupKeepsSetups(s, t, t.setups[|s.setups|]);
    }
  }

  lemma EnterKeepsOwners(s: State, c: CallId)
    requires OwnersOk(s) && Enabled(s, Enter(c))
    ensures OwnersOk(Apply(s, Enter(c)))
  {
    var t := Apply(s, Enter(c));
    forall i | 0 <= i < |s.setups| ensures t.setups[i] == s.setups[i] {
    }
  }

  lemma EnterKeepsInv(s: State, c: CallId)
    requires Inv(s) && Enabled(s, Enter(c))
    ensures Inv(Apply(s, Enter(c)))
  {
    hide OwnersOk, QueuesOk;
    var t := Apply(s, Enter(c));
    EnterKeepsSetups(s, c);
    EnterKeepsOwners(s, c);
    QueuesKept(s, t);
    OutcomesKept(s, t, c);
    assert OutcomeOk(t, t.calls[c]);
  }

  lemma FinishKeepsSetups(s: State, c: CallId, err: Option<string>)
    requires SetupsOk(s) && OwnersOk(s) && Enabled(s, Finish(c, err))
    ensures SetupsOk(Apply(s, Finish(c, err)))
  {
    var t := Apply(s, Finish(c, err));
    var i := s.calls[c].pc.setup;
    assert Registered(s, i);
    forall j | 0 <= j < |t.setups| && j != i ensures Registered(t, j) == Registered(s, j) {
      assert t.setups[j] == s.setups[j];
    }
    forall j | 0 <= j < |t.setups| ensures t.setups[j].src == s.setups[j].src {
    }
  }

  lemma FinishKeepsOwners(s: State, c: CallId, err: Option<string>)
    requires OwnersOk(s) && Enabled(s, Finish(c, err))
    ensures OwnersOk(Apply(s, Finish(c, err)))
  {
  }

  lemma FinishKeepsInv(s: State, c: CallId, err: Option<string>)
    requires Inv(s) && Enabled(s, Finish(c, err))
    ensures Inv(Apply(s, Finish(c, err)))
  {
    hide SetupsOk, QueuesOk;
    var t := Apply(s, Finish(c, err));
    FinishKeepsSetups(s, c, err);
    FinishKeepsOwners(s, c, err);
    QueuesKept(s, t);
    OutcomesKept(s, t, c);
    assert OutcomeOk(t, t.calls[c]);
  }

  /** Moving a call that is not inside Watch disturbs no registration. */
  lemma RegistrationsKept(s: State, t: State, c: CallId)
    requires SetupsOk(s) && OwnersOk(s)
    requires t.sources == s.sources && t.setups == s.setups && |t.srcs| == |s.srcs|
    requires c < |s.calls| == |t.calls|
    requires forall d :: 0 <= d < |s.calls| && d != c ==> t.calls[d] == s.calls[d]
    requires t.calls[c].watcher == s.calls[c].watcher && !s.calls[c].pc.Watching? && !t.calls[c].pc.Watching?
    ensures SetupsOk(t) && OwnersOk(t)
  {
    forall i | 0 <= i < |t.setups| ensures Registered(t, i) == Registered(s, i) {
    }
  }

  lemma WakeKeepsInv(s: State, c: CallId)
    requires Inv(s) && Enabled(s, Wake(c))
    ensures Inv(Apply(s, Wake(c)))
  {
    var t := Apply(s, Wake(c));
    assert OutcomeOk(s, s.calls[c]);
    RegistrationsKept(s, t, c);
    QueuesKept(s, t);
    OutcomesKept(s, t, c);
  }

  lemma EnqueueAdds(s: State, c: CallId, x: SourceId)
    requires QueuesOk(s) && Enabled(s, Enqueue(c)) && c !in s.enqueued && x < |s.srcs|
    ensures var t := Apply(s, Enqueue(c));
            WellFormed(t.srcs[x]) && Taken(t.srcs[x]) == AddedTo(t.calls, t.enqueued, x)
  {
    hide WellFormed, Taken, AfterAdd;
    var t := Apply(s, Enqueue(c));
    assert t.enqueued[..|s.enqueued|] == s.enqueued;
    AddedToUnchanged(s.calls, t.calls, s.enqueued, x);
    AddTakes(s.srcs[x], s.calls[c].requests);
  }

  lemma EnqueueKeepsQueues(s: State, c: CallId)
    requires QueuesOk(s) && Enabled(s, Enqueue(c))
    ensures QueuesOk(Apply(s, Enqueue(c)))
  {
    hide WellFormed, Taken, AfterAdd, AddedTo;
    var t := Apply(s, Enqueue(c));
    assert c !in s.enqueued;
    forall x | 0 <= x < |t.srcs|
      ensures WellFormed(t.srcs[x]) && Taken(t.srcs[x]) == AddedTo(t.calls, t.enqueued, x)
    {
      EnqueueAdds(s, c, x);
    }
    forall d | 0 <= d < |t.calls| && t.calls[d].pc.Enqueued? ensures d in t.enqueued {
      assert t.enqueued[|s.enqueued|] == c;
      assert d != c ==> d in s.enqueued;
    }
  }

  lemma EnqueueKeepsInv(s: State, c: CallId)
    requires Inv(s) && Enabled(s, Enqueue(c))
    ensures Inv(Apply(s, Enqueue(c)))
  {
    var t := Apply(s, Enqueue(c));
    assert OutcomeOk(s, s.calls[c]);
    assert GotSource(t, t.calls[c], s.calls[c].pc.from.value, s.calls[c].pc.result.value);
    RegistrationsKept(s, t, c);
    OutcomesKept(s, t, c);
    EnqueueKeepsQueues(s, c);
  }

  lemma StartSourceKeepsInv(s: State, x: SourceId, q: Option<QueueId>)
    requires Inv(s) && Enabled(s, StartSource(x, q))
    ensures Inv(Apply(s, StartSource(x, q)))
  {
    var t := Apply(s, StartSource(x, q));
    StartTakes(s.srcs[x], q);
    forall d | 0 <= d < |t.calls| ensures OutcomeOk(t, t.calls[d]) {
      OutcomeKept(s, t, s.calls[d]);
    }
  }

  lemma StepKeepsInv(s: State, step: Step)
    requires Inv(s) && Enabled(s, step)
    ensures Inv(Apply(s, step))
  {
    match step
    case Invoke(_, _, _) => InvokeKeepsInv(s, step);
    case Enter(c) => EnterKeepsInv(s, c);
    case Finish(c, err) => FinishKeepsInv(s, c, err);
    case Wake(c) => WakeKeepsInv(s, c);
    case Enqueue(c) => EnqueueKeepsInv(s, c);
    case StartSource(x, q) => StartSourceKeepsInv(s, x, q);
  }

  lemma {:induction false} InvAlways(states: seq<State>, steps: seq<Step>, n: nat)
    requires Behavior(states, steps) && n < |states|
    ensures Inv(states[n])
  {
    if n > 0 {
      InvAlways(states, steps, n - 1);
      StepKeepsInv(states[n - 1], steps[n - 1]);
    }
  }

  // ---------------------------------------------------------------- what every run guarantees

  /** Per controller at most one registration is in flight and at most one ever succeeds; while
      one is in flight or has succeeded, no other has succeeded. */
  lemma OneRegistrationPerController(states: seq<State>, steps: seq<Step>, n: nat, i: SetupId, j: SetupId)
    requires Behavior(states, steps) && n < |states|
    requires i < |states[n].setups| && j < |states[n].setups|
    requires states[n].setups[i].controller == states[n].setups[j].controller
    requires !Failed(states[n].setups[i]) && !Failed(states[n].setups[j])
    ensures i == j
  {
    InvAlways(states, steps, n);
    assert Registered(states[n], i) && Registered(states[n], j);
  }

  /** The source a call got, from when it returns and also after it has added its requests. */
  function Got(pc: Pc): Option<SourceId> {
    match pc
    case Returned(_, Ok(x)) => Some(x)
    case Enqueued(x) => Some(x)
    case _ => None
  }

  /** A call that gets a source gets the one source of its controller whose Watch succeeded. */
  lemma ReturnedSource(states: seq<State>, steps: seq<Step>, n: nat, c: CallId) returns (i: SetupId)
    requires Behavior(states, steps) && n < |states|
    requires c < |states[n].calls| && Got(states[n].calls[c].pc).Some?
    ensures i < |states[n].setups| && Succeeded(states[n].setups[i]) && Registered(states[n], i)
    ensures states[n].calls[c].watcher == Comparable(states[n].setups[i].controller)
    ensures Got(states[n].calls[c].pc) == Some(states[n].setups[i].src)
  {
    hide OwnersOk, QueuesOk;
    InvAlways(states, steps, n);
    var call := states[n].calls[c];
    assert OutcomeOk(states[n], call);
    if call.pc.Returned? {
      i := call.pc.from.value;
    } else {
      i :| GotSource(states[n], call, i, call.pc.src);
    }
  }

  /** Two calls that got a source got the same one exactly if they are for the same controller. */
  lemma SameSourceForAll(states: seq<State>, steps: seq<Step>, n: nat, c: CallId, d: CallId)
    requires Behavior(states, steps) && n < |states|
    requires c < |states[n].calls| && Got(states[n].calls[c].pc).Some?
    requires d < |states[n].calls| && Got(states[n].calls[d].pc).Some?
    ensures states[n].calls[c].watcher == states[n].calls[d].watcher <==>
            Got(states[n].calls[c].pc) == Got(states[n].calls[d].pc)
  {
    hide OwnersOk, OutcomeOk, QueuesOk;
    var i := ReturnedSource(states, steps, n, c);
    var j := ReturnedSource(states, steps, n, d);
    InvAlways(states, steps, n);
  }

  /** When Watch returns, the owner finds its own setup in the map and its done channel open. */
  lemma OwnerFindsItself(states: seq<State>, steps: seq<Step>, n: nat, c: CallId)
    requires Behavior(states, steps) && n < |states|
    requires c < |states[n].calls| && states[n].calls[c].pc.Watching?
    ensures var i := states[n].calls[c].pc.setup;
            i < |states[n].setups| && Registered(states[n], i) && states[n].setups[i].closes == 0
  {
    InvAlways(states, steps, n);
  }

  /** After a failed Watch the controller is free again and the next caller becomes an owner. */
  lemma FailureFreesController(states: seq<State>, steps: seq<Step>, n: nat, d: CallId)
    requires Behavior(states, steps) && n < |steps|
    requires steps[n].Finish? && steps[n].err.Some?
    requires d < |states[n + 1].calls| && states[n + 1].calls[d].pc.Entering?
    requires states[n + 1].calls[d].watcher == states[n].calls[steps[n].c].watcher
    ensures var t := states[n + 1]; Apply(t, Enter(d)).calls[d].pc == Watching(|t.setups|)
  {
    InvAlways(states, steps, n);
    var i := states[n].calls[steps[n].c].pc.setup;
    assert Registered(states[n], i);
  }

  lemma DoneKept(s: State, step: Step, i: SetupId)
    requires OwnersOk(s) && Enabled(s, step) && i < |s.setups| && Done(s.setups[i])
    ensures i < |Apply(s, step).setups| && Apply(s, step).setups[i] == s.setups[i]
  {
  }

  /** Once done is closed the outcome of a registration never changes again. */
  lemma {:induction false} OutcomeIsFinal(states: seq<State>, steps: seq<Step>, m: nat, n: nat, i: SetupId)
    requires Behavior(states, steps) && m <= n < |states|
    requires i < |states[m].setups| && Done(states[m].setups[i])
    ensures i < |states[n].setups| && states[n].setups[i] == states[m].setups[i]
  {
    hide OwnersOk, SetupsOk, QueuesOk, OutcomeOk, Apply, Enabled;
    if m < n {
      OutcomeIsFinal(states, steps, m, n - 1, i);
      InvAlways(states, steps, n - 1);
      DoneKept(states[n - 1], steps[n - 1], i);
    }
  }

  /** A call that waits, or waited, on setup `i` reports the outcome of that setup: its error if
      Watch failed, and its source if Watch succeeded and the request types agree. */
  ghost predicate Reports(s: State, c: CallId, i: SetupId) {
    && c < |s.calls| && i < |s.setups|
    && match s.calls[c].pc
       case Waiting(j) => j == i
       case Returned(from, result) =>
         && from == Some(i) && s.setups[i].closes == 1
         && result == WaitResult(s.setups[i], s.calls[c].requestType)
       case Enqueued(x) => Succeeded(s.setups[i]) && x == s.setups[i].src
       case _ => false
  }

  lemma ReportsKept(s: State, step: Step, c: CallId, i: SetupId)
    requires SetupsOk(s) && OwnersOk(s) && Enabled(s, step) && Reports(s, c, i)
    ensures Reports(Apply(s, step), c, i)
  {
    hide OwnersOk, Registered;
    if Done(s.setups[i]) {
      DoneKept(s, step, i);
    }
  }

  lemma {:induction false} WaiterReportsItsSetup(states: seq<State>, steps: seq<Step>, m: nat, n: nat, c: CallId)
    requires Behavior(states, steps) && m <= n < |states|
    requires c < |states[m].calls| && states[m].calls[c].pc.Waiting?
    ensures Reports(states[n], c, states[m].calls[c].pc.setup)
  {
    if m == n {
      InvAlways(states, steps, n);
      assert OutcomeOk(states[n], states[n].calls[c]);
    } else {
      WaiterReportsItsSetup(states, steps, m, n - 1, c);
      InvAlways(states, steps, n - 1);
      ReportsKept(states[n - 1], steps[n - 1], c, states[m].calls[c].pc.setup);
    }
  }

  /** When Watch ends, its error is what the registration ends with and what the owner returns. */
  lemma OwnerReportsWatch(states: seq<State>, steps: seq<Step>, n: nat)
    requires Behavior(states, steps) && n < |steps| && steps[n].Finish?
    ensures var c, err := steps[n].c, steps[n].err;
            var i := states[n].calls[c].pc.setup;
            && i < |states[n + 1].setups| && Done(states[n + 1].setups[i]) && states[n + 1].setups[i].err == err
            && c < |states[n + 1].calls|
            && states[n + 1].calls[c].pc ==
               Returned(Some(i), if err.Some? then Err(err.value) else Ok(states[n].setups[i].src))
  {
  }

  /** Every call that was waiting when Watch ended returns the error of Watch, or, if there is none,
      the source, unless that was made for another type of request. */
  lemma WaitersReportWatch(states: seq<State>, steps: seq<Step>, m: nat, n: nat, d: CallId)
    requires Behavior(states, steps) && m < |steps| && m < n < |states| && steps[m].Finish?
    requires d < |states[m].calls| && states[m].calls[d].pc == Waiting(states[m].calls[steps[m].c].pc.setup)
    ensures d < |states[n].calls|
    ensures var pc, err := states[n].calls[d].pc, steps[m].err;
            var setup := states[m].setups[states[m].calls[steps[m].c].pc.setup];
            && (pc.Returned? && err.Some? ==> pc.result == Err(err.value))
            && (err.Some? ==> !pc.Enqueued?)
            && (pc.Returned? && err.None? ==>
                  pc.result ==
                    if setup.requestType == states[n].calls[d].requestType then Ok(setup.src) else Err(OTHER_TYPE))
            && (pc.Enqueued? ==> pc.src == setup.src)
  {
    hide Apply;
    OwnerReportsWatch(states, steps, m);
    var i := states[m].calls[steps[m].c].pc.setup;
    OutcomeIsFinal(states, steps, m + 1, n, i);
    WaiterReportsItsSetup(states, steps, m, n, d);
    FinishKeepsSetup(states[m], steps[m]);
  }

  lemma FinishKeepsSetup(s: State, step: Step)
    requires Enabled(s, step) && step.Finish?
    ensures var i := s.calls[step.c].pc.setup;
            && Apply(s, step).setups[i].src == s.setups[i].src
            && Apply(s, step).setups[i].requestType == s.setups[i].requestType
  {
  }

  // ---------------------------------------------------------------- no caller stays blocked

  /** How many of its own steps a call has left before it returns. */
  function StepsLeft(pc: Pc): nat {
    match pc
    case Entering => 2
    case Watching(_) => 1
    case Waiting(_) => 1
    case _ => 0
  }

  function Rank(calls: seq<Call>): nat {
    if calls == [] then 0 else Rank(calls[..|calls| - 1]) + StepsLeft(calls[|calls| - 1].pc)
  }

  lemma {:induction false} RankAfterMove(calls: seq<Call>, c: CallId, pc: Pc)
    requires c < |calls|
    ensures Rank(calls[c := calls[c].(pc := pc)]) == Rank(calls) - StepsLeft(calls[c].pc) + StepsLeft(pc)
  {
    var n := |calls| - 1;
    var after := calls[c := calls[c].(pc := pc)];
    if c < n {
      assert after[..n] == calls[..n][c := calls[c].(pc := pc)];
      RankAfterMove(calls[..n], c, pc);
    } else {
      assert after[..n] == calls[..n];
    }
  }

  /** A step by which a call makes progress towards its return. */
  predicate MovesCall(step: Step) {
    step.Enter? || step.Finish? || step.Wake?
  }

  lemma MoveLowersRank(s: State, step: Step)
    requires Enabled(s, step) && MovesCall(step)
    ensures Rank(Apply(s, step).calls) < Rank(s.calls)
  {
    var t := Apply(s, step);
    RankAfterMove(s.calls, step.c, t.calls[step.c].pc);
  }

  /** Any other step raises the rank by at most the two steps of a call it invokes. */
  lemma OtherStepsAddCalls(s: State, step: Step)
    requires Enabled(s, step) && !MovesCall(step)
    ensures Rank(Apply(s, step).calls) == Rank(s.calls) + if step.Invoke? then 2 else 0
  {
    var t := Apply(s, step);
    match step
    case Invoke(_, _, _) => assert t.calls[..|s.calls|] == s.calls;
    case Enqueue(c) => RankAfterMove(s.calls, c, t.calls[c].pc);
    case _ =>
  }

  /** How many of the steps from `m` to `n` move a call, and how many invoke a new one. */
  function Moves(steps: seq<Step>, m: nat, n: nat): nat
    requires m <= n <= |steps|
  {
    if m == n then 0 else Moves(steps, m, n - 1) + if MovesCall(steps[n - 1]) then 1 else 0
  }

  function Invokes(steps: seq<Step>, m: nat, n: nat): nat
    requires m <= n <= |steps|
  {
    if m == n then 0 else Invokes(steps, m, n - 1) + if steps[n - 1].Invoke? then 1 else 0
  }

  /** In any stretch of any run, calls move at most as often as the calls there at the start have
      steps left, plus twice for each call invoked meanwhile. */
  lemma {:induction false} CallsReturnInBoundedSteps(states: seq<State>, steps: seq<Step>, m: nat, n: nat)
    requires Behavior(states, steps) && m <= n < |states|
    ensures Moves(steps, m, n) + Rank(states[n].calls) <= Rank(states[m].calls) + 2 * Invokes(steps, m, n)
  {
    hide Apply, Enabled, Rank;
    if m < n {
      CallsReturnInBoundedSteps(states, steps, m, n - 1);
      if MovesCall(steps[n - 1]) {
        MoveLowersRank(states[n - 1], steps[n - 1]);
      } else {
        OtherStepsAddCalls(states[n - 1], steps[n - 1]);
      }
    }
  }

  /** While any call has not returned, some call can move: a waiter whose setup is done can wake,
      and one whose setup is not done has an owner inside Watch. */
  lemma NoCallIsStuck(states: seq<State>, steps: seq<Step>, n: nat, c: CallId) returns (step: Step)
    requires Behavior(states, steps) && n < |states|
    requires c < |states[n].calls| && StepsLeft(states[n].calls[c].pc) > 0
    ensures Enabled(states[n], step) && MovesCall(step)
    ensures var s := states[n];
            s.calls[c].pc.Waiting? ==>
              var i := s.calls[c].pc.setup;
              i < |s.setups| && step == if Done(s.setups[i]) then Wake(c) else Finish(s.setups[i].owner, None)
  {
    InvAlways(states, steps, n);
    var s := states[n];
    assert OutcomeOk(s, s.calls[c]);
    match s.calls[c].pc
    case Entering => step := Enter(c);
    case Watching(i) => step := Finish(c, None);
    case Waiting(i) =>
      if Done(s.setups[i]) {
        step := Wake(c);
      } else {
        step := Finish(s.setups[i].owner, None);
      }
  }

  // ---------------------------------------------------------------- no request is lost

  /** The requests of the enqueued calls for one controller, in lock order, whatever source they used. */
  function AddedFor(calls: seq<Call>, enqueued: seq<CallId>, k: Controller): seq<Request> {
    if enqueued == [] then []
    else
      var n := |enqueued| - 1;
      var c := enqueued[n];
      AddedFor(calls, enqueued[..n], k) +
      if c < |calls| && calls[c].watcher == Comparable(k) then calls[c].requests else []
  }

  lemma {:induction false} OneSourcePerController(s: State, i: SetupId, enqueued: seq<CallId>)
    requires Inv(s) && i < |s.setups| && Succeeded(s.setups[i])
    requires forall n :: 0 <= n < |enqueued| ==> enqueued[n] < |s.calls| && s.calls[enqueued[n]].pc.Enqueued?
    ensures AddedTo(s.calls, enqueued, s.setups[i].src) == AddedFor(s.calls, enqueued, s.setups[i].controller)
  {
    hide OwnersOk, QueuesOk;
    if enqueued != [] {
      OneSourcePerController(s, i, enqueued[..|enqueued| - 1]);
      var call := s.calls[enqueued[|enqueued| - 1]];
      assert OutcomeOk(s, call);
      var j :| GotSource(s, call, j, call.pc.src);
      assert Registered(s, j) && Registered(s, i);
    }
  }

  /** Through any interleaving of registrations, Start calls and disconnects, what a controller's
      queues received followed by what its source still buffers is exactly what was enqueued for
      that controller, in order. */
  lemma DisconnectsAreDelivered(states: seq<State>, steps: seq<Step>, n: nat, i: SetupId)
    requires Behavior(states, steps) && n < |states|
    requires i < |states[n].setups| && Succeeded(states[n].setups[i])
    ensures states[n].setups[i].src < |states[n].srcs|
    ensures Taken(states[n].srcs[states[n].setups[i].src]) ==
            AddedFor(states[n].calls, states[n].enqueued, states[n].setups[i].controller)
  {
    InvAlways(states, steps, n);
    OneSourcePerController(states[n], i, states[n].enqueued);
  }

  /** Once a controller has started a source, that source has a queue and buffers nothing any more;
      and the queue is the one of the latest such start. */
  lemma {:induction false} StartedSource(states: seq<State>, steps: seq<Step>, m: nat, n: nat)
    requires Behavior(states, steps) && m < |steps| && m < n < |states|
    requires steps[m].StartSource? && steps[m].queue.Some?
    ensures var x := steps[m].src;
            && x < |states[n].srcs| && states[n].srcs[x].queue.Some? && states[n].srcs[x].pending == []
            && ((forall k :: m < k < n ==> !(steps[k].StartSource? && steps[k].src == x && steps[k].queue.Some?)) ==>
                  states[n].srcs[x].queue == steps[m].queue)
  {
    hide OwnersOk, SetupsOk, OutcomeOk, Apply;
    var x := steps[m].src;
    if n == m + 1 {
      StartStarts(states[m], x, steps[m].queue);
    } else {
      StartedSource(states, steps, m, n - 1);
      QueueStays(states[n - 1], steps[n - 1], x);
    }
    InvAlways(states, steps, n);
    assert WellFormed(states[n].srcs[x]);
  }

  lemma StartStarts(s: State, x: SourceId, queue: Option<QueueId>)
    requires x < |s.srcs| && queue.Some?
    ensures |Apply(s, StartSource(x, queue)).srcs| == |s.srcs|
    ensures Apply(s, StartSource(x, queue)).srcs[x].queue == queue
  {
  }

  lemma QueueStays(s: State, step: Step, x: SourceId)
    requires Enabled(s, step) && x < |s.srcs| && s.srcs[x].queue.Some?
    ensures x < |Apply(s, step).srcs| && Apply(s, step).srcs[x].queue.Some?
    ensures !(step.StartSource? && step.src == x && step.queue.Some?) ==>
              Apply(s, step).srcs[x].queue == s.srcs[x].queue
  {
  }

  /** A watcher that cannot be a key is refused at once, and nothing is registered. */
  lemma NotAKey(s: State, c: CallId)
    requires Enabled(s, Enter(c)) && !s.calls[c].watcher.Comparable?
    ensures var t := Apply(s, Enter(c));
            && t == s.(calls := t.calls) && |t.calls| == |s.calls|
            && t.calls[c].pc ==
               Returned(None, Err(if s.calls[c].watcher.Nil? then "disconnect handler requires a watcher"
                                                   else "disconnect handler watcher is not comparable"))
  {
  }

  // ---------------------------------------------------------------- the critical sections as code

  /** The registry as ensureDisconnectSource updates it, one method per critical section. Every
      method takes exactly one step, so StepKeepsInv and the theorems above hold of it. */
  class Registry {
    var disconnectSources: map<Controller, SetupId>
    var setups: seq<Setup>
    var srcs: seq<Source<QueueId, Request>>
    var calls: seq<Call>
    var enqueued: seq<CallId>

    constructor ()
      ensures View() == INITIAL && Inv(View())
    {
      disconnectSources, setups, srcs, calls, enqueued := map[], [], [], [], [];
    }

    ghost function View(): State
      reads this
    {
      State(disconnectSources, setups, srcs, calls, enqueued)
    }

    method EnterRegistration(c: CallId)
      requires Enabled(View(), Enter(c))
      modifies this
      ensures View() == Apply(old(View()), Enter(c))
    {
      var watcher := calls[c].watcher;
      if watcher.Nil? {
        calls := calls[c := calls[c].(pc := Returned(None, Err(NIL_WATCHER)))];
        return;
      }
      if watcher.NotComparable? {
        calls := calls[c := calls[c].(pc := Returned(None, Err(NOT_COMPARABLE)))];
        return;
      }
      if watcher.controller in disconnectSources {
        calls := calls[c := calls[c].(pc := Waiting(disconnectSources[watcher.controller]))];
        return;
      }
      var src := |srcs|;
      srcs := srcs + [Empty()];
      var setup := |setups|;
      setups := setups + [Setup(watcher.controller, calls[c].requestType, src, 0, None, c)];
      disconnectSources := disconnectSources[watcher.controller := setup];
      calls := calls[c := calls[c].(pc := Watching(setup))];
    }

    method FinishRegistration(c: CallId, err: Option<string>) returns (result: Result<SourceId>)
      requires Enabled(View(), Finish(c, err))
      requires setups[calls[c].pc.setup].closes == 0  // closing a closed channel panics
      modifies this
      ensures View() == Apply(old(View()), Finish(c, err))
      ensures calls[c].pc.Returned? && result == calls[c].pc.result
    {
      var i := calls[c].pc.setup;
      var setup := setups[i];
      var sources := disconnectSources;
      setup := setup.(err := err);
      if err.Some? && setup.controller in sources && sources[setup.controller] == i {
        sources := sources - {setup.controller};
      }
      setup := setup.(closes := setup.closes + 1);
      result := if err.Some? then Err(err.value) else Ok(setup.src);
      disconnectSources, setups := sources, setups[i := setup];
      calls := calls[c := calls[c].(pc := Returned(Some(i), result))];
    }

    method WaitForRegistration(c: CallId) returns (result: Result<SourceId>)
      requires Enabled(View(), Wake(c))
      modifies this
      ensures View() == Apply(old(View()), Wake(c))
      ensures calls[c].pc.Returned? && result == calls[c].pc.result
    {
      var setup := setups[calls[c].pc.setup];
      if setup.err.Some? {
        result := Err(setup.err.value);
      } else if setup.requestType != calls[c].requestType {
        result := Err(OTHER_TYPE);
      } else {
        result := Ok(setup.src);
      }
      calls := calls[c := calls[c].(pc := Returned(Some(calls[c].pc.setup), result))];
    }
  }
}
