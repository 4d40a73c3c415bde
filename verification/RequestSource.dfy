/** The disconnect source: reconcile requests are buffered until the controller hands over its
    work queue, and go straight to that queue from then on. Every method body runs under the
    source's mutex, so an execution is a sequence of whole calls in lock order. */
module RequestSources {
  import opened Common

  // ---------------------------------------------------------------- specification

  /** `log` records every request handed to a work queue, with the queue that received it. */
  datatype Source<Q, R> = Source(queue: Option<Q>, pending: seq<R>, log: seq<(Q, R)>)

  function Empty<Q, R>(): Source<Q, R> {
    Source(None, [], [])
  }

  function Tag<Q, R>(q: Q, requests: seq<R>): (tagged: seq<(Q, R)>)
    ensures |tagged| == |requests|
    ensures forall i :: 0 <= i < |requests| ==> tagged[i] == (q, requests[i])
  {
    seq(|requests|, i requires 0 <= i < |requests| => (q, requests[i]))
  }

  function AfterAdd<Q, R>(s: Source<Q, R>, requests: seq<R>): Source<Q, R> {
    match s.queue
    case None => s.(pending := s.pending + requests)
    case Some(q) => s.(log := s.log + Tag(q, requests))
  }

  /** A nil queue is refused and leaves the source as it was. */
  function AfterStart<Q, R>(s: Source<Q, R>, q: Option<Q>): Source<Q, R> {
    match q
    case None => s
    case Some(queue) => Source(Some(queue), [], s.log + Tag(queue, s.pending))
  }

  // ---------------------------------------------------------------- the mutable source

  /** The controller's work queue, as the requests passed to its Add method. */
  class WorkQueue<R> {
    var added: seq<R>

    constructor ()
      ensures added == []
    {
      added := [];
    }

    method Add(request: R)
      modifies this
      ensures added == old(added) + [request]
    {
      added := added + [request];
    }
  }

  function Present<R>(q: WorkQueue?<R>): Option<WorkQueue<R>> {
    if q == null then None else var queue: WorkQueue<R> := q; Some(queue)
  }

  class RequestSource<R> {
    var queue: WorkQueue?<R>
    var pending: seq<R>
    ghost var log: seq<(WorkQueue<R>, R)>

    constructor ()
      ensures View() == Empty()
    {
      queue, pending, log := null, [], [];
    }

    ghost function View(): Source<WorkQueue<R>, R>
      reads this
    {
      Source(Present(queue), pending, log)
    }

    method Start(q: WorkQueue?<R>) returns (result: Result<()>)
      modifies this, q
      ensures View() == AfterStart(old(View()), Present(q))
      ensures result.Ok? <==> q != null
      ensures q != null ==> q.added == old(q.added) + old(pending)
    {
      if q == null {
        return Err("disconnect source requires a work queue");
      }
      queue := q;
      for i := 0 to |pending|
        invariant queue == q && pending == old(pending)
        invariant q.added == old(q.added) + pending[..i]
        invariant log == old(log) + Tag(q, pending[..i])
      {
        q.Add(pending[i]);
        log := log + [(q, pending[i])];
        assert pending[..i + 1] == pending[..i] + [pending[i]];
      }
      assert pending[..|pending|] == pending;
      pending := [];
      return Ok(());
    }

    method Add(requests: seq<R>)
      modifies this, queue
      ensures View() == AfterAdd(old(View()), requests)
      ensures queue == old(queue)
      ensures queue != null ==> queue.added == old(queue.added) + requests
    {
      if queue == null {
        pending := pending + requests;
        return;
      }
      for i := 0 to |requests|
        invariant queue == old(queue) && pending == old(pending)
        invariant queue.added == old(queue.added) + requests[..i]
        invariant log == old(log) + Tag(queue, requests[..i])
      {
        queue.Add(requests[i]);
        log := log + [(queue, requests[i])];
        assert requests[..i + 1] == requests[..i] + [requests[i]];
      }
      assert requests[..|requests|] == requests;
    }
  }

  // ---------------------------------------------------------------- whole executions

  datatype Event<Q, R> = Added(requests: seq<R>) | Started(queue: Option<Q>)

  function After<Q, R>(s: Source<Q, R>, e: Event<Q, R>): Source<Q, R> {
    match e
    case Added(requests) => AfterAdd(s, requests)
    case Started(q) => AfterStart(s, q)
  }

  function Run<Q, R>(events: seq<Event<Q, R>>): Source<Q, R> {
    if events == [] then Empty()
    else
      After(Run(events[..|events| - 1]), events[|events| - 1])
  }

  function AllAdded<Q, R>(events: seq<Event<Q, R>>): seq<R> {
    if events == [] then []
    else
      AllAdded(events[..|events| - 1]) +
      match events[|events| - 1]
      case Added(requests) => requests
      case Started(_) => []
  }

  function Requests<Q, R>(log: seq<(Q, R)>): (requests: seq<R>)
    ensures |requests| == |log|
    ensures forall i :: 0 <= i < |log| ==> requests[i] == log[i].1
  {
    seq(|log|, i requires 0 <= i < |log| => log[i].1)
  }

  /** Every request the source has taken in: those handed over, then those still pending. */
  function Taken<Q, R>(s: Source<Q, R>): seq<R> {
    Requests(s.log) + s.pending
  }

  /** A started source buffers nothing, and one that was never started has handed over nothing. */
  ghost predicate WellFormed<Q, R>(s: Source<Q, R>) {
    && (s.queue.Some? ==> s.pending == [])
    && (s.queue.None? ==> s.log == [])
  }

  lemma AddTakes<Q, R>(s: Source<Q, R>, requests: seq<R>)
    requires WellFormed(s)
    ensures WellFormed(AfterAdd(s, requests))
    ensures Taken(AfterAdd(s, requests)) == Taken(s) + requests
  {
    if s.queue.Some? {
      assert Requests(s.log + Tag(s.queue.value, requests)) == Requests(s.log) + requests;
    }
  }

  lemma StartTakes<Q, R>(s: Source<Q, R>, q: Option<Q>)
    requires WellFormed(s)
    ensures WellFormed(AfterStart(s, q))
    ensures Taken(AfterStart(s, q)) == Taken(s)
  {
    if q.Some? {
      assert Requests(s.log + Tag(q.value, s.pending)) == Requests(s.log) + s.pending;
    }
  }

  /** Nothing is lost, duplicated or reordered, whatever the order of Add and Start calls and
      however many of the Start calls fail on a nil queue. */
  lemma {:induction false} Conservation<Q, R>(events: seq<Event<Q, R>>)
    ensures WellFormed(Run(events))
    ensures Taken(Run(events)) == AllAdded(events)
  {
    if events != [] {
      var before := events[..|events| - 1];
      Conservation(before);
      match events[|events| - 1]
      case Added(requests) => AddTakes(Run(before), requests);
      case Started(q) => StartTakes(Run(before), q);
    }
  }

  /** The queue of the latest successful Start among the first `n` events. */
  function LatestQueue<Q, R>(events: seq<Event<Q, R>>, n: nat): Option<Q>
    requires n <= |events|
  {
    if n == 0 then None
    else if events[n - 1].Started? && events[n - 1].queue.Some? then events[n - 1].queue
    else LatestQueue(events, n - 1)
  }

  /** The queue of the first successful Start from event `n` on. */
  function FirstQueue<Q, R>(events: seq<Event<Q, R>>, n: nat): Option<Q>
    requires n <= |events|
    decreases |events| - n
  {
    if n == |events| then None
    else if events[n].Started? && events[n].queue.Some? then events[n].queue
    else FirstQueue(events, n + 1)
  }

  /** Where the requests of event `n` belong: to the queue in force when they were added, or, if
      the source had not been started, to the queue of the Start that came next. */
  function Destination<Q, R>(events: seq<Event<Q, R>>, n: nat): Option<Q>
    requires n <= |events|
  {
    if LatestQueue(events, n).Some? then LatestQueue(events, n) else FirstQueue(events, n)
  }

  /** The log that sends every request of the first `n` events to its destination. */
  function Routed<Q, R>(events: seq<Event<Q, R>>, n: nat): seq<(Q, R)>
    requires n <= |events|
  {
    if n == 0 then []
    else
      Routed(events, n - 1) +
      if events[n - 1].Added? && Destination(events, n - 1).Some?
      then Tag(Destination(events, n - 1).value, events[n - 1].requests)
      else []
  }

  /** Every request reaches exactly the queue it belongs to. */
  lemma {:induction false} Routing<Q, R>(events: seq<Event<Q, R>>)
    ensures Run(events).log == Routed(events, |events|)
    ensures Run(events).pending == if LatestQueue(events, |events|).Some? then [] else AllAdded(events)
  {
    RoutingPrefix(events, |events|);
    assert events[..|events|] == events;
  }

  /** After `n` events the source has carried out the routing of those events, except that before
      the first successful Start the routed requests are still pending. */
  ghost predicate RoutedSoFar<Q, R>(events: seq<Event<Q, R>>, n: nat)
    requires n <= |events|
  {
    var s := Run(events[..n]);
    && s.queue == LatestQueue(events, n)
    && if s.queue.Some? then
         s.pending == [] && s.log == Routed(events, n)
       else
         && s.log == []
         && s.pending == AllAdded(events[..n])
         && Routed(events, n) == TagFirst(FirstQueue(events, n), s.pending)
  }

  function TagFirst<Q, R>(q: Option<Q>, requests: seq<R>): seq<(Q, R)> {
    match q
    case None => []
    case Some(queue) => Tag(queue, requests)
  }

  lemma {:induction false} RoutingPrefix<Q, R>(events: seq<Event<Q, R>>, n: nat)
    requires n <= |events|
    ensures RoutedSoFar(events, n)
  {
    hide RoutedSoFar;
    if n == 0 {
      NothingRouted(events);
    } else {
      RoutingPrefix(events, n - 1);
      if events[n - 1].Added? {
        RoutingAdded(events, n);
      } else {
        RoutingStarted(events, n);
      }
    }
  }

  lemma NothingRouted<Q, R>(events: seq<Event<Q, R>>)
    ensures RoutedSoFar(events, 0)
  {
    assert events[..0] == [];
  }

  lemma RoutingAdded<Q, R>(events: seq<Event<Q, R>>, n: nat)
    requires 0 < n <= |events| && RoutedSoFar(events, n - 1) && events[n - 1].Added?
    ensures RoutedSoFar(events, n)
  {
    hide Tag, AllAdded, Run;
    var before, requests := events[..n - 1], events[n - 1].requests;
    assert events[..n] == before + [events[n - 1]];
    RunStep(before, events[n - 1]);
    assert FirstQueue(events, n - 1) == FirstQueue(events, n);
    TagFirstOfSum(FirstQueue(events, n), Run(before).pending, requests);
  }

  lemma RoutingStarted<Q, R>(events: seq<Event<Q, R>>, n: nat)
    requires 0 < n <= |events| && RoutedSoFar(events, n - 1) && events[n - 1].Started?
    ensures RoutedSoFar(events, n)
  {
    hide Tag, AllAdded, Run;
    var before := events[..n - 1];
    assert events[..n] == before + [events[n - 1]];
    RunStep(before, events[n - 1]);
  }

  lemma RunStep<Q, R>(events: seq<Event<Q, R>>, e: Event<Q, R>)
    ensures Run(events + [e]) == After(Run(events), e)
    ensures AllAdded(events + [e]) == AllAdded(events) + if e.Added? then e.requests else []
  {
    assert (events + [e])[..|events|] == events;
  }

  lemma TagFirstOfSum<Q, R>(q: Option<Q>, a: seq<R>, b: seq<R>)
    ensures TagFirst(q, a + b) == TagFirst(q, a) + TagFirst(q, b)
  {
    if q.Some? {
      var sum, parts := Tag(q.value, a + b), Tag(q.value, a) + Tag(q.value, b);
      forall i | 0 <= i < |a + b| ensures sum[i] == parts[i] {
      }
    }
  }
}
