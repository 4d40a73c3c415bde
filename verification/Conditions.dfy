/** Status conditions of an object and the Ready condition that sums them up. */
module Conditions {
  import opened Common

  datatype Status = True | False | Unknown

  datatype Condition = Condition(kind: string, status: Status, reason: string, message: string, generation: int,
                                 transition: int)

  const READY := "Ready"
  const PENDING := "Pending"
  const RETRYING := "Retrying"
  const SUCCESS := "Success"
  const NOT_READY := "The following conditions are not ready"
  const SEVERITY: map<string, int> := map["AwaitingDeletion" := 3, "Failure" := 2, RETRYING := 1, PENDING := 1]

  // ---------------------------------------------------------------- finding and setting a condition

  function Find(conditions: seq<Condition>, kind: string): (r: Option<nat>)
    ensures r.Some? ==> r.value < |conditions| && conditions[r.value].kind == kind
    ensures r.Some? ==> forall i :: 0 <= i < r.value ==> conditions[i].kind != kind
    ensures r.None? ==> forall i :: 0 <= i < |conditions| ==> conditions[i].kind != kind
  {
    if conditions == [] then None
    else if conditions[0].kind == kind then Some(0)
    else
      var rest := Find(conditions[1..], kind);
      if rest.Some? then Some(rest.value + 1) else None
  }

  /** The first condition of that kind is overwritten, or the condition is appended. The transition
      time only moves when the status does. */
  function WithCondition(conditions: seq<Condition>, c: Condition, now: int): seq<Condition> {
    match Find(conditions, c.kind)
    case None => conditions + [c.(transition := now)]
    case Some(i) =>
      conditions[i := c.(transition := if conditions[i].status == c.status then conditions[i].transition else now)]
  }

  // ---------------------------------------------------------------- the summary

  /** A condition that keeps the object from being ready. */
  predicate Counts(c: Condition, excluded: set<string>) {
    c.kind != READY && c.kind !in excluded && !c.status.True?
  }

  function HighestSeverity(first: string, second: string): string {
    if first !in SEVERITY && second !in SEVERITY then PENDING
    else if first !in SEVERITY then second
    else if second !in SEVERITY then first
    else if SEVERITY[first] > SEVERITY[second] then first
    else second
  }

  /** What one pass over the conditions finds. */
  datatype Findings = Findings(stale: bool, unready: seq<string>, reason: string)

  function Look(f: Findings, c: Condition, generation: int, excluded: set<string>): Findings {
    if !Counts(c, excluded) then f
    else if c.generation != generation then f.(stale := true)
    else f.(unready := f.unready + [c.kind], reason := HighestSeverity(f.reason, c.reason))
  }

  function Survey(conditions: seq<Condition>, generation: int, excluded: set<string>): Findings {
    if conditions == [] then Findings(false, [], PENDING)
    else Look(Survey(conditions[..|conditions| - 1], generation, excluded),
              conditions[|conditions| - 1], generation, excluded)
  }

  function Listed(unready: seq<string>): string {
    if unready == [] then "" else Listed(unready[..|unready| - 1]) + "\n* " + unready[|unready| - 1]
  }

  function Message(unready: seq<string>): string {
    if unready == [] then "" else NOT_READY + ":" + Listed(unready)
  }

  function Summary(f: Findings, generation: int): Condition {
    if f.unready == [] && !f.stale then Condition(READY, True, SUCCESS, "", generation, 0)
    else Condition(READY, False, f.reason,
                   if f.unready == [] then "Reconciliation is in progress" else Message(f.unready),
                   generation, 0)
  }

  function SummaryOf(conditions: seq<Condition>, generation: int, excluded: set<string>): Condition {
    Summary(Survey(conditions, generation, excluded), generation)
  }

  class Object {
    var conditions: seq<Condition>
    const generation: int

    constructor (conditions: seq<Condition>, generation: int)
      ensures this.conditions == conditions && this.generation == generation
    {
      this.conditions, this.generation := conditions, generation;
    }

    method SetSummary(excluded: set<string>, now: int)
      modifies this
      ensures conditions == WithCondition(old(conditions), SummaryOf(old(conditions), generation, excluded), now)
    {
      var stale, unready, reason := false, [], PENDING;
      for i := 0 to |conditions|
        invariant conditions == old(conditions)
        invariant Survey(conditions[..i], generation, excluded) == Findings(stale, unready, reason)
      {
        var c := conditions[i];
        assert conditions[..i + 1][..i] == conditions[..i];
        if c.kind == READY || c.kind in excluded || c.status.True? {
          continue;
        }
        if c.generation != generation {
          stale := true;
          continue;
        }
        reason := HighestSeverity(reason, c.reason);
        unready := unready + [c.kind];
      }
      assert conditions[..|conditions|] == conditions;
      if unready == [] && !stale {
        conditions := WithCondition(conditions, Condition(READY, True, SUCCESS, "", generation, 0), now);
        return;
      }
      var message := ReadyConditionMessage(NOT_READY, unready);
      if stale && message == "" {
        message := "Reconciliation is in progress";
      }
      conditions := WithCondition(conditions, Condition(READY, False, reason, message, generation, 0), now);
    }

    method ReadyConditionMessage(message: string, unready: seq<string>) returns (output: string)
      ensures output == if unready == [] then "" else message + ":" + Listed(unready)
    {
      if unready == [] {
        return "";
      }
      output := message + ":";
      for i := 0 to |unready|
        invariant output == message + ":" + Listed(unready[..i])
      {
        assert unready[..i + 1][..i] == unready[..i];
        output := output + ("\n* " + unready[i]);
      }
      assert unready[..|unready|] == unready;
    }

    /** Every wanted condition is there afterwards; those that were missing are Unknown and Pending. */
    method EnsureConditions(wanted: seq<string>, now: int)
      modifies this
      ensures |old(conditions)| <= |conditions| && conditions[..|old(conditions)|] == old(conditions)
      ensures forall kind :: kind in wanted ==> Find(conditions, kind).Some?
      ensures forall i :: |old(conditions)| <= i < |conditions| ==>
                && conditions[i] == Condition(conditions[i].kind, Unknown, PENDING, "", generation, now)
                && conditions[i].kind in wanted && forall j :: 0 <= j < i ==> conditions[j].kind != conditions[i].kind
    {
      for k := 0 to |wanted|
        invariant |old(conditions)| <= |conditions| && conditions[..|old(conditions)|] == old(conditions)
        invariant forall x :: 0 <= x < k ==> Find(conditions, wanted[x]).Some?
        invariant forall i :: |old(conditions)| <= i < |conditions| ==>
                    && conditions[i] == Condition(conditions[i].kind, Unknown, PENDING, "", generation, now)
                    && conditions[i].kind in wanted
                    && forall j :: 0 <= j < i ==> conditions[j].kind != conditions[i].kind
      {
        ghost var before := conditions;
        if Find(conditions, wanted[k]).None? {
          conditions := WithCondition(conditions, Condition(wanted[k], Unknown, PENDING, "", generation, 0), now);
          assert conditions[|before|].kind == wanted[k];
        }
        forall x | 0 <= x <= k ensures Find(conditions, wanted[x]).Some? {
          if x < k {
            var i := Find(before, wanted[x]).value;
            assert conditions[i].kind == wanted[x];
          }
        }
      }
    }
  }

  // ---------------------------------------------------------------- what the summary means

  /** A condition whose reason the summary takes into account. */
  predicate Weighs(c: Condition, generation: int, excluded: set<string>) {
    Counts(c, excluded) && c.generation == generation && c.reason in SEVERITY
  }

  /** `reason` is that of the last of the most severe conditions, or Pending if none has a severity. */
  ghost predicate Worst(conditions: seq<Condition>, generation: int, excluded: set<string>, reason: string) {
    || (reason == PENDING && forall i :: 0 <= i < |conditions| ==> !Weighs(conditions[i], generation, excluded))
    || exists i :: WorstAt(conditions, generation, excluded, i) && conditions[i].reason == reason
  }

  ghost predicate WorstAt(conditions: seq<Condition>, generation: int, excluded: set<string>, i: int) {
    && 0 <= i < |conditions| && Weighs(conditions[i], generation, excluded)
    && forall j :: 0 <= j < |conditions| && Weighs(conditions[j], generation, excluded) ==>
         SEVERITY[conditions[j].reason] <= SEVERITY[conditions[i].reason]
         && (j > i ==> SEVERITY[conditions[j].reason] < SEVERITY[conditions[i].reason])
  }

  lemma {:induction false} SurveyFinds(conditions: seq<Condition>, generation: int, excluded: set<string>)
    ensures var f := Survey(conditions, generation, excluded);
            && (f.unready == [] && !f.stale <==> forall c :: c in conditions ==> !Counts(c, excluded))
            && (f.unready == [] <==>
                 forall c :: c in conditions ==> !(Counts(c, excluded) && c.generation == generation))
            && (forall kind :: kind in f.unready <==>
                  exists c :: c in conditions && Counts(c, excluded) && c.generation == generation && c.kind == kind)
  {
    if conditions != [] {
      var init := conditions[..|conditions| - 1];
      SurveyFinds(init, generation, excluded);
      assert conditions == init + [conditions[|conditions| - 1]];
    }
  }

  /** One more condition becomes the worst one if it weighs at least as much as the worst so far. */
  lemma WorstSoFar(init: seq<Condition>, c: Condition, generation: int, excluded: set<string>, i: int)
    requires WorstAt(init, generation, excluded, i)
    ensures WorstAt(init + [c], generation, excluded,
                    if Weighs(c, generation, excluded) && SEVERITY[c.reason] >= SEVERITY[init[i].reason]
                    then |init| else i)
  {
    var all := init + [c];
    assert all[|init|] == c && forall j :: 0 <= j < |init| ==> all[j] == init[j];
  }

  lemma {:induction false} SurveyWeighs(conditions: seq<Condition>, generation: int, excluded: set<string>)
    ensures Worst(conditions, generation, excluded, Survey(conditions, generation, excluded).reason)
  {
    if conditions != [] {
      var n := |conditions| - 1;
      var init, c := conditions[..n], conditions[n];
      SurveyWeighs(init, generation, excluded);
      var before := Survey(init, generation, excluded).reason;
      WorstOfMore(init, c, generation, excluded, before);
      assert init + [c] == conditions;
    }
  }

  lemma WorstOfMore(init: seq<Condition>, c: Condition, generation: int, excluded: set<string>, before: string)
    requires Worst(init, generation, excluded, before)
    ensures Worst(init + [c], generation, excluded,
                  if Counts(c, excluded) && c.generation == generation
                  then HighestSeverity(before, c.reason) else before)
  {
    if i :| WorstAt(init, generation, excluded, i) && init[i].reason == before {
      WorstSoFar(init, c, generation, excluded, i);
    } else if Weighs(c, generation, excluded) {
      assert WorstAt(init + [c], generation, excluded, |init|);
    }
  }

  /** Ready is True exactly if every other condition that is not excluded is True; otherwise the
      reason is the worst one of those that are not True and up to date. */
  lemma ReadyIffAllTrue(conditions: seq<Condition>, generation: int, excluded: set<string>)
    ensures var ready := SummaryOf(conditions, generation, excluded);
            && ready.kind == READY && ready.generation == generation && !ready.status.Unknown?
            && (ready.status.True? <==>
                  forall c :: c in conditions && c.kind != READY && c.kind !in excluded ==> c.status.True?)
            && (ready.status.False? ==> Worst(conditions, generation, excluded, ready.reason))
            && (ready.status.True? ==> ready.reason == "Success")
  {
    SurveyFinds(conditions, generation, excluded);
    SurveyWeighs(conditions, generation, excluded);
  }

  /** The message names the up-to-date conditions that are not True, each once and in their order. */
  lemma {:induction false} UnreadyInOrder(conditions: seq<Condition>, generation: int, excluded: set<string>)
    returns (at: seq<int>)
    ensures |at| == |Survey(conditions, generation, excluded).unready|
    ensures forall i :: 0 <= i < |at| ==>
              0 <= at[i] < |conditions| && conditions[at[i]].kind == Survey(conditions, generation, excluded).unready[i]
    ensures forall i, j :: 0 <= i < j < |at| ==> at[i] < at[j]
    ensures forall k :: 0 <= k < |conditions| ==>
              (k in at <==> Counts(conditions[k], excluded) && conditions[k].generation == generation)
  {
    at := [];
    if conditions != [] {
      var n := |conditions| - 1;
      at := UnreadyInOrder(conditions[..n], generation, excluded);
      if Counts(conditions[n], excluded) && conditions[n].generation == generation {
        at := at + [n];
      }
    }
  }

  /** The order of the conditions matters only for a tie between Pending and Retrying. */
  lemma OrderOnlyBreaksTies(a: seq<Condition>, b: seq<Condition>, generation: int, excluded: set<string>)
    requires multiset(a) == multiset(b)
    ensures var x, y := SummaryOf(a, generation, excluded), SummaryOf(b, generation, excluded);
            x.status == y.status && (x.reason == y.reason || {x.reason, y.reason} == {PENDING, RETRYING})
  {
    assert forall c :: c in a <==> c in b by {
      forall c ensures c in a <==> c in b {
        assert c in multiset(a) <==> c in multiset(b);
      }
    }
    SurveyFinds(a, generation, excluded);
    SurveyFinds(b, generation, excluded);
    SurveyWeighs(a, generation, excluded);
    SurveyWeighs(b, generation, excluded);
    SameWorst(a, b, generation, excluded, Survey(a, generation, excluded).reason,
              Survey(b, generation, excluded).reason);
  }

  lemma SameWorst(a: seq<Condition>, b: seq<Condition>, generation: int, excluded: set<string>, r: string, q: string)
    requires forall c :: c in a <==> c in b
    requires Worst(a, generation, excluded, r) && Worst(b, generation, excluded, q)
    ensures r == q || {r, q} == {PENDING, RETRYING}
  {
    if exists i :: WorstAt(a, generation, excluded, i) && a[i].reason == r {
      var i :| WorstAt(a, generation, excluded, i) && a[i].reason == r;
      assert a[i] in b;
      var j :| WorstAt(b, generation, excluded, j) && b[j].reason == q;
      assert b[j] in a;
      assert SEVERITY[r] == SEVERITY[q];
    } else {
      assert forall c :: c in a ==> !Weighs(c, generation, excluded);
      assert forall j :: 0 <= j < |b| ==> b[j] in a;
    }
  }

  /** The conditions that can influence the summary. */
  function Relevant(conditions: seq<Condition>, excluded: set<string>): seq<Condition> {
    if conditions == [] then []
    else
      var n := |conditions| - 1;
      Relevant(conditions[..n], excluded) + if Counts(conditions[n], excluded) then [conditions[n]] else []
  }

  lemma {:induction false} SurveyOfRelevant(conditions: seq<Condition>, generation: int, excluded: set<string>)
    ensures Survey(conditions, generation, excluded) == Survey(Relevant(conditions, excluded), generation, excluded)
  {
    if conditions != [] {
      var n := |conditions| - 1;
      SurveyOfRelevant(conditions[..n], generation, excluded);
      var r := Relevant(conditions[..n], excluded);
      assert (r + [conditions[n]])[..|r|] == r && r + [] == r;
    }
  }

  /** Excluded conditions, True ones and Ready itself have no influence, wherever they stand. */
  lemma OthersHaveNoInfluence(a: seq<Condition>, b: seq<Condition>, generation: int, excluded: set<string>)
    requires Relevant(a, excluded) == Relevant(b, excluded)
    ensures SummaryOf(a, generation, excluded) == SummaryOf(b, generation, excluded)
  {
    SurveyOfRelevant(a, generation, excluded);
    SurveyOfRelevant(b, generation, excluded);
  }

  lemma {:induction false} ReadyIsIrrelevant(conditions: seq<Condition>, ready: Condition, now: int,
                                             excluded: set<string>)
    requires ready.kind == READY
    ensures Relevant(WithCondition(conditions, ready, now), excluded) == Relevant(conditions, excluded)
  {
    var after := WithCondition(conditions, ready, now);
    if Find(conditions, READY).None? {
      assert after[..|conditions|] == conditions;
    } else {
      SameRelevant(conditions, after, excluded);
    }
  }

  lemma {:induction false} SameRelevant(a: seq<Condition>, b: seq<Condition>, excluded: set<string>)
    requires |a| == |b| && forall j :: 0 <= j < |a| ==> a[j] == b[j] || (a[j].kind == READY && b[j].kind == READY)
    ensures Relevant(a, excluded) == Relevant(b, excluded)
  {
    if a != [] {
      SameRelevant(a[..|a| - 1], b[..|b| - 1], excluded);
    }
  }

  lemma SetTwice(conditions: seq<Condition>, c: Condition, now: int, later: int)
    ensures WithCondition(WithCondition(conditions, c, now), c, later) == WithCondition(conditions, c, now)
  {
    var once := WithCondition(conditions, c, now);
    var i := if Find(conditions, c.kind).Some? then Find(conditions, c.kind).value else |conditions|;
    assert once[i].kind == c.kind && forall j :: 0 <= j < i ==> once[j].kind != c.kind;
    assert Find(once, c.kind) == Some(i);
  }

  /** Summing up again changes nothing, at any later time. */
  lemma SummaryIsFixpoint(conditions: seq<Condition>, generation: int, excluded: set<string>, now: int, later: int)
    ensures var once := WithCondition(conditions, SummaryOf(conditions, generation, excluded), now);
            WithCondition(once, SummaryOf(once, generation, excluded), later) == once
  {
    var ready := SummaryOf(conditions, generation, excluded);
    ReadyIsIrrelevant(conditions, ready, now, excluded);
    OthersHaveNoInfluence(conditions, WithCondition(conditions, ready, now), generation, excluded);
    SetTwice(conditions, ready, now, later);
  }

  /** Setting Ready touches no other entry, and its transition time moves only with its status. */
  lemma OnlyReadyChanges(conditions: seq<Condition>, ready: Condition, now: int)
    requires ready.kind == READY
    ensures var after := WithCondition(conditions, ready, now);
            var i := if Find(conditions, READY).Some? then Find(conditions, READY).value else |conditions|;
            && |after| == (if i < |conditions| then |conditions| else |conditions| + 1)
            && (forall j :: 0 <= j < |conditions| && j != i ==> after[j] == conditions[j])
            && Find(after, READY) == Some(i)
            && after[i].(transition := ready.transition) == ready
            && (i < |conditions| && conditions[i].status == ready.status ==>
               after[i].transition == conditions[i].transition)
            && (i == |conditions| || conditions[i].status != ready.status ==> after[i].transition == now)
  {
    var after := WithCondition(conditions, ready, now);
    var i := if Find(conditions, READY).Some? then Find(conditions, READY).value else |conditions|;
    assert after[i].kind == READY && forall j :: 0 <= j < i ==> after[j].kind != READY;
  }

  // ---------------------------------------------------------------- the reason and the message, spelled out

  /** An up-to-date condition with that reason keeps the object from being ready. */
  ghost predicate Blames(conditions: seq<Condition>, generation: int, excluded: set<string>, reason: string) {
    exists i :: 0 <= i < |conditions| && BlamesAt(conditions[i], generation, excluded, reason)
  }

  predicate BlamesAt(c: Condition, generation: int, excluded: set<string>, reason: string) {
    && c.kind != "Ready" && c.kind !in excluded && c.status != True && c.generation == generation
    && c.reason == reason
  }

  /** Deletion comes before failure, failure before all else. Between Pending and Retrying the later
      one counts, any other reason does not, and Pending is the reason if there is no other. */
  lemma ReasonIs(conditions: seq<Condition>, generation: int, excluded: set<string>)
    requires !SummaryOf(conditions, generation, excluded).status.True?
    ensures var reason := SummaryOf(conditions, generation, excluded).reason;
            if Blames(conditions, generation, excluded, "AwaitingDeletion") then reason == "AwaitingDeletion"
            else if Blames(conditions, generation, excluded, "Failure") then reason == "Failure"
            else if LastIsRetrying(conditions, generation, excluded) then reason == "Retrying"
            else reason == "Pending"
  {
    SurveyWeighs(conditions, generation, excluded);
    var reason := Survey(conditions, generation, excluded).reason;
    Distinct();
    hide Survey;
    if i :| WorstAt(conditions, generation, excluded, i) && conditions[i].reason == reason {
      assert BlamesAt(conditions[i], generation, excluded, reason);
      forall j, r | 0 <= j < |conditions| && r in SEVERITY && BlamesAt(conditions[j], generation, excluded, r)
        ensures SEVERITY[r] <= SEVERITY[reason] && (j > i ==> SEVERITY[r] < SEVERITY[reason])
      {
        assert Weighs(conditions[j], generation, excluded);
      }
    } else {
      forall j, r | 0 <= j < |conditions| && r in SEVERITY ensures !BlamesAt(conditions[j], generation, excluded, r) {
        assert !Weighs(conditions[j], generation, excluded);
      }
    }
  }

  /** Some condition blames Retrying, and no later one blames Pending. */
  ghost predicate LastIsRetrying(conditions: seq<Condition>, generation: int, excluded: set<string>) {
    exists i :: 0 <= i < |conditions| && BlamesAt(conditions[i], generation, excluded, "Retrying")
                && forall j :: i < j < |conditions| ==> !BlamesAt(conditions[j], generation, excluded, "Pending")
  }

  lemma Distinct()
    ensures SEVERITY.Keys == {"AwaitingDeletion", "Failure", "Retrying", "Pending"}
    ensures SEVERITY["AwaitingDeletion"] == 3 && SEVERITY["Failure"] == 2
    ensures SEVERITY["Retrying"] == 1 && SEVERITY["Pending"] == 1
  {
    assert |"AwaitingDeletion"| == 16 && |"Failure"| == 7 && |"Retrying"| == 8 && "Pending"[0] == 'P';
  }

  /** One bullet per condition, in order. */
  function Bullets(unready: seq<string>): string {
    if unready == [] then "" else "\n* " + unready[0] + Bullets(unready[1..])
  }

  lemma {:induction false} ListedIsBullets(unready: seq<string>)
    ensures Listed(unready) == Bullets(unready)
  {
    if |unready| > 1 {
      var n := |unready| - 1;
      var init := unready[..n];
      ListedIsBullets(init);
      assert Bullets(unready) == Bullets(init) + "\n* " + unready[n] by {
        BulletsAppend(init, unready[n]);
        assert init + [unready[n]] == unready;
      }
    } else if |unready| == 1 {
      assert unready[..0] == [] && unready[1..] == [];
    }
  }

  lemma {:induction false} BulletsAppend(unready: seq<string>, one: string)
    ensures Bullets(unready + [one]) == Bullets(unready) + "\n* " + one
  {
    if unready == [] {
      assert ([] + [one])[1..] == [];
    } else {
      assert (unready + [one])[1..] == unready[1..] + [one];
      BulletsAppend(unready[1..], one);
    }
  }

  /** The message is empty if Ready is True; it names the up-to-date conditions that are not True; and
      if there are none, but stale ones, it says that reconciliation goes on. */
  lemma MessageIs(conditions: seq<Condition>, generation: int, excluded: set<string>)
    ensures var ready := SummaryOf(conditions, generation, excluded);
            var unready := Survey(conditions, generation, excluded).unready;
            ready.message ==
              if ready.status.True? then ""
              else if unready == [] then "Reconciliation is in progress"
              else "The following conditions are not ready:" + Bullets(unready)
  {
    ListedIsBullets(Survey(conditions, generation, excluded).unready);
    assert NOT_READY + ":" == "The following conditions are not ready:";
  }
}
