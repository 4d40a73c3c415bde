/** What pruning guarantees of the tree that is left. */
module PruneTheorems {
  import opened Common
  import opened TreeShape
  import opened TreeObjects
  import opened TreePruning
  import opened TreeSpec

  /** The first Ready condition of an object. */
  ghost predicate FirstReady(o: Object, i: nat) {
    i < |o.conditions| && o.conditions[i].kind == "Ready" && forall j :: 0 <= j < i ==> o.conditions[j].kind != "Ready"
  }

  predicate Troubles(c: Condition, showPending: bool) {
    c.status != ConditionTrue && (showPending || c.status != ConditionUnknown || c.reason != "Pending")
  }

  /** Its Ready condition is not True; or it has none, and some other condition is not True, where an
      Unknown one that is Pending counts only on request. */
  ghost predicate InTrouble(o: Object, showPending: bool) {
    || (exists i: nat :: FirstReady(o, i) && o.conditions[i].status != ConditionTrue)
    || ((forall i: nat :: !FirstReady(o, i)) && exists c :: c in o.conditions && Troubles(c, showPending))
  }

  lemma {:induction false} FindReadyFinds(conditions: seq<Condition>)
    ensures FindReady(conditions).None? ==> forall j :: 0 <= j < |conditions| ==> conditions[j].kind != "Ready"
    ensures FindReady(conditions).Some? ==>
              exists i :: 0 <= i < |conditions| && conditions[i] == FindReady(conditions).value
                          && conditions[i].kind == "Ready" && forall j :: 0 <= j < i ==> conditions[j].kind != "Ready"
  {
    if conditions != [] && conditions[0].kind != READY {
      var rest := conditions[1..];
      FindReadyFinds(rest);
      if FindReady(rest).Some? {
        var i :| 0 <= i < |rest| && rest[i] == FindReady(rest).value && rest[i].kind == "Ready"
                 && forall j :: 0 <= j < i ==> rest[j].kind != "Ready";
        assert conditions[i + 1] == rest[i];
        forall j | 0 <= j < i + 1 ensures conditions[j].kind != "Ready" {
          assert j > 0 ==> conditions[j] == rest[j - 1];
        }
      } else {
        forall j | 0 <= j < |conditions| ensures conditions[j].kind != "Ready" {
          assert j > 0 ==> conditions[j] == rest[j - 1];
        }
      }
    } else if conditions != [] {
      assert conditions[0] == FindReady(conditions).value;
    }
  }

  lemma HealthyIffNoTrouble(o: Object, showPending: bool)
    ensures IsHealthy(o, showPending) <==> !InTrouble(o, showPending)
  {
    FindReadyFinds(o.conditions);
    if ReadyOf(o).Some? {
      var i :| 0 <= i < |o.conditions| && o.conditions[i] == ReadyOf(o).value
               && o.conditions[i].kind == "Ready" && forall j :: 0 <= j < i ==> o.conditions[j].kind != "Ready";
      assert FirstReady(o, i);
      assert forall j: nat :: FirstReady(o, j) ==> j == i;
    } else {
      assert forall j: nat :: !FirstReady(o, j);
      if i :| 0 <= i < |o.conditions| && o.conditions[i].status != ConditionTrue
              && (showPending || !IsPending(o.conditions[i])) {
        assert o.conditions[i] in o.conditions;
      }
    }
  }

  /** Pruning keeps a node below the root exactly when it or something below it is in trouble, and
      keeps every node that is not below the root. What stays is unchanged. */
  lemma SurvivesIffUnhealthy(t: Tree, root: Uid, showPending: bool, k: Uid)
    requires ValidTree(t) && k in t.items
    ensures var after := Pruned(t, root, showPending);
            && (k in after.items <==>
                Below(t.parentship, k, root) ==>
                  exists d :: d in t.items && AtOrBelow(t.parentship, d, k) && InTrouble(t.items[d], showPending))
            && (k in after.items ==> after.items[k] == t.items[k] && after.parentship[k] == t.parentship[k])
  {
    hide IsHealthy, InTrouble;
    var p := t.parentship;
    forall d | d in t.items ensures IsHealthy(t.items[d], showPending) <==> !InTrouble(t.items[d], showPending) {
      HealthyIffNoTrouble(t.items[d], showPending);
    }
    if d :| d in t.items && AtOrBelow(p, d, k) && !IsHealthy(t.items[d], showPending) {
      AtOrBelowStep(p, d, k);
      assert d == k || d in Subtree(p, k);
    } else {
      AtOrBelowSelf(p, k);
      forall d | d in Subtree(p, k) ensures d in HealthyOnes(t, showPending) {
        AtOrBelowStep(p, d, k);
      }
    }
  }

  /** Every survivor keeps its whole chain of ancestors, link by link. */
  lemma SurvivorKeepsAncestors(t: Tree, root: Uid, showPending: bool, k: Uid, n: nat)
    requires ValidTree(t) && k in Pruned(t, root, showPending).items
    ensures var after := Pruned(t, root, showPending);
            && Up(after.parentship, k, n) == Up(t.parentship, k, n)
            && (Up(t.parentship, k, n).Some? && Up(t.parentship, k, n).value in t.items ==>
                Up(t.parentship, k, n).value in after.items)
  {
    var gone := Prunable(t.parentship, HealthyOnes(t, showPending), root);
    PrunableIsDownClosed(t.parentship, HealthyOnes(t, showPending), root);
    UpWithout(t.parentship, gone, k, n);
  }

  /** The maps still agree after pruning, and a second prune finds nothing to remove. */
  lemma PruneTwice(t: Tree, root: Uid, showPending: bool)
    requires ValidTree(t)
    ensures ValidTree(Pruned(t, root, showPending))
    ensures Pruned(Pruned(t, root, showPending), root, showPending) == Pruned(t, root, showPending)
  {
    var gone := Prunable(t.parentship, HealthyOnes(t, showPending), root);
    NothingLeftToPrune(t.parentship, HealthyOnes(t, showPending), root);
    WithoutValid(t, gone);
    HealthyWithout(t, gone, showPending);
    WithoutNothing(Without(t, gone));
  }
}
