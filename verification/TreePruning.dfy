/** Pruning as a question about parent links and the set of healthy nodes. */
module TreePruning {
  import opened TreeShape

  /** The node and everything below it are healthy. */
  ghost predicate Sound(p: Links, healthy: set<Uid>, k: Uid) {
    k in healthy && Subtree(p, k) <= healthy
  }

  /** What pruning takes away below `a`. */
  ghost function Prunable(p: Links, healthy: set<Uid>, a: Uid): set<Uid> {
    set k | k in p && Below(p, k, a) && Sound(p, healthy, k)
  }

  /** What pruning takes away below any of the given nodes. */
  ghost function PrunableBelow(p: Links, healthy: set<Uid>, tops: set<Uid>): set<Uid> {
    set k | k in p && Sound(p, healthy, k) && exists c :: c in tops && Below(p, k, c)
  }

  ghost function SoundOnes(p: Links, healthy: set<Uid>, among: set<Uid>): set<Uid> {
    set c | c in among && Sound(p, healthy, c)
  }

  lemma SubtreeMonotone(p: Links, c: Uid, k: Uid)
    requires AtOrBelow(p, c, k)
    ensures Subtree(p, c) <= Subtree(p, k)
    ensures c in p && c != k ==> c in Subtree(p, k)
  {
    AtOrBelowStep(p, c, k);
    forall d | d in Subtree(p, c) ensures d in Subtree(p, k) {
      BelowTrans(p, d, c, k);
    }
  }

  lemma SoundSteps(p: Links, healthy: set<Uid>, k: Uid, c: Uid)
    requires c in p && AtOrBelow(p, c, k) && Sound(p, healthy, k)
    ensures Sound(p, healthy, c)
  {
    SubtreeMonotone(p, c, k);
  }

  lemma ParentIsAbove(p: Links, k: Uid)
    requires k in p
    ensures AtOrBelow(p, k, p[k]) && Below(p, k, p[k])
  {
    AtOrBelowSelf(p, p[k]);
    AtOrBelowStep(p, k, p[k]);
  }

  lemma PrunableBelowIsDownClosed(p: Links, healthy: set<Uid>, tops: set<Uid>)
    ensures DownClosed(p, PrunableBelow(p, healthy, tops))
  {
    var gone := PrunableBelow(p, healthy, tops);
    forall k | k in p && p[k] in gone ensures k in gone {
      var c :| c in tops && Below(p, p[k], c);
      ParentIsAbove(p, k);
      AtOrBelowStep(p, p[k], c);
      SoundSteps(p, healthy, p[k], k);
    }
  }

  lemma PrunableIsDownClosed(p: Links, healthy: set<Uid>, a: Uid)
    ensures DownClosed(p, Prunable(p, healthy, a))
  {
    PrunableBelowIsDownClosed(p, healthy, {a});
    assert Prunable(p, healthy, a) == PrunableBelow(p, healthy, {a});
  }

  lemma PrunableBelowOfSum(p: Links, healthy: set<Uid>, tops: set<Uid>, c: Uid)
    ensures PrunableBelow(p, healthy, tops + {c}) == PrunableBelow(p, healthy, tops) + Prunable(p, healthy, c)
  {
  }

  /** What is at or below one child is not pruned away below another. */
  lemma NotPrunedElsewhere(p: Links, healthy: set<Uid>, pruned: set<Uid>, c: Uid, k: Uid)
    requires Acyclic(p) && c in p && c !in pruned && forall d :: d in pruned ==> d in p && p[d] == p[c]
    requires AtOrBelow(p, k, c)
    ensures k !in PrunableBelow(p, healthy, pruned)
  {
    forall d | d in pruned ensures !Below(p, k, d) {
      SiblingsApart(p, c, d, k);
      AtOrBelowStep(p, k, d);
    }
  }

  /** Taking away nodes that are not at or below `c` leaves the pruning below `c` as it was. */
  lemma UntouchedBelow(p: Links, healthy: set<Uid>, gone: set<Uid>, c: Uid)
    requires DownClosed(p, gone)
    requires forall k :: k in p && AtOrBelow(p, k, c) ==> k !in gone
    ensures Subtree(p - gone, c) == Subtree(p, c)
    ensures Prunable(p - gone, healthy - gone, c) == Prunable(p, healthy, c)
    ensures c !in gone ==> (Sound(p - gone, healthy - gone, c) <==> Sound(p, healthy, c))
  {
    forall k | k in Subtree(p, c) ensures k !in gone {
      AtOrBelowStep(p, k, c);
    }
    SubtreeWithout(p, gone, c);
    forall k | k in Subtree(p, c)
      ensures Sound(p - gone, healthy - gone, k) <==> Sound(p, healthy, k)
    {
      AtOrBelowStep(p, k, c);
      SubtreeMonotone(p, k, c);
      SubtreeWithout(p, gone, k);
      assert Subtree(p, k) - gone == Subtree(p, k);
    }
    forall k ensures k in Prunable(p - gone, healthy - gone, c) <==> k in Prunable(p, healthy, c) {
      assert k in Subtree(p - gone, c) <==> k in p - gone && Below(p - gone, k, c);
      assert k in Subtree(p, c) <==> k in p && Below(p, k, c);
    }
  }

  /** Pruning below one child does not change what is to be pruned below another. */
  lemma NextToPrune(p: Links, healthy: set<Uid>, pruned: set<Uid>, c: Uid)
    requires Acyclic(p) && c in p && c !in pruned && forall d :: d in pruned ==> d in p && p[d] == p[c]
    ensures var gone := PrunableBelow(p, healthy, pruned);
            && DownClosed(p, gone) && c !in gone
            && Subtree(p - gone, c) == Subtree(p, c)
            && Prunable(p - gone, healthy - gone, c) == Prunable(p, healthy, c)
  {
    var gone := PrunableBelow(p, healthy, pruned);
    PrunableBelowIsDownClosed(p, healthy, pruned);
    forall k | k in p && AtOrBelow(p, k, c) ensures k !in gone {
      NotPrunedElsewhere(p, healthy, pruned, c, k);
    }
    AtOrBelowSelf(p, c);
    UntouchedBelow(p, healthy, gone, c);
  }

  /** Once every child is pruned below and the sound children are removed, all is gone that should be. */
  lemma PrunedAll(p: Links, healthy: set<Uid>, s: Uid, children: set<Uid>)
    requires forall c :: c in children <==> c in p && p[c] == s
    ensures PrunableBelow(p, healthy, children) + SoundOnes(p, healthy, children) == Prunable(p, healthy, s)
    ensures Subtree(p, s) <= healthy <==> SoundOnes(p, healthy, children) == children
  {
    CoveredByChildren(p, s, children);
    forall k | k in p
      ensures Below(p, k, s) <==> k in children || exists c :: c in children && Below(p, k, c)
    {
      assert Below(p, k, s) <==> k in Covered(p, children);
      forall c | c in children ensures AtOrBelow(p, k, c) <==> k == c || Below(p, k, c) {
        AtOrBelowStep(p, k, c);
      }
    }
    if Subtree(p, s) <= healthy {
      forall c | c in children ensures Sound(p, healthy, c) {
        ParentIsAbove(p, c);
        SubtreeMonotone(p, c, s);
        assert c in Subtree(p, s);
      }
    } else {
      var d :| d in Subtree(p, s) && d !in healthy;
      if d !in children {
        var c :| c in children && Below(p, d, c);
        assert d in Subtree(p, c);
      }
    }
  }

  /** Once the children are pruned below, a sound child stands alone. */
  lemma SoundChildAlone(p: Links, healthy: set<Uid>, s: Uid, children: set<Uid>, removed: set<Uid>, c: Uid)
    requires Acyclic(p) && (forall d :: d in children <==> d in p && p[d] == s)
    requires removed <= SoundOnes(p, healthy, children) && c in SoundOnes(p, healthy, children) && c !in removed
    ensures var gone := PrunableBelow(p, healthy, children) + removed;
            DownClosed(p, gone) && c !in gone && Covered(p - gone, {c}) == {c}
  {
    var gone := PrunableBelow(p, healthy, children) + removed;
    PrunableBelowIsDownClosed(p, healthy, children);
    forall k | k in p && p[k] in removed ensures k in gone {
      ParentIsAbove(p, k);
      SoundSteps(p, healthy, p[k], k);
    }
    ChildIsTop(p, children, s, c);
    SubtreeWithout(p, gone, c);
    forall k | k in Subtree(p, c) ensures k in gone {
      AtOrBelowStep(p, k, c);
      SoundSteps(p, healthy, c, k);
    }
    CoveredByOne(p - gone, c);
  }

  lemma ChildIsTop(p: Links, children: set<Uid>, s: Uid, c: Uid)
    requires Acyclic(p) && c in children && (forall d :: d in children <==> d in p && p[d] == s)
    ensures forall d :: d in children ==> !Below(p, c, d)
  {
    forall d | d in children ensures !Below(p, c, d) {
      AtOrBelowSelf(p, c);
      AtOrBelowStep(p, c, d);
      if d != c {
        SiblingsApart(p, c, d, c);
      }
    }
  }

  /** A second prune finds nothing: whatever survived still has an unhealthy survivor at or below it. */
  lemma NothingLeftToPrune(p: Links, healthy: set<Uid>, root: Uid)
    ensures var gone := Prunable(p, healthy, root);
            DownClosed(p, gone) && Prunable(p - gone, healthy - gone, root) == {}
  {
    var gone := Prunable(p, healthy, root);
    PrunableIsDownClosed(p, healthy, root);
    forall k | k in p - gone && Below(p - gone, k, root) ensures !Sound(p - gone, healthy - gone, k) {
      BelowWithout(p, gone, k, root);
      SubtreeWithout(p, gone, k);
      if k in healthy {
        assert !Sound(p, healthy, k);
        var d :| d in Subtree(p, k) && d !in healthy;
        assert d in Subtree(p - gone, k);
      }
    }
  }
}
