/** Parent links as a finite map, and what lies below what. A link may point at a node that is not
    in the map itself: children are added before their parent, and the root is never an item. */
module TreeShape {
  import opened Common

  type Uid = nat
  type Links = map<Uid, Uid>

  /** The `n`-th ancestor of `k`, if there is one. */
  function Up(p: Links, k: Uid, n: nat): Option<Uid>
    decreases n
  {
    if n == 0 then Some(k) else if k in p then Up(p, p[k], n - 1) else None
  }

  ghost predicate AtOrBelow(p: Links, k: Uid, a: Uid) {
    exists n: nat :: Up(p, k, n) == Some(a)
  }

  ghost predicate Below(p: Links, k: Uid, a: Uid) {
    k in p && AtOrBelow(p, p[k], a)
  }

  ghost predicate Acyclic(p: Links) {
    forall k :: k in p ==> !Below(p, k, k)
  }

  /** The nodes at or below some node of `tops`. */
  ghost function Covered(p: Links, tops: set<Uid>): set<Uid> {
    set k | k in p && exists c :: c in tops && AtOrBelow(p, k, c)
  }

  /** The nodes strictly below `a`. */
  ghost function Subtree(p: Links, a: Uid): set<Uid> {
    set k | k in p && Below(p, k, a)
  }

  ghost predicate DownClosed(p: Links, gone: set<Uid>) {
    forall k :: k in p && p[k] in gone ==> k in gone
  }

  lemma {:induction false} UpAdd(p: Links, k: Uid, m: nat, n: nat)
    requires Up(p, k, m).Some?
    ensures Up(p, k, m + n) == Up(p, Up(p, k, m).value, n)
    decreases m
  {
    if m > 0 {
      UpAdd(p, p[k], m - 1, n);
    }
  }

  lemma AtOrBelowSelf(p: Links, k: Uid)
    ensures AtOrBelow(p, k, k)
  {
    assert Up(p, k, 0) == Some(k);
  }

  lemma AtOrBelowStep(p: Links, k: Uid, a: Uid)
    ensures AtOrBelow(p, k, a) <==> k == a || Below(p, k, a)
  {
    if k == a {
      AtOrBelowSelf(p, k);
    } else if AtOrBelow(p, k, a) {
      var n: nat :| Up(p, k, n) == Some(a);
      assert Up(p, p[k], n - 1) == Some(a);
    }
    if Below(p, k, a) {
      var n: nat :| Up(p, p[k], n) == Some(a);
      assert Up(p, k, n + 1) == Some(a);
    }
  }

  lemma AtOrBelowTrans(p: Links, k: Uid, a: Uid, b: Uid)
    requires AtOrBelow(p, k, a) && AtOrBelow(p, a, b)
    ensures AtOrBelow(p, k, b)
  {
    var m: nat :| Up(p, k, m) == Some(a);
    var n: nat :| Up(p, a, n) == Some(b);
    UpAdd(p, k, m, n);
    assert Up(p, k, m + n) == Some(b);
  }

  lemma BelowTrans(p: Links, k: Uid, a: Uid, b: Uid)
    requires Below(p, k, a) && AtOrBelow(p, a, b)
    ensures Below(p, k, b)
  {
    AtOrBelowTrans(p, p[k], a, b);
  }

  /** Two nodes above a common node are themselves one above the other. */
  lemma CommonBelow(p: Links, k: Uid, a: Uid, b: Uid)
    requires AtOrBelow(p, k, a) && AtOrBelow(p, k, b)
    ensures AtOrBelow(p, a, b) || AtOrBelow(p, b, a)
  {
    var m: nat :| Up(p, k, m) == Some(a);
    var n: nat :| Up(p, k, n) == Some(b);
    if m <= n {
      UpAdd(p, k, m, n - m);
      assert Up(p, a, n - m) == Some(b);
    } else {
      UpAdd(p, k, n, m - n);
      assert Up(p, b, m - n) == Some(a);
    }
  }

  /** Nothing is below two different children of one node. */
  lemma SiblingsApart(p: Links, c: Uid, d: Uid, k: Uid)
    requires Acyclic(p) && c in p && d in p && p[c] == p[d] && c != d
    ensures !(AtOrBelow(p, k, c) && AtOrBelow(p, k, d))
  {
    if AtOrBelow(p, k, c) && AtOrBelow(p, k, d) {
      CommonBelow(p, k, c, d);
      AtOrBelowStep(p, c, d);
      AtOrBelowStep(p, d, c);
    }
  }

  lemma ChildShrinks(p: Links, c: Uid, s: Uid)
    requires Acyclic(p) && c in p && p[c] == s
    ensures Subtree(p, c) < Subtree(p, s)
  {
    AtOrBelowSelf(p, s);
    assert Below(p, c, s);
    forall k | k in Subtree(p, c) ensures k in Subtree(p, s) {
      AtOrBelowStep(p, c, s);
      BelowTrans(p, k, c, s);
    }
    assert c in Subtree(p, s) && c !in Subtree(p, c);
  }

  lemma CoveredIsDownClosed(p: Links, tops: set<Uid>)
    ensures DownClosed(p, Covered(p, tops))
  {
    forall k | k in p && p[k] in Covered(p, tops) ensures k in Covered(p, tops) {
      var c :| c in tops && AtOrBelow(p, p[k], c);
      AtOrBelowStep(p, k, c);
    }
  }

  lemma CoveredOfSum(p: Links, a: set<Uid>, b: set<Uid>)
    ensures Covered(p, a + b) == Covered(p, a) + Covered(p, b)
  {
  }

  /** Everything below `s` is at or below one of its children. */
  lemma CoveredByChildren(p: Links, s: Uid, children: set<Uid>)
    requires forall c :: c in children <==> c in p && p[c] == s
    ensures Covered(p, children) == Subtree(p, s)
  {
    forall k | k in Covered(p, children) ensures k in Subtree(p, s) {
      var c :| c in children && AtOrBelow(p, k, c);
      AtOrBelowSelf(p, s);
      AtOrBelowStep(p, k, c);
      AtOrBelowStep(p, c, s);
      if k != c {
        BelowTrans(p, k, c, s);
      }
    }
    forall k | k in Subtree(p, s) ensures k in Covered(p, children) {
      var n: nat :| Up(p, p[k], n) == Some(s);
      LastStep(p, k, n, s);
    }
  }

  lemma {:induction false} LastStep(p: Links, k: Uid, n: nat, s: Uid)
    requires k in p && Up(p, p[k], n) == Some(s)
    ensures exists c :: c in p && p[c] == s && AtOrBelow(p, k, c)
    decreases n
  {
    if n == 0 {
      AtOrBelowSelf(p, k);
    } else {
      LastStep(p, p[k], n - 1, s);
      var c :| c in p && p[c] == s && AtOrBelow(p, p[k], c);
      AtOrBelowStep(p, k, c);
    }
  }

  lemma CoveredByOne(p: Links, s: Uid)
    requires s in p
    ensures Covered(p, {s}) == Subtree(p, s) + {s}
  {
    forall k | k in p ensures k in Covered(p, {s}) <==> k in Subtree(p, s) + {s} {
      AtOrBelowStep(p, k, s);
    }
  }

  // ---------------------------------------------------------------- taking nodes away

  /** Removing a downward closed set leaves the ancestors of every other node as they were. */
  lemma {:induction false} UpWithout(p: Links, gone: set<Uid>, k: Uid, n: nat)
    requires DownClosed(p, gone) && k !in gone
    ensures Up(p - gone, k, n) == Up(p, k, n)
    ensures Up(p, k, n).Some? ==> Up(p, k, n).value !in gone
    decreases n
  {
    if n > 0 && k in p {
      UpWithout(p, gone, p[k], n - 1);
    }
  }

  lemma AtOrBelowWithout(p: Links, gone: set<Uid>, k: Uid, a: Uid)
    requires DownClosed(p, gone) && k !in gone
    ensures AtOrBelow(p - gone, k, a) <==> AtOrBelow(p, k, a)
    ensures AtOrBelow(p, k, a) ==> a !in gone
  {
    if AtOrBelow(p - gone, k, a) {
      var n: nat :| Up(p - gone, k, n) == Some(a);
      UpWithout(p, gone, k, n);
    }
    if AtOrBelow(p, k, a) {
      var n: nat :| Up(p, k, n) == Some(a);
      UpWithout(p, gone, k, n);
    }
  }

  lemma BelowWithout(p: Links, gone: set<Uid>, k: Uid, a: Uid)
    requires DownClosed(p, gone) && k !in gone
    ensures Below(p - gone, k, a) <==> Below(p, k, a)
  {
    if k in p {
      assert p[k] !in gone;
      AtOrBelowWithout(p, gone, p[k], a);
    }
  }

  lemma SubtreeWithout(p: Links, gone: set<Uid>, a: Uid)
    requires DownClosed(p, gone)
    ensures Subtree(p - gone, a) == Subtree(p, a) - gone
  {
    forall k | k in p && k !in gone ensures Below(p - gone, k, a) <==> Below(p, k, a) {
      BelowWithout(p, gone, k, a);
    }
  }

  lemma AcyclicWithout(p: Links, gone: set<Uid>)
    requires Acyclic(p) && DownClosed(p, gone)
    ensures Acyclic(p - gone)
  {
    forall k | k in p - gone ensures !Below(p - gone, k, k) {
      BelowWithout(p, gone, k, k);
    }
  }

  // ---------------------------------------------------------------- adding a link

  /** A new link `k -> a` creates a cycle exactly when `a` is at or below `k` already. */
  lemma AcyclicWithLink(p: Links, k: Uid, a: Uid)
    requires Acyclic(p) && k !in p
    ensures Acyclic(p[k := a]) <==> !AtOrBelow(p, a, k)
  {
    var q := p[k := a];
    if AtOrBelow(p, a, k) {
      var n: nat :| Up(p, a, n) == Some(k);
      UpWithLink(p, k, a, a, n);
      assert Up(q, a, n) == Some(k);
      assert Below(q, k, k);
    } else {
      forall x | x in q ensures !Below(q, x, x) {
        forall n: nat ensures Up(q, q[x], n) != Some(x) {
          CycleUsesLink(p, k, a, x, n);
        }
      }
    }
  }

  /** A path that does not leave `k` upwards is the same with the new link. */
  lemma {:induction false} UpWithLink(p: Links, k: Uid, a: Uid, x: Uid, n: nat)
    requires k !in p && Up(p, x, n).Some?
    ensures Up(p[k := a], x, n) == Up(p, x, n)
    decreases n
  {
    if n > 0 {
      UpWithLink(p, k, a, p[x], n - 1);
    }
  }

  /** From any node the new links lead either along the old path, or through `k` to above `a`. */
  lemma {:induction false} UpThroughLink(p: Links, k: Uid, a: Uid, x: Uid, n: nat)
    requires k !in p && !AtOrBelow(p, a, k) && Up(p[k := a], x, n).Some?
    ensures || Up(p[k := a], x, n) == Up(p, x, n)
            || (AtOrBelow(p, x, k) && AtOrBelow(p, a, Up(p[k := a], x, n).value))
    decreases n
  {
    var q := p[k := a];
    if n > 0 {
      UpThroughLink(p, k, a, q[x], n - 1);
      var y := Up(q, q[x], n - 1).value;
      if x == k {
        AtOrBelowSelf(p, k);
        if Up(q, a, n - 1) == Up(p, a, n - 1) {
          assert AtOrBelow(p, a, y);
        }
      } else if Up(q, q[x], n - 1) != Up(p, p[x], n - 1) {
        AtOrBelowStep(p, x, k);
      }
    }
  }

  lemma CycleUsesLink(p: Links, k: Uid, a: Uid, x: Uid, n: nat)
    requires Acyclic(p) && k !in p && !AtOrBelow(p, a, k) && x in p[k := a]
    ensures Up(p[k := a], p[k := a][x], n) != Some(x)
  {
    var q := p[k := a];
    assert Up(q, x, n + 1) == Up(q, q[x], n);
    if Up(q, x, n + 1).Some? {
      UpThroughLink(p, k, a, x, n + 1);
      if Up(q, x, n + 1) == Up(p, x, n + 1) {
        assert Up(p, x, n + 1) == Up(p, p[x], n);
      } else if AtOrBelow(p, a, x) {
        AtOrBelowTrans(p, a, x, k);
      }
    }
  }

  /** What is below other nodes does not change when `k` is linked under `a`, for nodes not above `a`. */
  lemma AtOrBelowWithLink(p: Links, k: Uid, a: Uid, x: Uid, b: Uid)
    requires k !in p && !AtOrBelow(p, a, k) && !AtOrBelow(p, a, b)
    ensures AtOrBelow(p[k := a], x, b) <==> AtOrBelow(p, x, b)
  {
    if AtOrBelow(p, x, b) {
      var n: nat :| Up(p, x, n) == Some(b);
      UpWithLink(p, k, a, x, n);
      assert Up(p[k := a], x, n) == Some(b);
    }
    if AtOrBelow(p[k := a], x, b) {
      var n: nat :| Up(p[k := a], x, n) == Some(b);
      UpThroughLink(p, k, a, x, n);
    }
  }
}
