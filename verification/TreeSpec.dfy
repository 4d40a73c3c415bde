/** The status tree of dpfctl as a value: three maps that must agree, and what removal and pruning
    take away. */
module TreeSpec {
  import opened TreeShape
  import opened TreeObjects
  import opened TreePruning

  datatype Tree = Tree(items: map<Uid, Object>, ownership: map<Uid, set<Uid>>, parentship: map<Uid, Uid>)

  const EMPTY := Tree(map[], map[], map[])

  function Owned(t: Tree, id: Uid): set<Uid> {
    if id in t.ownership then t.ownership[id] else {}
  }

  /** The three maps describe the same set of links. */
  ghost predicate Agree(t: Tree) {
    && t.items.Keys == t.parentship.Keys
    && (forall k :: k in t.items ==> t.items[k].uid == k)
    && (forall p, k :: k in Owned(t, p) <==> k in t.parentship && t.parentship[k] == p)
  }

  ghost predicate ValidTree(t: Tree) {
    Agree(t) && Acyclic(t.parentship)
  }

  // ---------------------------------------------------------------- adding one object

  function Insert(t: Tree, parent: Uid, o: Object): Tree {
    Tree(t.items[o.uid := o],
         t.ownership[parent := Owned(t, parent) + {o.uid}],
         t.parentship[o.uid := parent])
  }

  /** Adding keeps the maps in agreement exactly when the object is new or stays under its parent. */
  lemma InsertAgrees(t: Tree, parent: Uid, o: Object)
    requires Agree(t)
    ensures Agree(Insert(t, parent, o)) <==> (o.uid in t.parentship ==> t.parentship[o.uid] == parent)
  {
    var u := Insert(t, parent, o);
    if o.uid in t.parentship && t.parentship[o.uid] != parent {
      var before := t.parentship[o.uid];
      assert o.uid in Owned(t, before);
      assert Owned(u, before) == Owned(t, before);
      assert u.parentship[o.uid] == parent;
    } else {
      forall p, k ensures k in Owned(u, p) <==> k in u.parentship && u.parentship[k] == p {
        assert k in Owned(t, p) <==> k in t.parentship && t.parentship[k] == p;
      }
    }
  }

  /** The parent that the object has already, or one that is not below it if it is new. */
  ghost predicate CanInsert(t: Tree, parent: Uid, id: Uid) {
    if id in t.parentship then t.parentship[id] == parent else !AtOrBelow(t.parentship, parent, id)
  }

  /** Adding keeps the tree valid exactly when the object stays under its parent, or is new and its
      parent is not below it. */
  lemma InsertValid(t: Tree, parent: Uid, o: Object)
    requires ValidTree(t)
    ensures ValidTree(Insert(t, parent, o)) <==> CanInsert(t, parent, o.uid)
  {
    InsertAgrees(t, parent, o);
    if o.uid !in t.parentship {
      AcyclicWithLink(t.parentship, o.uid, parent);
    } else if t.parentship[o.uid] == parent {
      assert Insert(t, parent, o).parentship == t.parentship;
    }
  }

  const LEAF := Object(1, "Kind", "leaf", [], false, false, "", 0)
  const INNER := Object(2, "Kind", "inner", [], false, false, "", 0)

  /** The same object added under two parents: both own it. */
  lemma TwoParentsExample()
    ensures var t := Insert(EMPTY, 0, LEAF);
            && Agree(t) && !Agree(Insert(t, 2, LEAF))
            && 1 in Owned(Insert(t, 2, LEAF), 0) && 1 in Owned(Insert(t, 2, LEAF), 2)
  {
    InsertAgrees(EMPTY, 0, LEAF);
    InsertAgrees(Insert(EMPTY, 0, LEAF), 2, LEAF);
  }

  /** A node added under its own child: the two are below each other. */
  lemma CycleExample()
    ensures var t := Insert(EMPTY, 1, INNER);
            ValidTree(t) && Agree(Insert(t, 2, LEAF)) && !ValidTree(Insert(t, 2, LEAF))
  {
    var t := Insert(EMPTY, 1, INNER);
    InsertAgrees(EMPTY, 1, INNER);
    InsertValid(EMPTY, 1, INNER);
    AtOrBelowSelf(t.parentship, 1);
    AtOrBelowStep(t.parentship, 2, 1);
    InsertAgrees(t, 2, LEAF);
    InsertValid(t, 2, LEAF);
  }

  // ---------------------------------------------------------------- taking objects away

  /** Deleting the entries of one node, as removal does once the node's children are gone. */
  function Unlink(t: Tree, parent: Uid, s: Uid): Tree {
    Tree(t.items - {s}, t.ownership[parent := Owned(t, parent) - {s}], t.parentship - {s})
  }

  /** Every child that a node owns is there; a walk over the tree finds no missing object. */
  ghost predicate NothingDangles(t: Tree) {
    forall p, k :: k in Owned(t, p) ==> k in t.items
  }

  /** Deleting a node leaves a dangling child exactly if some other node owns it as well. */
  lemma UnlinkDanglesIff(t: Tree, parent: Uid, s: Uid)
    requires NothingDangles(t)
    ensures NothingDangles(Unlink(t, parent, s)) <==> forall p :: p != parent ==> s !in Owned(t, p)
  {
    var u := Unlink(t, parent, s);
    assert forall p :: p != parent ==> Owned(u, p) == Owned(t, p);
    assert Owned(u, parent) == Owned(t, parent) - {s};
  }

  /** So after an object was added, deleting it leaves a dangling child exactly if it had another
      parent before: the old parent still owns it. */
  lemma ReparentedDanglesIff(t: Tree, parent: Uid, o: Object)
    requires Agree(t)
    ensures NothingDangles(Insert(t, parent, o))
    ensures NothingDangles(Unlink(Insert(t, parent, o), parent, o.uid)) <==>
            (o.uid in t.parentship ==> t.parentship[o.uid] == parent)
  {
    var u := Insert(t, parent, o);
    assert forall p :: p != parent ==> Owned(u, p) == Owned(t, p);
    UnlinkDanglesIff(u, parent, o.uid);
    if o.uid in t.parentship {
      assert o.uid in Owned(t, t.parentship[o.uid]);
      assert o.uid in Owned(u, t.parentship[o.uid]);
    }
  }

  ghost function Without(t: Tree, gone: set<Uid>): Tree {
    Tree(t.items - gone, map p | p in t.ownership :: t.ownership[p] - gone, t.parentship - gone)
  }

  lemma WithoutValid(t: Tree, gone: set<Uid>)
    requires ValidTree(t) && DownClosed(t.parentship, gone)
    ensures ValidTree(Without(t, gone))
  {
    AcyclicWithout(t.parentship, gone);
    var u := Without(t, gone);
    forall p, k ensures k in Owned(u, p) <==> k in u.parentship && u.parentship[k] == p {
      assert k in Owned(t, p) <==> k in t.parentship && t.parentship[k] == p;
    }
  }

  lemma WithoutTwice(t: Tree, a: set<Uid>, b: set<Uid>)
    ensures Without(Without(t, a), b) == Without(t, a + b)
  {
    var x, y := Without(Without(t, a), b), Without(t, a + b);
    assert x.items == y.items;
    assert x.parentship == y.parentship;
    forall p | p in t.ownership ensures t.ownership[p] - a - b == t.ownership[p] - (a + b) {
    }
  }

  /** After the subtrees of some children are gone, the subtree of another child is still whole. */
  lemma NextChild(t: Tree, s: Uid, removed: set<Uid>, c: Uid)
    requires ValidTree(t) && removed <= Owned(t, s) && c in Owned(t, s) && c !in removed
    ensures var gone := Covered(t.parentship, removed);
            var u := Without(t, gone);
            && DownClosed(t.parentship, gone) && ValidTree(u)
            && c in u.parentship && u.parentship[c] == s
            && Covered(u.parentship, {c}) == Covered(t.parentship, {c})
            && Subtree(u.parentship, c) < Subtree(t.parentship, s)
  {
    var p := t.parentship;
    var gone := Covered(p, removed);
    CoveredIsDownClosed(p, removed);
    WithoutValid(t, gone);
    forall k | k in p && AtOrBelow(p, k, c) ensures k !in gone {
      forall d | d in removed ensures !AtOrBelow(p, k, d) {
        SiblingsApart(p, c, d, k);
      }
    }
    AtOrBelowSelf(p, c);
    forall k | k in p && k !in gone ensures AtOrBelow(p - gone, k, c) <==> AtOrBelow(p, k, c) {
      AtOrBelowWithout(p, gone, k, c);
    }
    SubtreeWithout(p, gone, c);
    ChildShrinks(p, c, s);
  }

  lemma OwnedChild(t: Tree, s: Uid, c: Uid)
    requires ValidTree(t) && c in Owned(t, s)
    ensures c in t.items && c in t.parentship && t.parentship[c] == s
    ensures Subtree(t.parentship, c) < Subtree(t.parentship, s)
  {
    ChildShrinks(t.parentship, c, s);
  }

  // ---------------------------------------------------------------- pruning

  ghost function HealthyOnes(t: Tree, showPending: bool): set<Uid> {
    set k | k in t.items && IsHealthy(t.items[k], showPending)
  }

  /** The tree that pruning below `root` leaves behind. */
  ghost function Pruned(t: Tree, root: Uid, showPending: bool): Tree {
    Without(t, Prunable(t.parentship, HealthyOnes(t, showPending), root))
  }

  lemma HealthyWithout(t: Tree, gone: set<Uid>, showPending: bool)
    ensures HealthyOnes(Without(t, gone), showPending) == HealthyOnes(t, showPending) - gone
  {
  }

  /** Before child `c` is pruned, with some siblings pruned already: everything about `c` is as in `t`. */
  lemma BeforeChild(t: Tree, s: Uid, healthy: set<Uid>, pruned: set<Uid>, c: Uid)
    requires ValidTree(t) && pruned <= Owned(t, s) && c in Owned(t, s) && c !in pruned
    ensures var gone := PrunableBelow(t.parentship, healthy, pruned);
            var u := Without(t, gone);
            && ValidTree(u) && c in u.items && u.items[c] == t.items[c]
            && Subtree(u.parentship, c) == Subtree(t.parentship, c) < Subtree(t.parentship, s)
            && Subtree(t.parentship, c) !! gone
            && Prunable(u.parentship, healthy - gone, c) == Prunable(t.parentship, healthy, c)
  {
    OwnedChild(t, s, c);
    NextToPrune(t.parentship, healthy, pruned, c);
    SubtreeWithout(t.parentship, PrunableBelow(t.parentship, healthy, pruned), c);
    WithoutValid(t, PrunableBelow(t.parentship, healthy, pruned));
  }

  lemma AfterChild(t: Tree, healthy: set<Uid>, pruned: set<Uid>, c: Uid)
    ensures Without(Without(t, PrunableBelow(t.parentship, healthy, pruned)), Prunable(t.parentship, healthy, c)) ==
            Without(t, PrunableBelow(t.parentship, healthy, pruned + {c}))
  {
    WithoutTwice(t, PrunableBelow(t.parentship, healthy, pruned), Prunable(t.parentship, healthy, c));
    PrunableBelowOfSum(t.parentship, healthy, pruned, c);
  }

  /** Before a sound child is removed: nothing is left below it. */
  lemma BeforeRemoval(t: Tree, s: Uid, healthy: set<Uid>, removed: set<Uid>, c: Uid)
    requires ValidTree(t) && removed <= SoundOnes(t.parentship, healthy, Owned(t, s))
    requires c in SoundOnes(t.parentship, healthy, Owned(t, s)) && c !in removed
    ensures var u := Without(t, PrunableBelow(t.parentship, healthy, Owned(t, s)) + removed);
            && ValidTree(u) && c in u.parentship && u.parentship[c] == s
            && Covered(u.parentship, {c}) == {c}
  {
    var gone := PrunableBelow(t.parentship, healthy, Owned(t, s)) + removed;
    OwnedChild(t, s, c);
    SoundChildAlone(t.parentship, healthy, s, Owned(t, s), removed, c);
    WithoutValid(t, gone);
  }

  lemma AfterRemovals(t: Tree, s: Uid, healthy: set<Uid>)
    requires ValidTree(t)
    ensures PrunableBelow(t.parentship, healthy, Owned(t, s)) + SoundOnes(t.parentship, healthy, Owned(t, s)) ==
            Prunable(t.parentship, healthy, s)
    ensures Subtree(t.parentship, s) <= healthy <==>
            SoundOnes(t.parentship, healthy, Owned(t, s)) == Owned(t, s)
    ensures ValidTree(Without(t, Prunable(t.parentship, healthy, s)))
  {
    PrunedAll(t.parentship, healthy, s, Owned(t, s));
    PrunableIsDownClosed(t.parentship, healthy, s);
    WithoutValid(t, Prunable(t.parentship, healthy, s));
  }

  lemma WithoutNothing(t: Tree)
    ensures Without(t, {}) == t
  {
    forall p | p in t.ownership ensures t.ownership[p] - {} == t.ownership[p] {
    }
    assert Without(t, {}).ownership == t.ownership;
  }

  /** Deleting the three entries of `s` after its subtree is gone completes the removal. */
  lemma RemoveLast(t: Tree, parent: Uid, s: Uid, u: Tree)
    requires ValidTree(t) && s in t.parentship && t.parentship[s] == parent
    requires u == Unlink(Without(t, Subtree(t.parentship, s)), parent, s)
    ensures u == Without(t, Covered(t.parentship, {s}))
  {
    hide Covered, AtOrBelow, Below;
    var below := Subtree(t.parentship, s);
    CoveredByOne(t.parentship, s);
    var w := Without(t, below + {s});
    assert u.items == w.items && u.parentship == w.parentship;
    assert s in Owned(t, parent);
    forall p | p in t.ownership ensures p in u.ownership && u.ownership[p] == w.ownership[p] {
      assert s in Owned(t, p) <==> p == parent;
    }
    assert u.ownership == w.ownership;
  }
}
