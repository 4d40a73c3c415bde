/** What adding a row of objects under a header leaves alone. */
module TreeFrames {
  import opened Common
  import opened TreeShape
  import opened TreeObjects
  import opened TreeSpec
  import opened TreeGrouping
  import opened TreeRows
  import opened TreeRowSteps

  /** A node that is not below the header, nor part of an object that comes from position `j` on. */
  ghost predicate Outside(t: Tree, h: Uid, row: Row, j: nat, k: Uid) {
    && k in t.items && k in t.parentship && !Below(t.parentship, k, h)
    && forall x :: j <= x < |row.objs| ==> !AtOrBelow(t.parentship, k, row.objs[x].uid)
  }

  /** Such a node stays as it is, and stays outside. */
  ghost predicate LeftAlone(t: Tree, u: Tree, h: Uid, row: Row, j: nat, k: Uid) {
    Outside(t, h, row, j, k) ==>
      Outside(u, h, row, j + 1, k) && u.items[k] == t.items[k] && u.parentship[k] == t.parentship[k]
  }

  lemma LinkLeavesAlone(p: Links, o: Uid, h: Uid, k: Uid, b: Uid)
    requires o !in p && !AtOrBelow(p, h, o) && k in p && !AtOrBelow(p, k, o) && !AtOrBelow(p, k, b)
    ensures !AtOrBelow(p[o := h], k, b)
  {
    var q := p[o := h];
    forall n: nat ensures Up(q, k, n) != Some(b) {
      if Up(q, k, n).Some? {
        UpThroughLink(p, o, h, k, n);
      }
    }
  }

  lemma PlacedLeavesAlone(t: Tree, h: Uid, row: Row, j: nat, o: Object, k: Uid)
    requires ValidTree(t) && j < |row.objs| && o.uid == row.objs[j].uid
    requires o.uid !in t.parentship && !AtOrBelow(t.parentship, h, o.uid)
    ensures LeftAlone(t, Insert(t, h, o), h, row, j, k)
  {
    var p := t.parentship;
    var q := p[o.uid := h];
    if Outside(t, h, row, j, k) {
      assert k != o.uid && !AtOrBelow(p, k, o.uid);
      NotBelowAfterLink(p, o.uid, h, k);
      forall x | j < x < |row.objs| ensures !AtOrBelow(q, k, row.objs[x].uid) {
        LinkLeavesAlone(p, o.uid, h, k, row.objs[x].uid);
      }
    }
  }

  lemma NotBelowAfterLink(p: Links, o: Uid, h: Uid, k: Uid)
    requires o !in p && !AtOrBelow(p, h, o) && k in p && !AtOrBelow(p, k, o) && !Below(p, k, h)
    ensures !Below(p[o := h], k, h)
  {
    var q := p[o := h];
    AtOrBelowStep(p, k, o);
    forall n: nat ensures Up(q, p[k], n) != Some(h) {
      if Up(q, p[k], n).Some? {
        UpThroughLink(p, o, h, p[k], n);
      }
    }
  }

  lemma MergeLeavesAlone(t: Tree, h: Uid, row: Row, j: nat, s: Uid, node: Object, k: Uid)
    requires ValidTree(t) && s in Owned(t, h) && node.uid !in t.parentship && !AtOrBelow(t.parentship, h, node.uid)
    requires Owned(t, node.uid) == {}
    ensures LeftAlone(t, AfterMerge(t, h, s, node), h, row, j, k)
  {
    if Outside(t, h, row, j, k) {
      var p := t.parentship;
      var q := p[node.uid := h];
      var u := Insert(t, h, node);
      NothingBelowNew(t, node.uid, k);
      NotBelowAfterLink(p, node.uid, h, k);
      MergeValid(t, h, s, node);
      var gone := Covered(q, {s});
      CoveredIsDownClosed(q, {s});
      assert !AtOrBelow(q, k, s) by {
        NotUnderChild(q, h, s, k);
      }
      assert k !in gone;
      BelowWithout(q, gone, k, h);
      forall x | j < x < |row.objs| ensures !AtOrBelow(q - gone, k, row.objs[x].uid) {
        LinkLeavesAlone(p, node.uid, h, k, row.objs[x].uid);
        AtOrBelowWithout(q, gone, k, row.objs[x].uid);
      }
    }
  }

  lemma NotUnderChild(q: Links, h: Uid, s: Uid, k: Uid)
    requires s in q && q[s] == h && k in q && !Below(q, k, h)
    ensures !AtOrBelow(q, k, s)
  {
    if AtOrBelow(q, k, s) {
      AtOrBelowSelf(q, h);
      AtOrBelowStep(q, k, s);
      if k != s {
        AtOrBelowStep(q, s, h);
        AtOrBelowTrans(q, q[k], s, h);
      }
    }
  }

  /** Nothing is below an identity that is not used. */
  lemma NothingBelowNew(t: Tree, id: Uid, k: Uid)
    requires ValidTree(t) && id !in t.parentship && Owned(t, id) == {} && k in t.parentship
    ensures !AtOrBelow(t.parentship, k, id)
  {
    var p := t.parentship;
    if AtOrBelow(p, k, id) {
      var n: nat :| Up(p, k, n) == Some(id);
      NobodyUnder(t, id, k, n);
    }
  }

  lemma {:induction false} NobodyUnder(t: Tree, id: Uid, k: Uid, n: nat)
    requires ValidTree(t) && id !in t.parentship && Owned(t, id) == {} && k in t.parentship
    ensures Up(t.parentship, k, n) != Some(id)
    decreases n
  {
    var p := t.parentship;
    if n > 0 {
      assert k in Owned(t, p[k]);
      if p[k] in p {
        NobodyUnder(t, id, p[k], n - 1);
      }
    }
  }

  lemma JoinLeavesAlone(t: Tree, h: Uid, row: Row, j: nat, g: Uid, node: Object, k: Uid)
    requires ValidTree(t) && g in Owned(t, h)
    ensures LeftAlone(t, Updated(t, g, node), h, row, j, k)
  {
    if Outside(t, h, row, j, k) {
      AtOrBelowSelf(t.parentship, h);
      assert k != g;
    }
  }

  /** Adding the next object of a row leaves everything outside alone. */
  lemma AddLeavesAlone(t: Tree, header: Object, row: Row, j: nat, id: Uid, name: string, placement: Placement, k: Uid)
    requires ValidTree(t) && j < |row.objs| && StillToCome(t, header.uid, row, row.objs[j]) && Unused(t, header.uid, id)
    requires PlacementOk(t, header, row.objs[j], row.showPending, placement)
    ensures LeftAlone(t, AfterAdd(t, header.uid, row.objs[j], row.grouping, id, name, placement), header.uid, row, j, k)
  {
    hide LeftAlone, ValidTree, AtOrBelow, NotReadyBelow, AfterMerge, Insert;
    var o := row.objs[j];
    match placement
    case Placed => PlacedLeavesAlone(t, header.uid, row, j, Stored(o, row.grouping), k);
    case Joined(g) => JoinLeavesAlone(t, header.uid, row, j, g, UpdateGroupNode(t.items[g], o), k);
    case Merged(s) => MergeLeavesAlone(t, header.uid, row, j, s, CreateGroupNode(t.items[s], o, id, name), k);
  }

  /** Once the header is there, it and all nodes that belong to no object of the row are outside. */
  lemma OutsideAtFirst(t: Tree, parent: Uid, header: Object, row: Row, k: Uid)
    requires ValidTree(t) && Unused(t, parent, header.uid)
    requires forall x :: 0 <= x < |row.objs| ==>
               StillToCome(t, parent, row, row.objs[x]) && row.objs[x].uid != header.uid
    requires k == header.uid
             || (k in t.items && forall x :: 0 <= x < |row.objs| ==> !AtOrBelow(t.parentship, k, row.objs[x].uid))
    ensures Outside(Insert(t, parent, header), header.uid, row, 0, k)
  {
    var p := t.parentship;
    var h := header.uid;
    var q := p[h := parent];
    InsertValid(t, parent, header);
    if k == h {
      forall x | 0 <= x < |row.objs| ensures !AtOrBelow(q, h, row.objs[x].uid) {
        AtOrBelowWithLink(p, h, parent, parent, row.objs[x].uid);
        AtOrBelowStep(q, h, row.objs[x].uid);
      }
    } else {
      NothingBelowNew(t, h, k);
      AtOrBelowStep(p, k, h);
      AtOrBelowWithLink(p, h, parent, p[k], h);
      forall x | 0 <= x < |row.objs| ensures !AtOrBelow(q, k, row.objs[x].uid) {
        AtOrBelowWithLink(p, h, parent, k, row.objs[x].uid);
      }
    }
  }

  /** The nodes of `keep` are outside, and as they were in `begun`. */
  ghost predicate StillKept(begun: Tree, t: Tree, h: Uid, row: Row, j: nat, keep: set<Uid>) {
    forall k :: k in keep ==>
      && k in begun.items && k in begun.parentship && Outside(t, h, row, j, k)
      && t.items[k] == begun.items[k] && t.parentship[k] == begun.parentship[k]
  }

  /** A node of the tree that belongs to no object of the row. */
  ghost predicate InNone(t: Tree, row: Row, k: Uid) {
    k in t.items && k in t.parentship &&
    forall x :: 0 <= x < |row.objs| ==> !AtOrBelow(t.parentship, k, row.objs[x].uid)
  }

  /** All such nodes are the same in both trees. */
  ghost predicate OthersKept(t: Tree, u: Tree, row: Row) {
    forall k :: InNone(t, row, k) ==>
      k in u.items && u.items[k] == t.items[k] && k in u.parentship && u.parentship[k] == t.parentship[k]
  }

  ghost function ToKeep(t: Tree, header: Uid, row: Row): set<Uid> {
    {header} + (set k | k in t.items && InNone(t, row, k))
  }

  lemma KeptAtFirst(t: Tree, parent: Uid, header: Object, row: Row)
    requires ValidTree(t) && Unused(t, parent, header.uid)
    requires forall x :: 0 <= x < |row.objs| ==>
               StillToCome(t, parent, row, row.objs[x]) && row.objs[x].uid != header.uid
    ensures var begun := Insert(t, parent, header);
            StillKept(begun, begun, header.uid, row, 0, ToKeep(t, header.uid, row))
  {
    hide Outside, AtOrBelow, ValidTree, NotReadyBelow;
    var begun := Insert(t, parent, header);
    forall k | k in ToKeep(t, header.uid, row) ensures Outside(begun, header.uid, row, 0, k) {
      OutsideAtFirst(t, parent, header, row, k);
    }
  }

  lemma KeptByOneMore(begun: Tree, t: Tree, u: Tree, h: Uid, row: Row, j: nat, keep: set<Uid>)
    requires StillKept(begun, t, h, row, j, keep) && forall k :: LeftAlone(t, u, h, row, j, k)
    ensures StillKept(begun, u, h, row, j + 1, keep)
  {
    hide Outside;
    forall k | k in keep ensures LeftAlone(t, u, h, row, j, k) {
    }
  }

  lemma KeptInTheEnd(t: Tree, parent: Uid, header: Object, u: Tree, row: Row, j: nat)
    requires StillKept(Insert(t, parent, header), u, header.uid, row, j, ToKeep(t, header.uid, row))
    requires header.uid !in t.parentship
    ensures OthersKept(t, u, row)
    ensures header.uid in u.items && u.items[header.uid] == header
    ensures header.uid in u.parentship && u.parentship[header.uid] == parent
  {
    assert header.uid in ToKeep(t, header.uid, row);
    forall k | InNone(t, row, k) ensures k in ToKeep(t, header.uid, row) {
    }
  }
}
