/** One more object under the header: whichever way it is placed, the row stays as it should be. */
module TreeRowSteps {
  import opened TreeShape
  import opened TreeObjects
  import opened TreeSpec
  import opened TreeGrouping
  import opened GroupNames
  import opened TreeRows

  // ---------------------------------------------------------------- what a change leaves alone

  lemma SiblingNotAbove(t: Tree, h: Uid, c: Uid)
    requires ValidTree(t) && c in Owned(t, h)
    ensures !AtOrBelow(t.parentship, h, c)
  {
  }

  lemma InsertStays(t: Tree, h: Uid, o: Object, b: Uid, showPending: bool)
    requires ValidTree(t) && o.uid !in t.parentship && !AtOrBelow(t.parentship, h, o.uid)
    requires !AtOrBelow(t.parentship, h, b)
    ensures var u := Insert(t, h, o);
            && ValidTree(u) && !AtOrBelow(u.parentship, h, b)
            && NotReadyBelow(u, b, showPending) == NotReadyBelow(t, b, showPending)
  {
    InsertKeepsBelow(t, h, o, b);
    SameNotReady(t, Insert(t, h, o), b, showPending);
    AtOrBelowWithLink(t.parentship, o.uid, h, h, b);
  }

  ghost function Updated(t: Tree, g: Uid, o: Object): Tree {
    t.(items := t.items[g := o])
  }

  lemma UpdateStays(t: Tree, h: Uid, g: Uid, o: Object, b: Uid, showPending: bool)
    requires ValidTree(t) && g in Owned(t, h) && o.uid == g && !AtOrBelow(t.parentship, h, b)
    ensures ValidTree(Updated(t, g, o))
    ensures NotReadyBelow(Updated(t, g, o), b, showPending) == NotReadyBelow(t, b, showPending)
  {
    var u := Updated(t, g, o);
    forall p ensures Owned(u, p) == Owned(t, p) {
    }
    assert g !in Subtree(t.parentship, b);
    SameNotReady(t, u, b, showPending);
  }

  /** Merging sibling `s` away does not touch what is below another child of `h`, or below a node
      that is not in the tree. */
  lemma MergeStays(t: Tree, h: Uid, s: Uid, node: Object, b: Uid, showPending: bool)
    requires ValidTree(t) && s in Owned(t, h) && node.uid !in t.parentship
    requires !AtOrBelow(t.parentship, h, node.uid) && !AtOrBelow(t.parentship, h, b)
    requires b != s && b != node.uid && (b in t.parentship ==> t.parentship[b] == h)
    ensures var v := AfterMerge(t, h, s, node);
            && ValidTree(v) && !AtOrBelow(v.parentship, h, b)
            && NotReadyBelow(v, b, showPending) == NotReadyBelow(t, b, showPending)
            && (b in t.items ==> b in v.items && v.items[b] == t.items[b])
            && (b !in t.parentship ==> b !in v.parentship)
  {
    var u := Insert(t, h, node);
    var gone := Covered(u.parentship, {s});
    InsertStays(t, h, node, b, showPending);
    MergeValid(t, h, s, node);
    CoveredIsDownClosed(u.parentship, {s});
    forall k | k in Subtree(u.parentship, b) || (k == b && b in u.parentship) ensures k !in gone {
      NotUnderSibling(u, h, s, b, k);
    }
    WithoutKeepsBelow(u, gone, b);
    SameNotReady(u, Without(u, gone), b, showPending);
    HeaderStays(u, h, s, gone);
    AtOrBelowWithout(u.parentship, gone, h, b);
  }

  lemma NotUnderSibling(u: Tree, h: Uid, s: Uid, b: Uid, k: Uid)
    requires ValidTree(u) && s in Owned(u, h) && b != s && !AtOrBelow(u.parentship, h, b)
    requires b in u.parentship ==> u.parentship[b] == h
    requires k in u.parentship && (k == b || Below(u.parentship, k, b))
    ensures !AtOrBelow(u.parentship, k, s)
  {
    AtOrBelowStep(u.parentship, k, b);
    if AtOrBelow(u.parentship, k, s) {
      CommonBelow(u.parentship, k, s, b);
      AtOrBelowStep(u.parentship, s, b);
      AtOrBelowStep(u.parentship, b, s);
    }
  }

  lemma HeaderStays(u: Tree, h: Uid, s: Uid, gone: set<Uid>)
    requires ValidTree(u) && s in Owned(u, h) && gone == Covered(u.parentship, {s})
    ensures h !in gone
  {
    SiblingNotAbove(u, h, s);
  }

  // ---------------------------------------------------------------- the listing after each change

  lemma PlacedListing(t: Tree, h: Uid, nodes: seq<Uid>, shown: seq<Object>, o: Object)
    requires Listing(t, h, nodes, shown) && o.uid !in t.parentship && !AtOrBelow(t.parentship, h, o.uid)
    ensures Listing(Insert(t, h, o), h, nodes + [o.uid], shown + [o])
  {
    var u := Insert(t, h, o);
    InsertValid(t, h, o);
    forall k ensures k in Owned(u, h) <==> k in nodes + [o.uid] {
    }
    forall i | 0 <= i < |nodes| ensures nodes[i] != o.uid {
      assert nodes[i] in t.items;
    }
  }

  lemma UpdatedListing(t: Tree, h: Uid, nodes: seq<Uid>, shown: seq<Object>, i: nat, o: Object)
    requires Listing(t, h, nodes, shown) && i < |nodes| && o.uid == nodes[i]
    ensures Listing(Updated(t, nodes[i], o), h, nodes, shown[i := o])
  {
    var u := Updated(t, nodes[i], o);
    forall a ensures Owned(u, a) == Owned(t, a) {
    }
  }

  /** After a merge the children of `h` are the same, with the group in the place of the sibling. */
  lemma MergedOwned(t: Tree, h: Uid, s: Uid, node: Object)
    requires ValidTree(t) && s in Owned(t, h) && Unused(t, h, node.uid)
    ensures var v := AfterMerge(t, h, s, node);
            && ValidTree(v) && Owned(v, h) == Owned(t, h) - {s} + {node.uid}
            && (forall a :: a != h && Owned(t, a) == {} ==> Owned(v, a) == {})
            && node.uid in v.items && v.items[node.uid] == node
  {
    var u := Insert(t, h, node);
    MergeValid(t, h, s, node);
    var gone := Covered(u.parentship, {s});
    SiblingNotAbove(u, h, s);
    forall k | k in Owned(u, h) ensures k in gone <==> k == s {
      AtOrBelowStep(u.parentship, k, s);
    }
  }

  lemma SeqReplaced(nodes: seq<Uid>, i: nat, id: Uid)
    requires i < |nodes| && id !in nodes && Distinct(nodes)
    ensures forall k :: k in nodes[i := id] <==> (k in nodes && k != nodes[i]) || k == id
    ensures Distinct(nodes[i := id])
  {
    var after := nodes[i := id];
    assert after[i] == id;
    forall k | k in nodes && k != nodes[i] ensures k in after {
      var a :| 0 <= a < |nodes| && nodes[a] == k;
      assert after[a] == k;
    }
  }

  lemma MergedListing(t: Tree, h: Uid, nodes: seq<Uid>, shown: seq<Object>, i: nat, node: Object, showPending: bool)
    requires Listing(t, h, nodes, shown) && i < |nodes| && Unused(t, h, node.uid)
    ensures Listing(AfterMerge(t, h, nodes[i], node), h, nodes[i := node.uid], shown[i := node])
  {
    var v := AfterMerge(t, h, nodes[i], node);
    assert nodes[i] in nodes;
    MergedOwned(t, h, nodes[i], node);
    SeqReplaced(nodes, i, node.uid);
    forall k | 0 <= k < |nodes| && k != i ensures nodes[k] in v.items && v.items[nodes[k]] == shown[k] {
      assert nodes[k] in nodes;
      SiblingNotAbove(t, h, nodes[k]);
      MergeStays(t, h, nodes[i], node, nodes[k], showPending);
    }
  }

  // ---------------------------------------------------------------- nodes stay settled

  lemma PlacedSettled(t: Tree, h: Uid, row: Row, nodes: seq<Uid>, shown: seq<Object>, members: seq<seq<Object>>,
                      o: Object)
    requires Listing(t, h, nodes, shown) && Settled(t, row, nodes, members) && StillToCome(t, h, row, o)
    ensures Settled(Insert(t, h, Stored(o, row.grouping)), row, nodes + [o.uid], members + [[o]])
  {
    var u := Insert(t, h, Stored(o, row.grouping));
    InsertStays(t, h, Stored(o, row.grouping), o.uid, row.showPending);
    AtOrBelowSelf(t.parentship, h);
    forall i | 0 <= i < |nodes| ensures SettledNode(u, row, nodes[i], |members[i]| > 1) {
      assert nodes[i] in nodes && SettledNode(t, row, nodes[i], |members[i]| > 1);
      SiblingNotAbove(t, h, nodes[i]);
      InsertStays(t, h, Stored(o, row.grouping), nodes[i], row.showPending);
    }
  }

  lemma UpdatedSettled(t: Tree, h: Uid, row: Row, nodes: seq<Uid>, shown: seq<Object>, members: seq<seq<Object>>,
                       i: nat, o: Object, grown: seq<Object>)
    requires Listing(t, h, nodes, shown) && Settled(t, row, nodes, members)
    requires i < |nodes| && o.uid == nodes[i] && |members[i]| > 1 && |grown| > 1
    ensures Settled(Updated(t, nodes[i], o), row, nodes, members[i := grown])
  {
    var u := Updated(t, nodes[i], o);
    forall a ensures Owned(u, a) == Owned(t, a) {
    }
    forall k | 0 <= k < |nodes| ensures SettledNode(u, row, nodes[k], |members[i := grown][k]| > 1) {
      assert nodes[k] in nodes && nodes[i] in nodes && SettledNode(t, row, nodes[k], |members[k]| > 1);
      SiblingNotAbove(t, h, nodes[k]);
      UpdateStays(t, h, nodes[i], o, nodes[k], row.showPending);
    }
  }

  lemma MergedSettled(t: Tree, h: Uid, row: Row, nodes: seq<Uid>, shown: seq<Object>, members: seq<seq<Object>>,
                      i: nat, node: Object, grown: seq<Object>)
    requires Listing(t, h, nodes, shown) && Settled(t, row, nodes, members)
    requires i < |nodes| && Unused(t, h, node.uid) && |grown| > 1
    ensures Settled(AfterMerge(t, h, nodes[i], node), row, nodes[i := node.uid], members[i := grown])
  {
    var v := AfterMerge(t, h, nodes[i], node);
    assert nodes[i] in nodes;
    MergedOwned(t, h, nodes[i], node);
    AtOrBelowSelf(t.parentship, h);
    forall k | 0 <= k < |nodes| && k != i ensures SettledNode(v, row, nodes[k], |members[k]| > 1) {
      assert nodes[k] in nodes && SettledNode(t, row, nodes[k], |members[k]| > 1);
      SiblingNotAbove(t, h, nodes[k]);
      MergeStays(t, h, nodes[i], node, nodes[k], row.showPending);
    }
  }

  // ---------------------------------------------------------------- members stay separate

  lemma AppendSeparate(row: Row, members: seq<seq<Object>>, o: Object)
    requires Separate(row, members) && forall i :: 0 <= i < |members| ==> !Together(row, members[i][0], o)
    ensures Separate(row, members + [[o]])
  {
  }

  lemma GrowSeparate(row: Row, members: seq<seq<Object>>, i: nat, o: Object)
    requires Separate(row, members) && i < |members|
    ensures Separate(row, members[i := members[i] + [o]])
  {
    var grown := members[i := members[i] + [o]];
    forall k | 0 <= k < |members| ensures |grown[k]| >= 1 && grown[k][0] == members[k][0] {
    }
  }

  // ---------------------------------------------------------------- one more object

  ghost predicate RowObject(row: Row, o: Object) {
    o.kind == row.kind && !o.group && Plain(o.name)
  }

  /** Node `i` has grown by `o`, or is new. */
  ghost predicate Grown(members: seq<seq<Object>>, grown: seq<seq<Object>>, i: nat, o: Object) {
    || (i == |members| && grown == members + [[o]])
    || (i < |members| && grown == members[i := members[i] + [o]])
  }

  lemma PlacedRow(t: Tree, header: Object, row: Row, nodes: seq<Uid>, shown: seq<Object>, members: seq<seq<Object>>,
                  o: Object)
    requires RowShown(t, header.uid, row, nodes, shown, members) && header.grouping == row.grouping
    requires RowObject(row, o) && StillToCome(t, header.uid, row, o)
    requires PlacementOk(t, header, o, row.showPending, Placed)
    ensures RowShown(Insert(t, header.uid, Stored(o, row.grouping)), header.uid, row, nodes + [o.uid],
                     shown + [Stored(o, row.grouping)], members + [[o]])
  {
    PlacedListing(t, header.uid, nodes, shown, Stored(o, row.grouping));
    PlacedSettled(t, header.uid, row, nodes, shown, members, o);
    forall i | 0 <= i < |members| ensures !Together(row, members[i][0], o) {
      if Groups(row, o) {
        NodeMatches(t, header.uid, row, nodes, shown, members, i, o);
      }
    }
    AppendSeparate(row, members, o);
  }

  lemma NodeMatches(t: Tree, h: Uid, row: Row, nodes: seq<Uid>, shown: seq<Object>, members: seq<seq<Object>>,
                    i: nat, o: Object)
    requires RowShown(t, h, row, nodes, shown, members) && i < |nodes| && Groups(row, o) && o.kind == row.kind
    ensures Matches(t, h, o, nodes[i], row.showPending) <==> Together(row, members[i][0], o)
    ensures Matches(t, h, o, nodes[i], row.showPending) ==> (IsGroupOf(shown[i], o) <==> |members[i]| > 1)
  {
    assert nodes[i] in nodes;
    assert Shows(shown[i], members[i], row) && SettledNode(t, row, nodes[i], |members[i]| > 1);
    MatchesIffTogether(t, h, row, nodes[i], members[i], o);
  }

  lemma JoinedRow(t: Tree, h: Uid, row: Row, nodes: seq<Uid>, shown: seq<Object>, members: seq<seq<Object>>,
                  i: nat, o: Object)
    requires RowShown(t, h, row, nodes, shown, members) && i < |nodes|
    requires RowObject(row, o) && |members[i]| > 1 && Together(row, members[i][0], o)
    ensures var node := UpdateGroupNode(shown[i], o);
            RowShown(Updated(t, nodes[i], node), h, row, nodes, shown[i := node], members[i := members[i] + [o]])
  {
    var node := UpdateGroupNode(shown[i], o);
    assert Shows(shown[i], members[i], row);
    JoinShows(row, shown[i], members[i], o);
    UpdatedListing(t, h, nodes, shown, i, node);
    UpdatedSettled(t, h, row, nodes, shown, members, i, node, members[i] + [o]);
    GrowSeparate(row, members, i, o);
  }

  lemma MergedRow(t: Tree, h: Uid, row: Row, nodes: seq<Uid>, shown: seq<Object>, members: seq<seq<Object>>,
                  i: nat, o: Object, id: Uid, name: string)
    requires RowShown(t, h, row, nodes, shown, members) && i < |nodes|
    requires RowObject(row, o) && |members[i]| == 1 && Plain(members[i][0].name) && Together(row, members[i][0], o)
    requires Unused(t, h, id)
    ensures var node := CreateGroupNode(shown[i], o, id, name);
            RowShown(AfterMerge(t, h, nodes[i], node), h, row, nodes[i := id], shown[i := node],
                     members[i := members[i] + [o]])
  {
    var node := CreateGroupNode(shown[i], o, id, name);
    var first := members[i][0];
    assert Shows(shown[i], members[i], row);
    assert members[i] + [o] == [first, o];
    MergeShows(row, first, o, id, name);
    MergedListing(t, h, nodes, shown, i, node, row.showPending);
    MergedSettled(t, h, row, nodes, shown, members, i, node, [first, o]);
    GrowSeparate(row, members, i, o);
  }

  /** However the next object is placed, the row shows it too. */
  lemma RowStep(t: Tree, header: Object, row: Row, nodes: seq<Uid>, shown: seq<Object>, members: seq<seq<Object>>,
                o: Object, id: Uid, name: string, placement: Placement)
    returns (nodes': seq<Uid>, shown': seq<Object>, members': seq<seq<Object>>, i: nat)
    requires RowShown(t, header.uid, row, nodes, shown, members) && header.grouping == row.grouping
    requires forall k :: 0 <= k < |members| && |members[k]| == 1 ==> Plain(members[k][0].name)
    requires RowObject(row, o) && StillToCome(t, header.uid, row, o) && Unused(t, header.uid, id)
    requires PlacementOk(t, header, o, row.showPending, placement)
    ensures RowShown(AfterAdd(t, header.uid, o, row.grouping, id, name, placement),
                     header.uid, row, nodes', shown', members')
    ensures Grown(members, members', i, o)
  {
    match placement
    case Placed =>
      PlacedRow(t, header, row, nodes, shown, members, o);
      nodes', shown', members', i :=
        nodes + [o.uid], shown + [Stored(o, row.grouping)], members + [[o]], |members|;
    case Joined(g) =>
      assert g in nodes;
      i :| 0 <= i < |nodes| && nodes[i] == g;
      NodeMatches(t, header.uid, row, nodes, shown, members, i, o);
      JoinedRow(t, header.uid, row, nodes, shown, members, i, o);
      nodes', shown', members' := nodes, shown[i := UpdateGroupNode(shown[i], o)], members[i := members[i] + [o]];
    case Merged(s) =>
      assert s in nodes;
      i :| 0 <= i < |nodes| && nodes[i] == s;
      NodeMatches(t, header.uid, row, nodes, shown, members, i, o);
      assert |members[i]| >= 1;
      MergedRow(t, header.uid, row, nodes, shown, members, i, o, id, name);
      nodes', shown', members' :=
        nodes[i := id], shown[i := CreateGroupNode(shown[i], o, id, name)], members[i := members[i] + [o]];
  }

  /** What is still to come is not disturbed by the placement of another object. */
  ghost predicate Undisturbed(t: Tree, u: Tree, h: Uid, b: Uid, showPending: bool) {
    && b !in u.parentship && !AtOrBelow(u.parentship, h, b)
    && NotReadyBelow(u, b, showPending) == NotReadyBelow(t, b, showPending)
    && (Owned(t, b) == {} ==> Owned(u, b) == {})
  }

  lemma LaterStaysPlaced(t: Tree, h: Uid, row: Row, o: Object, b: Uid)
    requires ValidTree(t) && StillToCome(t, h, row, o)
    requires b !in t.parentship && !AtOrBelow(t.parentship, h, b) && b != o.uid
    ensures Undisturbed(t, Insert(t, h, Stored(o, row.grouping)), h, b, row.showPending)
  {
    AtOrBelowSelf(t.parentship, h);
    InsertStays(t, h, Stored(o, row.grouping), b, row.showPending);
  }

  lemma LaterStaysJoined(t: Tree, h: Uid, row: Row, g: Uid, node: Object, b: Uid)
    requires ValidTree(t) && g in Owned(t, h) && node.uid == g
    requires b !in t.parentship && !AtOrBelow(t.parentship, h, b)
    ensures Undisturbed(t, Updated(t, g, node), h, b, row.showPending)
  {
    UpdateStays(t, h, g, node, b, row.showPending);
  }

  lemma LaterStaysMerged(t: Tree, h: Uid, row: Row, s: Uid, node: Object, b: Uid)
    requires ValidTree(t) && s in Owned(t, h) && Unused(t, h, node.uid)
    requires b !in t.parentship && !AtOrBelow(t.parentship, h, b) && b != node.uid
    ensures Undisturbed(t, AfterMerge(t, h, s, node), h, b, row.showPending)
  {
    AtOrBelowSelf(t.parentship, h);
    MergeStays(t, h, s, node, b, row.showPending);
    MergedOwned(t, h, s, node);
  }

  lemma LaterStays(t: Tree, header: Object, row: Row, o: Object, id: Uid, name: string, placement: Placement, b: Uid)
    requires ValidTree(t) && StillToCome(t, header.uid, row, o) && Unused(t, header.uid, id)
    requires PlacementOk(t, header, o, row.showPending, placement)
    requires b !in t.parentship && !AtOrBelow(t.parentship, header.uid, b) && b != o.uid && b != id
    ensures Undisturbed(t, AfterAdd(t, header.uid, o, row.grouping, id, name, placement),
                        header.uid, b, row.showPending)
  {
    match placement
    case Placed => LaterStaysPlaced(t, header.uid, row, o, b);
    case Joined(g) => LaterStaysJoined(t, header.uid, row, g, UpdateGroupNode(t.items[g], o), b);
    case Merged(s) => LaterStaysMerged(t, header.uid, row, s, CreateGroupNode(t.items[s], o, id, name), b);
  }

  // ---------------------------------------------------------------- adding the whole row

  /** The identities set aside for group nodes: one per object, all different and not an object's. */
  ghost predicate SetAside(row: Row, ids: seq<Uid>) {
    && |ids| == |row.objs| && Distinct(ids)
    && forall x, y :: 0 <= x < |ids| && 0 <= y < |row.objs| ==> ids[x] != row.objs[y].uid
  }

  /** The objects housed so far are shown under the header; the others are still to come. */
  ghost predicate RowSoFar(t: Tree, header: Object, row: Row, ids: seq<Uid>, nodes: seq<Uid>, shown: seq<Object>,
                           members: seq<seq<Object>>, home: seq<nat>) {
    && RowInput(row) && SetAside(row, ids) && header.grouping == row.grouping
    && RowShown(t, header.uid, row, nodes, shown, members) && Housed(row.objs, home, members)
    && MemberNames(members) == multiset(Names(row.objs[..|home|]))
    && (forall x :: |home| <= x < |row.objs| ==> StillToCome(t, header.uid, row, row.objs[x]))
    && (forall x :: |home| <= x < |ids| ==> Unused(t, header.uid, ids[x]))
  }

  lemma HousedAreObjects(row: Row, shown: seq<Object>, members: seq<seq<Object>>, home: seq<nat>)
    requires RowInput(row) && Housed(row.objs, home, members)
    ensures forall k :: 0 <= k < |members| && |members[k]| == 1 ==> Plain(members[k][0].name)
  {
    forall k | 0 <= k < |members| && |members[k]| == 1 ensures Plain(members[k][0].name) {
      MemberIsObject(row.objs, home, k);
    }
  }

  lemma {:induction false} MemberIsObject(objs: seq<Object>, home: seq<nat>, k: nat)
    requires |home| <= |objs|
    ensures forall m :: 0 <= m < |Members(objs, home, k)| ==> Members(objs, home, k)[m] in objs
  {
    if home != [] {
      MemberIsObject(objs, home[..|home| - 1], k);
    }
  }

  lemma GrownHoused(row: Row, members: seq<seq<Object>>, home: seq<nat>, members': seq<seq<Object>>, i: nat)
    requires Housed(row.objs, home, members) && |home| < |row.objs|
    requires MemberNames(members) == multiset(Names(row.objs[..|home|]))
    requires Grown(members, members', i, row.objs[|home|])
    ensures Housed(row.objs, home + [i], members')
    ensures MemberNames(members') == multiset(Names(row.objs[..|home| + 1]))
  {
    var o := row.objs[|home|];
    assert Names(row.objs[..|home| + 1]) == Names(row.objs[..|home|]) + [o.name];
    if i == |members| && members' == members + [[o]] {
      HousedAppend(row.objs, home, members);
      NamesAppend(members, o);
    } else {
      HousedGrow(row.objs, home, members, i);
      NamesGrow(members, i, o);
    }
  }

  lemma LaterOnes(t: Tree, header: Object, row: Row, ids: seq<Uid>, j: nat, name: string, placement: Placement)
    requires ValidTree(t) && RowInput(row) && SetAside(row, ids) && j < |row.objs|
    requires forall x :: j <= x < |row.objs| ==> StillToCome(t, header.uid, row, row.objs[x])
    requires forall x :: j <= x < |ids| ==> Unused(t, header.uid, ids[x])
    requires PlacementOk(t, header, row.objs[j], row.showPending, placement)
    ensures var u := AfterAdd(t, header.uid, row.objs[j], row.grouping, ids[j], name, placement);
            && (forall x :: j < x < |row.objs| ==> StillToCome(u, header.uid, row, row.objs[x]))
            && (forall x :: j < x < |ids| ==> Unused(u, header.uid, ids[x]))
  {
    var u := AfterAdd(t, header.uid, row.objs[j], row.grouping, ids[j], name, placement);
    forall x | j < x < |row.objs| ensures StillToCome(u, header.uid, row, row.objs[x]) {
      LaterStays(t, header, row, row.objs[j], ids[j], name, placement, row.objs[x].uid);
    }
    forall x | j < x < |ids| ensures Unused(u, header.uid, ids[x]) {
      LaterStays(t, header, row, row.objs[j], ids[j], name, placement, ids[x]);
    }
  }

  lemma OneMore(t: Tree, header: Object, row: Row, ids: seq<Uid>, nodes: seq<Uid>, shown: seq<Object>,
                members: seq<seq<Object>>, home: seq<nat>, name: string, placement: Placement)
    returns (nodes': seq<Uid>, shown': seq<Object>, members': seq<seq<Object>>, i: nat)
    requires RowSoFar(t, header, row, ids, nodes, shown, members, home) && |home| < |row.objs|
    requires PlacementOk(t, header, row.objs[|home|], row.showPending, placement)
    ensures RowSoFar(AfterAdd(t, header.uid, row.objs[|home|], row.grouping, ids[|home|], name, placement),
                     header, row, ids, nodes', shown', members', home + [i])
  {
    var j := |home|;
    HousedAreObjects(row, shown, members, home);
    nodes', shown', members', i :=
      RowStep(t, header, row, nodes, shown, members, row.objs[j], ids[j], name, placement);
    GrownHoused(row, members, home, members', i);
    LaterOnes(t, header, row, ids, j, name, placement);
  }

  /** The header before any object is added. */
  lemma EmptyRow(t: Tree, parent: Uid, header: Object, row: Row, ids: seq<Uid>)
    requires ValidTree(t) && RowInput(row) && SetAside(row, ids) && header.grouping == row.grouping
    requires Unused(t, parent, header.uid)
    requires forall x :: 0 <= x < |row.objs| ==>
               StillToCome(t, parent, row, row.objs[x]) && row.objs[x].uid != header.uid
    requires forall x :: 0 <= x < |ids| ==> Unused(t, parent, ids[x]) && ids[x] != header.uid
    ensures RowSoFar(Insert(t, parent, header), header, row, ids, [], [], [], [])
  {
    var u := Insert(t, parent, header);
    AtOrBelowSelf(t.parentship, parent);
    InsertValid(t, parent, header);
    assert Owned(u, header.uid) == {};
    forall x | 0 <= x < |row.objs| ensures StillToCome(u, header.uid, row, row.objs[x]) {
      NewHeader(t, parent, header, row.objs[x].uid, row.showPending);
    }
    forall x | 0 <= x < |ids| ensures Unused(u, header.uid, ids[x]) {
      NewHeader(t, parent, header, ids[x], row.showPending);
    }
    assert Names(row.objs[..0]) == [];
  }

  lemma NewHeader(t: Tree, parent: Uid, header: Object, b: Uid, showPending: bool)
    requires ValidTree(t) && Unused(t, parent, header.uid)
    requires b !in t.parentship && !AtOrBelow(t.parentship, parent, b) && b != header.uid
    ensures Undisturbed(t, Insert(t, parent, header), header.uid, b, showPending)
  {
    AtOrBelowSelf(t.parentship, parent);
    InsertStays(t, parent, header, b, showPending);
    AtOrBelowStep(Insert(t, parent, header).parentship, header.uid, b);
  }
}
