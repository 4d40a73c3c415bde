/** The mutable status tree of dpfctl. */
module ObjectTrees {
  import opened Common
  import opened TreeShape
  import opened TreeObjects
  import opened TreePruning
  import opened TreeSpec
  import opened TreeGrouping
  import opened GroupNames
  import opened TreeRows
  import opened TreeRowSteps
  import opened TreeFrames

  class ObjectTree {
    const root: Object
    const showPending: bool
    const groupingEnabled: bool
    var items: map<Uid, Object>
    var ownership: map<Uid, set<Uid>>
    var parentship: map<Uid, Uid>

    constructor (root: Object, showPending: bool, groupingEnabled: bool)
      ensures View() == EMPTY && ValidTree(View())
      ensures this.root == root && this.showPending == showPending && this.groupingEnabled == groupingEnabled
    {
      this.root, this.showPending, this.groupingEnabled := root, showPending, groupingEnabled;
      items, ownership, parentship := map[], map[], map[];
    }

    ghost function View(): Tree
      reads this
    {
      Tree(items, ownership, parentship)
    }

    ghost predicate Valid()
      reads this
    {
      ValidTree(View())
    }

    function Children(id: Uid): (children: set<Uid>)
      reads this
      ensures children == Owned(View(), id)
    {
      if id in ownership then ownership[id] else {}
    }

    /** Deletes an object and everything below it, and nothing else. The children are visited in
        an arbitrary order, as Go's map iteration does. */
    method Remove(parent: Uid, s: Uid)
      requires Valid() && s in parentship && parentship[s] == parent
      modifies this
      ensures View() == Without(old(View()), Covered(old(parentship), {s})) && Valid()
      decreases Subtree(parentship, s)
    {
      ghost var t := View();
      var todo := Children(s);
      ghost var removed: set<Uid> := {};
      assert Covered(t.parentship, removed) == {};
      WithoutNothing(t);
      while todo != {}
        invariant todo !! removed && todo + removed == Owned(t, s)
        invariant View() == Without(t, Covered(t.parentship, removed))
        decreases todo
      {
        var c :| c in todo;
        NextChild(t, s, removed, c);
        Remove(s, c);
        WithoutTwice(t, Covered(t.parentship, removed), Covered(t.parentship, {c}));
        CoveredOfSum(t.parentship, removed, {c});
        todo, removed := todo - {c}, removed + {c};
      }
      CoveredByChildren(t.parentship, s, removed);
      CoveredByOne(t.parentship, s);
      CoveredIsDownClosed(t.parentship, {s});
      WithoutValid(t, Covered(t.parentship, {s}));
      items := items - {s};
      ownership := ownership[parent := Children(parent) - {s}];
      parentship := parentship - {s};
      RemoveLast(t, parent, s, View());
    }

    /** Removes the healthy subtrees below `o`. Returns whether `o` and all below it are healthy. */
    method PruneHealthyChildren(o: Object) returns (healthy: bool)
      requires Valid()
      modifies this
      ensures View() == Pruned(old(View()), o.uid, showPending) && Valid()
      ensures healthy <==> IsHealthy(o, showPending) &&
                           Subtree(old(parentship), o.uid) <= HealthyOnes(old(View()), showPending)
      decreases Subtree(parentship, o.uid), 0
    {
      hide AtOrBelow, Acyclic, Agree, IsHealthy, Sound, Without;
      ghost var t := View();
      ghost var fine := HealthyOnes(t, showPending);
      var children := Children(o.uid);
      AfterRemovals(t, o.uid, fine);
      if children == {} {
        assert Prunable(t.parentship, fine, o.uid) == {};
        WithoutNothing(t);
        return IsHealthy(o, showPending);
      }

      var healthyChildren: set<Uid> := {};
      var hasUnhealthyChild := false;
      var todo := children;
      ghost var pruned: set<Uid> := {};
      assert PrunableBelow(t.parentship, fine, pruned) == {};
      WithoutNothing(t);
      while todo != {}
        invariant todo !! pruned && todo + pruned == children
        invariant View() == Without(t, PrunableBelow(t.parentship, fine, pruned))
        invariant healthyChildren == SoundOnes(t.parentship, fine, pruned)
        invariant hasUnhealthyChild <==> healthyChildren != pruned
        decreases todo
      {
        var c :| c in todo;
        OwnedChild(t, o.uid, c);
        var sound := PruneChild(t, o.uid, pruned, c);
        if sound {
          healthyChildren := healthyChildren + {c};
        } else {
          hasUnhealthyChild := true;
        }
        todo, pruned := todo - {c}, pruned + {c};
      }
      assert pruned == children;
      RemoveSoundChildren(t, o.uid, healthyChildren);
      return !hasUnhealthyChild && IsHealthy(o, showPending);
    }

    /** One round of the first loop: the recursive call on child `c`. */
    method PruneChild(ghost t: Tree, ghost o: Uid, ghost pruned: set<Uid>, c: Uid) returns (sound: bool)
      requires ValidTree(t) && pruned <= Owned(t, o) && c in Owned(t, o) && c !in pruned
      requires View() == Without(t, PrunableBelow(t.parentship, HealthyOnes(t, showPending), pruned))
      modifies this
      ensures View() == Without(t, PrunableBelow(t.parentship, HealthyOnes(t, showPending), pruned + {c}))
      ensures sound <==> Sound(t.parentship, HealthyOnes(t, showPending), c)
      decreases Subtree(t.parentship, c), 1
    {
      ghost var fine := HealthyOnes(t, showPending);
      BeforeChild(t, o, fine, pruned, c);
      HealthyWithout(t, PrunableBelow(t.parentship, fine, pruned), showPending);
      sound := PruneHealthyChildren(items[c]);
      AfterChild(t, fine, pruned, c);
    }

    /** The closing loop of pruning: removes the children found healthy through and through. */
    method RemoveSoundChildren(ghost t: Tree, o: Uid, healthyChildren: set<Uid>)
      requires ValidTree(t)
      requires View() == Without(t, PrunableBelow(t.parentship, HealthyOnes(t, showPending), Owned(t, o)))
      requires healthyChildren == SoundOnes(t.parentship, HealthyOnes(t, showPending), Owned(t, o))
      modifies this
      ensures View() == Pruned(t, o, showPending)
    {
      ghost var below := PrunableBelow(t.parentship, HealthyOnes(t, showPending), Owned(t, o));
      var todo := healthyChildren;
      ghost var removed: set<Uid> := {};
      assert below + removed == below;
      while todo != {}
        invariant todo !! removed && todo + removed == healthyChildren
        invariant View() == Without(t, below + removed)
        decreases todo
      {
        var c :| c in todo;
        BeforeRemoval(t, o, HealthyOnes(t, showPending), removed, c);
        Remove(o, c);
        WithoutTwice(t, below + removed, {c});
        assert below + removed + {c} == below + (removed + {c});
        todo, removed := todo - {c}, removed + {c};
      }
      AfterRemovals(t, o, HealthyOnes(t, showPending));
    }

    /** Whether some child is not ready; organizational children are looked through. */
    method HasNotReadyChildren(id: Uid) returns (found: bool)
      requires Valid()
      ensures found <==> NotReadyBelow(View(), id, showPending)
      decreases Subtree(parentship, id)
    {
      ghost var t := View();
      NotReadyStep(t, id, showPending);
      var todo := Children(id);
      while todo != {}
        invariant todo <= Owned(t, id)
        invariant forall c :: c in Owned(t, id) && c !in todo ==> c in t.items && !NotReadyChild(t, c, showPending)
        decreases todo
      {
        var c :| c in todo;
        OwnedChild(t, id, c);
        var child := items[c];
        var childReady := ReadyOf(child);
        if childReady.None? {
          if HasFailedConditions(child, showPending) {
            return true;
          }
          if |child.conditions| == 0 {
            var below := HasNotReadyChildren(c);
            if below {
              return true;
            }
          }
        } else if childReady.value.status != ConditionTrue {
          return true;
        }
        todo := todo - {c};
      }
      return false;
    }

    method AddInner(parent: Uid, o: Object)
      modifies this
      ensures View() == Insert(old(View()), parent, o)
    {
      items := items[o.uid := o];
      if parent !in ownership {
        ownership := ownership[parent := {}];
      }
      ownership := ownership[parent := ownership[parent] + {o.uid}];
      parentship := parentship[o.uid := parent];
    }

    /** The first sibling, in the order of the kinds, that the object is to be grouped with. */
    method FindSibling(parent: Uid, o: Object) returns (found: Option<Uid>)
      requires Valid()
      ensures match found
              case None => forall s :: !Matches(View(), parent, o, s, showPending)
              case Some(s) => FirstMatch(View(), parent, o, s, showPending)
    {
      var todo := Children(parent);
      while todo != {}
        invariant todo <= Children(parent)
        invariant forall s :: s in Children(parent) && s !in todo ==> !Matches(View(), parent, o, s, showPending)
        decreases todo
      {
        ghost var _ := SmallestKind(View(), todo);
        var s :| s in todo && forall u :: u in todo ==> AtMost(items[s].kind, items[u].kind);
        OwnedChild(View(), parent, s);
        var sibling := items[s];
        if SameStatusAndReason(ReadyOf(o), ReadyOf(sibling)) {
          var unready := HasNotReadyChildren(s);
          if !unready && (sibling.group || sibling.kind == o.kind) {
            return Some(s);
          }
        }
        todo := todo - {s};
      }
      return None;
    }

    /** Puts the object into the group `s`, or replaces sibling `s` by a group of the two. */
    method GroupWith(parent: Object, o: Object, s: Uid, ghost grouping: bool, groupId: Uid, groupName: string)
      returns (placement: Placement)
      requires Valid() && Eligible(View(), parent, o, showPending) && FirstMatch(View(), parent.uid, o, s, showPending)
      requires groupId !in parentship && !AtOrBelow(parentship, parent.uid, groupId)
      modifies this
      ensures Valid() && PlacementOk(old(View()), parent, o, showPending, placement)
      ensures View() == AfterAdd(old(View()), parent.uid, o, grouping, groupId, groupName, placement)
    {
      ghost var t := View();
      var sibling := items[s];
      if sibling.group && sibling.kind == o.kind + GROUP {
        placement := Joined(s);
        items := items[s := UpdateGroupNode(sibling, o)];
        JoinValid(t, s, o);
      } else {
        placement := Merged(s);
        var node := CreateGroupNode(sibling, o, groupId, groupName);
        MergeValid(t, parent.uid, s, node);
        AddInner(parent.uid, node);
        Remove(parent.uid, s);
      }
    }

    /** Adds one object, or merges it with a ready sibling. `groupId` and `groupName` are the random
        identity a new group node would get. */
    method Add(parent: Object, obj: Object, grouping: bool, zOrder: int, groupId: Uid, groupName: string)
      returns (placement: Placement, added: Object)
      requires Valid() && groupId !in parentship && !AtOrBelow(parentship, parent.uid, groupId)
      modifies this
      ensures added == obj.(zOrder := zOrder)
      ensures PlacementOk(old(View()), parent, added, showPending, placement)
      ensures View() == AfterAdd(old(View()), parent.uid, added, grouping && groupingEnabled,
                                 groupId, groupName, placement)
      ensures Valid() <==> (placement.Placed? ==> CanInsert(old(View()), parent.uid, obj.uid))
    {
      hide AtOrBelow, CanInsert, ValidTree, NotReadyBelow;
      ghost var t := View();
      added := obj.(zOrder := zOrder);
      var objReady := ReadyOf(added);
      var unready := HasNotReadyChildren(added.uid);
      if parent.grouping && objReady.Some? && objReady.value.status == ConditionTrue && !unready {
        var found := FindSibling(parent.uid, added);
        if found.Some? {
          placement := GroupWith(parent, added, found.value, grouping && groupingEnabled, groupId, groupName);
          return;
        }
      }
      placement := Placed;
      InsertValid(t, parent.uid, Stored(added, grouping && groupingEnabled));
      AddInner(parent.uid, Stored(added, grouping && groupingEnabled));
    }

    /** Adds the next object of a row below its header. */
    method AddToRow(header: Object, obj: Object, grouping: bool, zOrder: int, id: Uid, name: string, ghost row: Row,
                    ghost ids: seq<Uid>, ghost nodes: seq<Uid>, ghost shown: seq<Object>,
                    ghost members: seq<seq<Object>>, ghost home: seq<nat>)
      returns (ghost nodes': seq<Uid>, ghost shown': seq<Object>, ghost members': seq<seq<Object>>,
               ghost home': seq<nat>)
      requires Valid() && RowSoFar(View(), header, row, ids, nodes, shown, members, home)
      requires row.grouping == (grouping && groupingEnabled) && row.showPending == showPending
      requires |home| < |row.objs| && row.objs[|home|] == obj.(zOrder := zOrder) && |home| < |ids| && ids[|home|] == id
      modifies this
      ensures Valid() && |home'| == |home| + 1
      ensures RowSoFar(View(), header, row, ids, nodes', shown', members', home')
      ensures forall k :: LeftAlone(old(View()), View(), header.uid, row, |home|, k)
    {
      hide Listing, Settled, MemberNames, AtOrBelow, AllShown, Separate, Names, FirstMatch;
      ghost var t := View();
      var placement, _ := Add(header, obj, grouping, zOrder, id, name);
      ghost var i;
      nodes', shown', members', i := OneMore(t, header, row, ids, nodes, shown, members, home, name, placement);
      home' := home + [i];
      forall k ensures LeftAlone(t, View(), header.uid, row, |home|, k) {
        AddLeavesAlone(t, header, row, |home|, id, name, placement, k);
      }
    }

    /** Adds a virtual header and a row of objects of one kind below it. Afterwards the children of
        the header show exactly the names added; object `x` is shown by node `home[x]`, and two
        objects share a node exactly when both are to be grouped and have the same reason. The header
        is below the parent, and every node that belongs to none of the objects stays as it is. */
    method AddMultipleWithHeader(parent: Object, objs: seq<Object>, headerName: string, headerId: Uid, grouping: bool,
                                 zOrder: int, ids: seq<Uid>, names: seq<string>, ghost row: Row)
      returns (ghost nodes: seq<Uid>, ghost shown: seq<Object>, ghost members: seq<seq<Object>>, ghost home: seq<nat>)
      requires Valid() && RowInput(row) && SetAside(row, ids) && |names| == |ids| && |objs| == |row.objs|
      requires row.grouping == (grouping && groupingEnabled) && row.showPending == showPending
      requires forall x :: 0 <= x < |objs| ==> row.objs[x] == objs[x].(zOrder := zOrder)
      requires Unused(View(), parent.uid, headerId)
      requires forall x :: 0 <= x < |objs| ==>
                 StillToCome(View(), parent.uid, row, row.objs[x]) && row.objs[x].uid != headerId
      requires forall x :: 0 <= x < |ids| ==> Unused(View(), parent.uid, ids[x]) && ids[x] != headerId
      modifies this
      ensures Valid()
      ensures objs == [] ==> View() == old(View())
      ensures objs != [] ==>
                && Listing(View(), headerId, nodes, shown) && AllShown(row, shown, members)
                && Housed(row.objs, home, members) && |home| == |objs|
                && AllNames(shown) == multiset(Names(objs))
                && forall x, y :: 0 <= x < |home| && 0 <= y < |home| ==>
                     (home[x] == home[y] <==> x == y || Together(row, row.objs[x], row.objs[y]))
      ensures objs != [] ==>
                && headerId in items && headerId in parentship && parentship[headerId] == parent.uid
                && items[headerId] == Object(headerId, headerName, headerName, [], grouping && groupingEnabled,
                                             false, "",
                                             zOrder)
      ensures objs != [] ==> OthersKept(old(View()), View(), row)
    {
      hide OthersKept, StillKept, LeftAlone, Listing, Settled, MemberNames, ValidTree, AtOrBelow,
           AllShown, Separate, Names, FirstMatch;
      nodes, shown, members, home := [], [], [], [];
      if |objs| == 0 {
        return;
      }
      ghost var t := View();
      var header := Object(headerId, headerName, headerName, [], false, false, "", 0);
      var placement, added := Add(parent, header, grouping, zOrder, ids[0], names[0]);
      header := Stored(added, grouping && groupingEnabled);
      EmptyRow(t, parent.uid, header, row, ids);
      KeptAtFirst(t, parent.uid, header, row);
      ghost var begun, keep := View(), ToKeep(t, headerId, row);
      for j := 0 to |objs|
        invariant |home| == j && Valid()
        invariant RowSoFar(View(), header, row, ids, nodes, shown, members, home)
        invariant StillKept(begun, View(), header.uid, row, j, keep)
      {
        ghost var before := View();
        nodes, shown, members, home := AddToRow(header, objs[j], grouping, zOrder, ids[j], names[j], row, ids, nodes,
                                                shown, members, home);
        KeptByOneMore(begun, before, View(), header.uid, row, j, keep);
      }
      KeptInTheEnd(t, parent.uid, header, View(), row, |objs|);
      RowComplete(row, objs, zOrder, shown, members, home);
    }

    method PruneHealthy()
      requires Valid()
      modifies this
      ensures View() == Pruned(old(View()), root.uid, showPending) && Valid()
    {
      var _ := PruneHealthyChildren(root);
    }
  }

  lemma RowComplete(row: Row, objs: seq<Object>, zOrder: int, shown: seq<Object>, members: seq<seq<Object>>,
                    home: seq<nat>)
    requires RowInput(row) && AllShown(row, shown, members) && Separate(row, members)
    requires Housed(row.objs, home, members) && |home| == |objs| == |row.objs|
    requires forall x :: 0 <= x < |objs| ==> row.objs[x] == objs[x].(zOrder := zOrder)
    requires MemberNames(members) == multiset(Names(row.objs[..|home|]))
    ensures AllNames(shown) == multiset(Names(objs))
    ensures forall x, y :: 0 <= x < |home| && 0 <= y < |home| ==>
              (home[x] == home[y] <==> x == y || Together(row, row.objs[x], row.objs[y]))
  {
    NamesOfAll(row, shown, members);
    assert Names(row.objs[..|home|]) == Names(objs);
    forall x, y | 0 <= x < |home| && 0 <= y < |home|
      ensures home[x] == home[y] <==> x == y || Together(row, row.objs[x], row.objs[y])
    {
      SharedIffTogether(row, shown, members, home, x, y);
    }
  }
}
