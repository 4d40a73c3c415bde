/** The names shown below a node, and when adding one more object loses some of them. */
module TreeNames {
  import opened TreeShape
  import opened TreeObjects
  import opened TreeSpec
  import opened TreeGrouping
  import opened TreeRows
  import opened GroupNames

  // ---------------------------------------------------------------- the names below a node

  /** All names that the given nodes show. */
  ghost function NamesOf(items: map<Uid, Object>, ids: set<Uid>): multiset<string>
    requires ids <= items.Keys
    decreases ids
  {
    if ids == {} then multiset{}
    else
      var c :| c in ids;
      ShownNames(items[c]) + NamesOf(items, ids - {c})
  }

  /** Which node is taken first makes no difference. */
  lemma {:induction false} NamesOfAny(items: map<Uid, Object>, ids: set<Uid>, x: Uid)
    requires ids <= items.Keys && x in ids
    ensures NamesOf(items, ids) == ShownNames(items[x]) + NamesOf(items, ids - {x})
    decreases ids
  {
    hide ShownNames;
    var c :| c in ids && NamesOf(items, ids) == ShownNames(items[c]) + NamesOf(items, ids - {c});
    if c != x {
      NamesOfAny(items, ids - {c}, x);
      NamesOfAny(items, ids - {x}, c);
      assert ids - {c} - {x} == ids - {x} - {c};
    }
  }

  lemma {:induction false} SameNamesOf(items: map<Uid, Object>, after: map<Uid, Object>, ids: set<Uid>)
    requires ids <= items.Keys && ids <= after.Keys && forall k :: k in ids ==> after[k] == items[k]
    ensures NamesOf(items, ids) == NamesOf(after, ids)
    decreases ids
  {
    hide ShownNames;
    if ids != {} {
      var c :| c in ids;
      NamesOfAny(items, ids, c);
      NamesOfAny(after, ids, c);
      SameNamesOf(items, after, ids - {c});
    }
  }

  /** The names shown by the children of a node. */
  ghost function ChildNames(t: Tree, parent: Uid): multiset<string>
    requires Agree(t)
  {
    NamesOf(t.items, Owned(t, parent))
  }

  /** One child comes in, and perhaps another goes. */
  lemma ChildNamesAfter(t: Tree, u: Tree, parent: Uid, gone: set<Uid>, c: Uid)
    requires Agree(t) && Agree(u) && gone <= Owned(t, parent)
    requires c !in Owned(t, parent) - gone && Owned(u, parent) == Owned(t, parent) - gone + {c}
    requires forall k :: k in Owned(t, parent) - gone ==> u.items[k] == t.items[k]
    ensures c in u.items && gone <= t.items.Keys
    ensures ChildNames(t, parent) == NamesOf(t.items, Owned(t, parent) - gone) + NamesOf(t.items, gone)
    ensures ChildNames(u, parent) == NamesOf(t.items, Owned(t, parent) - gone) + ShownNames(u.items[c])
  {
    hide ShownNames, NamesOf;
    var rest := Owned(t, parent) - gone;
    NamesOfSum(t.items, rest, gone);
    assert rest + gone == Owned(t, parent);
    assert c in Owned(u, parent);
    NamesOfAny(u.items, Owned(u, parent), c);
    assert Owned(u, parent) - {c} == rest;
    SameNamesOf(t.items, u.items, rest);
  }

  lemma {:induction false} NamesOfSum(items: map<Uid, Object>, a: set<Uid>, b: set<Uid>)
    requires a + b <= items.Keys && a !! b
    ensures NamesOf(items, a + b) == NamesOf(items, a) + NamesOf(items, b)
    decreases b
  {
    hide ShownNames;
    if b == {} {
      assert a + b == a;
    } else {
      var c :| c in b;
      NamesOfAny(items, b, c);
      NamesOfAny(items, a + b, c);
      assert a + b - {c} == a + (b - {c});
      NamesOfSum(items, a, b - {c});
    }
  }

  lemma NamesOfOneNode(items: map<Uid, Object>, x: Uid)
    requires x in items
    ensures NamesOf(items, {x}) == ShownNames(items[x])
  {
    NamesOfAny(items, {x}, x);
    assert {x} - {x} == {};
  }

  lemma NoNames(items: map<Uid, Object>)
    ensures NamesOf(items, {}) == multiset{}
  {
  }

  // ---------------------------------------------------------------- adding an object

  /** Names without the separator, and groups of two names or more. */
  ghost predicate NamesReadable(t: Tree, parent: Uid) {
    forall c :: c in Owned(t, parent) ==>
      c in t.items && Plain(t.items[c].name) && (t.items[c].group ==> |Split(t.items[c].groupItems)| >= 2)
  }

  /** A group that the object is merged with, although it is not a group of its kind. */
  predicate IsOtherGroup(s: Object, o: Object) {
    s.group && !IsGroupOf(s, o)
  }

  ghost predicate CanAdd(t: Tree, parent: Object, o: Object, id: Uid, name: string) {
    && ValidTree(t) && NamesReadable(t, parent.uid) && Plain(o.name) && !o.group && Plain(name)
    && o.uid !in t.parentship && id !in t.parentship
    && !AtOrBelow(t.parentship, parent.uid, o.uid) && !AtOrBelow(t.parentship, parent.uid, id)
  }

  lemma PlacedNames(t: Tree, parent: Object, o: Object, grouping: bool, id: Uid, name: string)
    requires CanAdd(t, parent, o, id, name)
    ensures var u := Insert(t, parent.uid, Stored(o, grouping));
            ValidTree(u) && NamesReadable(u, parent.uid)
            && ChildNames(u, parent.uid) == ChildNames(t, parent.uid) + multiset{o.name}
  {
    hide Plain, Split, Acyclic, AtOrBelow, NamesOf;
    InsertValid(t, parent.uid, Stored(o, grouping));
    var u := Insert(t, parent.uid, Stored(o, grouping));
    ChildNamesAfter(t, u, parent.uid, {}, o.uid);
    assert NamesOf(t.items, {}) == multiset{} by {
      NoNames(t.items);
    }
  }

  lemma JoinedNames(t: Tree, parent: Object, o: Object, g: Uid, id: Uid, name: string)
    requires CanAdd(t, parent, o, id, name) && g in Owned(t, parent.uid) && g in t.items && t.items[g].group
    ensures var u := t.(items := t.items[g := UpdateGroupNode(t.items[g], o)]);
            ValidTree(u) && NamesReadable(u, parent.uid)
            && ChildNames(u, parent.uid) == ChildNames(t, parent.uid) + multiset{o.name}
  {
    hide Plain, Split, UpdateGroupNode, Acyclic, AtOrBelow, ShownNames, NamesOf;
    JoinValid(t, g, o);
    JoinReads(t.items[g], o);
    var u := t.(items := t.items[g := UpdateGroupNode(t.items[g], o)]);
    assert Owned(u, parent.uid) == Owned(t, parent.uid);
    ChildNamesAfter(t, u, parent.uid, {g}, g);
    NamesOfOneNode(t.items, g);
  }

  lemma JoinReads(group: Object, o: Object)
    requires group.group && Plain(o.name)
    ensures var after := UpdateGroupNode(group, o);
            && after.name == group.name && after.group && |Split(after.groupItems)| == |Split(group.groupItems)| + 1
            && ShownNames(after) == ShownNames(group) + multiset{o.name}
  {
    hide Plain, Split, Sort, Join;
    SplitIsPlain(group.groupItems);
    var names := Split(group.groupItems) + [o.name];
    GroupItemsRead(names);
    assert |multiset(Split(GroupItems(names)))| == |multiset(names)|;
  }

  lemma MergedChildren(t: Tree, parent: Uid, s: Uid, node: Object)
    requires ValidTree(t) && s in Owned(t, parent) && node.uid !in t.parentship
    requires !AtOrBelow(t.parentship, parent, node.uid)
    ensures var v := AfterMerge(t, parent, s, node);
            && ValidTree(v) && Owned(v, parent) == Owned(t, parent) - {s} + {node.uid}
            && node.uid in v.items && v.items[node.uid] == node
            && forall k :: k in Owned(t, parent) - {s} ==> k in v.items && v.items[k] == t.items[k]
  {
    var u := Insert(t, parent, node);
    MergeValid(t, parent, s, node);
    var gone := Covered(u.parentship, {s});
    assert !AtOrBelow(u.parentship, parent, s);
    forall k | k in Owned(u, parent) ensures k in gone <==> k == s {
      AtOrBelowStep(u.parentship, k, s);
    }
  }

  lemma MergedReadable(t: Tree, parent: Object, o: Object, s: Uid, id: Uid, name: string)
    requires CanAdd(t, parent, o, id, name) && s in Owned(t, parent.uid) && s in t.items
    ensures var u := AfterMerge(t, parent.uid, s, CreateGroupNode(t.items[s], o, id, name));
            ValidTree(u) && NamesReadable(u, parent.uid)
  {
    hide Plain, Split, CreateGroupNode, Acyclic, AtOrBelow, AfterMerge;
    var node := CreateGroupNode(t.items[s], o, id, name);
    MergeReads(t.items[s], o, id, name);
    MergedChildren(t, parent.uid, s, node);
  }

  lemma MergedNames(t: Tree, parent: Object, o: Object, s: Uid, id: Uid, name: string)
    requires CanAdd(t, parent, o, id, name) && s in Owned(t, parent.uid) && s in t.items
    ensures var u := AfterMerge(t, parent.uid, s, CreateGroupNode(t.items[s], o, id, name));
            && Agree(u)
            && (ChildNames(u, parent.uid) == ChildNames(t, parent.uid) + multiset{o.name} <==> !t.items[s].group)
  {
    hide Plain, Split, CreateGroupNode, Acyclic, AtOrBelow, ShownNames, AfterMerge, NamesOf;
    var node := CreateGroupNode(t.items[s], o, id, name);
    MergeReads(t.items[s], o, id, name);
    MergeKeepsNamesIff(t.items[s], o, id, name);
    hide NamesReadable;
    MergedChildren(t, parent.uid, s, node);
    ChildNamesAfter(t, AfterMerge(t, parent.uid, s, node), parent.uid, {s}, id);
    NamesOfOneNode(t.items, s);
    var rest := NamesOf(t.items, Owned(t, parent.uid) - {s});
    SumCancels(rest, ShownNames(node), ShownNames(t.items[s]) + multiset{o.name});
  }

  lemma SumCancels(rest: multiset<string>, a: multiset<string>, b: multiset<string>)
    ensures rest + a == rest + b <==> a == b
  {
    if rest + a == rest + b {
      forall x ensures a[x] == b[x] {
        assert (rest + a)[x] == (rest + b)[x];
      }
    }
  }

  lemma MergeReads(s: Object, o: Object, id: Uid, name: string)
    requires Plain(s.name) && Plain(o.name)
    ensures var node := CreateGroupNode(s, o, id, name);
            node.uid == id && node.name == name && node.group && |Split(node.groupItems)| == 2
  {
    hide Plain, Split, Sort, Join;
    GroupItemsRead([o.name, s.name]);
    assert |multiset(Split(GroupItems([o.name, s.name])))| == |multiset([o.name, s.name])|;
  }

  /** Adding an object keeps the names readable, and shows every name as before and the new one
      exactly if the object is not merged with a group of another kind. */
  lemma NamesAfterAdd(t: Tree, parent: Object, o: Object, grouping: bool, id: Uid, name: string, showPending: bool,
                      placement: Placement)
    requires CanAdd(t, parent, o, id, name) && PlacementOk(t, parent, o, showPending, placement)
    ensures var u := AfterAdd(t, parent.uid, o, grouping, id, name, placement);
            && ValidTree(u) && NamesReadable(u, parent.uid)
            && (ChildNames(u, parent.uid) == ChildNames(t, parent.uid) + multiset{o.name} <==>
                !(placement.Merged? && IsOtherGroup(t.items[placement.sibling], o)))
  {
    match placement
    case Placed => PlacedNames(t, parent, o, grouping, id, name);
    case Joined(g) => JoinedNames(t, parent, o, g, id, name);
    case Merged(s) =>
      MergedReadable(t, parent, o, s, id, name);
      MergedNames(t, parent, o, s, id, name);
  }

  /** All names stay shown, in whatever order siblings of one kind are visited, exactly if no first
      match in the order of the kinds is a group of another kind. */
  lemma AddKeepsNamesIff(t: Tree, parent: Object, o: Object, grouping: bool, id: Uid, name: string, showPending: bool)
    requires CanAdd(t, parent, o, id, name)
    ensures (forall placement :: PlacementOk(t, parent, o, showPending, placement) ==>
               KeepsNames(t, parent, o, grouping, id, name, showPending, placement)) <==>
            (Eligible(t, parent, o, showPending) ==>
               forall s :: FirstMatch(t, parent.uid, o, s, showPending) ==> !IsOtherGroup(t.items[s], o))
  {
    hide ValidTree, Plain, Split, ChildNames, AfterAdd;
    forall placement | PlacementOk(t, parent, o, showPending, placement)
      ensures KeepsNames(t, parent, o, grouping, id, name, showPending, placement) <==>
              !(placement.Merged? && IsOtherGroup(t.items[placement.sibling], o))
    {
      NamesAfterAdd(t, parent, o, grouping, id, name, showPending, placement);
    }
    forall s | Eligible(t, parent, o, showPending) && FirstMatch(t, parent.uid, o, s, showPending)
               && IsOtherGroup(t.items[s], o)
      ensures PlacementOk(t, parent, o, showPending, Merged(s))
    {
    }
  }

  ghost predicate KeepsNames(t: Tree, parent: Object, o: Object, grouping: bool, id: Uid, name: string,
                             showPending: bool, placement: Placement)
    requires CanAdd(t, parent, o, id, name) && PlacementOk(t, parent, o, showPending, placement)
  {
    var u := AfterAdd(t, parent.uid, o, grouping, id, name, placement);
    Agree(u) && ChildNames(u, parent.uid) == ChildNames(t, parent.uid) + multiset{o.name}
  }

  // ---------------------------------------------------------------- names that are lost

  const OK := [Condition(READY, ConditionTrue, "Ok", "", 0)]
  const HEADER := Object(0, "Header", "header", [], true, false, "", 0)
  const DPUS := Object(1, "DPUGroup", "dpus", OK, false, true, Join(["a", "b"]), 0)
  const NODES := Object(2, "DPUNodeGroup", "nodes", OK, false, true, Join(["c", "d"]), 0)
  const NODE := Object(3, "DPUNode", "e", OK, false, false, "", 0)
  const TWO_GROUPS := Insert(Insert(EMPTY, 0, DPUS), 0, NODES)

  lemma RootOnly(p: Links, root: Uid, a: Uid)
    requires root !in p && a != root
    ensures !AtOrBelow(p, root, a)
  {
  }

  lemma TwoGroupsValid()
    ensures ValidTree(TWO_GROUPS) && Owned(TWO_GROUPS, 0) == {1, 2}
    ensures !AtOrBelow(TWO_GROUPS.parentship, 0, 3) && !AtOrBelow(TWO_GROUPS.parentship, 0, 4)
  {
    hide AtOrBelow, Acyclic, Join;
    RootOnly(EMPTY.parentship, 0, 1);
    EmptyIsValid();
    InsertValid(EMPTY, 0, DPUS);
    RootOnly(Insert(EMPTY, 0, DPUS).parentship, 0, 2);
    InsertValid(Insert(EMPTY, 0, DPUS), 0, NODES);
    RootOnly(TWO_GROUPS.parentship, 0, 3);
    RootOnly(TWO_GROUPS.parentship, 0, 4);
  }

  lemma EmptyIsValid()
    ensures ValidTree(EMPTY)
  {
  }

  lemma TwoGroupsRead()
    ensures NamesReadable(TWO_GROUPS, 0)
    ensures ShownNames(DPUS) == multiset{"a", "b"} && ShownNames(NODES) == multiset{"c", "d"}
  {
    hide Split, Join;
    SplitJoin(["a", "b"]);
    SplitJoin(["c", "d"]);
    assert multiset(["a", "b"]) == multiset{"a", "b"} && multiset(["c", "d"]) == multiset{"c", "d"};
  }

  lemma TwoGroupsMatch()
    ensures Eligible(TWO_GROUPS, HEADER, NODE, false)
    ensures Matches(TWO_GROUPS, 0, NODE, 1, false) && Matches(TWO_GROUPS, 0, NODE, 2, false)
  {
    hide Join, ValidTree, NotReadyBelow;
    TwoGroupsValid();
    LeafIsNotUnready(TWO_GROUPS, 1, false);
    LeafIsNotUnready(TWO_GROUPS, 2, false);
    LeafIsNotUnready(TWO_GROUPS, 3, false);
  }

  lemma {:induction false} AfterPrefix(prefix: string, a: string, b: string)
    ensures AtMost(prefix + a, prefix + b) <==> AtMost(a, b)
  {
    if prefix == "" {
      assert prefix + a == a && prefix + b == b;
    } else {
      assert (prefix + a)[1..] == prefix[1..] + a && (prefix + b)[1..] == prefix[1..] + b;
      AfterPrefix(prefix[1..], a, b);
    }
  }

  lemma KindOrder()
    ensures AtMost(DPUS.kind, NODES.kind) && !AtMost(NODES.kind, DPUS.kind)
  {
    AfterPrefix("DPU", "Group", "NodeGroup");
    AfterPrefix("DPU", "NodeGroup", "Group");
    assert "DPU" + "Group" == DPUS.kind && "DPU" + "NodeGroup" == NODES.kind;
  }

  lemma OwnGroup()
    ensures IsGroupOf(NODES, NODE) && !IsGroupOf(DPUS, NODE)
  {
    assert NODE.kind + GROUP == NODES.kind && |DPUS.kind| != |NODES.kind|;
  }

  lemma NewGroupShows()
    ensures ShownNames(CreateGroupNode(DPUS, NODE, 4, "new")) == multiset{"e", "dpus"}
  {
    hide Split, Join, Sort;
    GroupItemsRead(["e", "dpus"]);
    assert multiset(["e", "dpus"]) == multiset{"e", "dpus"};
  }

  lemma MergedExample(t: Tree)
    requires ValidTree(t) && Owned(t, 0) == {1, 2} && t.items[1] == DPUS && t.items[2] == NODES
    requires 4 !in t.parentship && !AtOrBelow(t.parentship, 0, 4)
    ensures var u := AfterMerge(t, 0, 1, CreateGroupNode(DPUS, NODE, 4, "new"));
            && Agree(u) && ChildNames(t, 0) == multiset{"c", "d"} + multiset{"a", "b"}
            && ChildNames(u, 0) == multiset{"c", "d"} + multiset{"e", "dpus"}
  {
    hide ShownNames, Acyclic, AtOrBelow, AfterMerge, NamesOf, NamesReadable;
    TwoGroupsRead();
    NewGroupShows();
    var node := CreateGroupNode(DPUS, NODE, 4, "new");
    assert node.uid == 4;
    hide CreateGroupNode;
    MergedChildren(t, 0, 1, node);
    assert {1, 2} - {1} == {2};
    ChildNamesAfter(t, AfterMerge(t, 0, 1, node), 0, {1}, 4);
    NamesOfOneNode(t.items, 1);
    NamesOfOneNode(t.items, 2);
  }

  /** A header with a group of DPUs and one of DPU nodes: a DPU node that is added goes into neither,
      but replaces the group of DPUs, whose names are lost. */
  lemma NamesLostExample(grouping: bool)
    ensures forall placement :: PlacementOk(TWO_GROUPS, HEADER, NODE, false, placement) <==> placement == Merged(1)
    ensures IsGroupOf(TWO_GROUPS.items[2], NODE) && Agree(TWO_GROUPS)
    ensures var u := AfterAdd(TWO_GROUPS, 0, NODE, grouping, 4, "new", Merged(1));
            && Agree(u) && ChildNames(TWO_GROUPS, 0) == multiset{"c", "d"} + multiset{"a", "b"}
            && ChildNames(u, 0) == multiset{"c", "d"} + multiset{"e", "dpus"}
  {
    hide Join, Acyclic, Agree, AtMost, Eligible, IsGroupOf, SameStatusAndReason, NotReadyBelow, AfterMerge,
         CreateGroupNode, ChildNames, CanAdd;
    TwoGroupsValid();
    TwoGroupsMatch();
    KindOrder();
    OwnGroup();
    assert TWO_GROUPS.items[1] == DPUS && TWO_GROUPS.items[2] == NODES;
    MergedExample(TWO_GROUPS);
    AtMostIsTotal(DPUS.kind, DPUS.kind);
    assert FirstMatch(TWO_GROUPS, 0, NODE, 1, false) && !FirstMatch(TWO_GROUPS, 0, NODE, 2, false);
  }
}
