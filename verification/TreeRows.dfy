/** What a row of objects looks like after it was added, one by one, under a grouping header. */
module TreeRows {
  import opened TreeShape
  import opened TreeObjects
  import opened TreeSpec
  import opened TreeGrouping
  import opened GroupNames

  /** The objects to add, all of one kind. `blocked` holds those that came with an unready
      descendant; `grouping` says whether the header, and every object placed, is a grouping object. */
  datatype Row = Row(objs: seq<Object>, blocked: set<Uid>, kind: string, grouping: bool, showPending: bool)

  ghost predicate RowInput(row: Row) {
    && (forall x :: 0 <= x < |row.objs| ==>
          row.objs[x].kind == row.kind && !row.objs[x].group && Plain(row.objs[x].name))
    && (forall x, y :: 0 <= x < y < |row.objs| ==> row.objs[x].uid != row.objs[y].uid)
  }

  /** To be grouped: ready, and without unready descendants. */
  ghost predicate Groups(row: Row, o: Object) {
    row.grouping && ReadyTrue(o) && o.uid !in row.blocked
  }

  /** Two objects that must share a node. */
  ghost predicate Together(row: Row, a: Object, b: Object) {
    Groups(row, a) && Groups(row, b) && Reason(a) == Reason(b)
  }

  function Names(objs: seq<Object>): (names: seq<string>)
    ensures |names| == |objs|
    ensures forall x :: 0 <= x < |objs| ==> names[x] == objs[x].name
  {
    seq(|objs|, x requires 0 <= x < |objs| => objs[x].name)
  }

  /** The earliest transition time among the members. */
  ghost function Earliest(members: seq<Object>): (time: int)
    requires |members| >= 1
    ensures forall x :: 0 <= x < |members| ==> time <= Since(members[x])
    ensures exists x :: 0 <= x < |members| && time == Since(members[x])
  {
    var n := |members| - 1;
    if n == 0 then Since(members[0])
    else
      var before := Earliest(members[..n]);
      if Since(members[n]) < before then Since(members[n]) else before
  }

  /** A lone object is shown by its own node; several by one group node that lists their names in
      order and carries their reason and their earliest transition time. */
  ghost predicate Shows(node: Object, members: seq<Object>, row: Row) {
    && |members| >= 1
    && if |members| == 1 then node == Stored(members[0], row.grouping) && !node.group && node.kind == row.kind
       else
         && node.group && node.kind == row.kind + GROUP && !node.grouping && node.zOrder == members[1].zOrder
         && ListsNames(node, members) && SumsUp(node, members)
         && forall m :: 0 <= m < |members| ==> Together(row, members[0], members[m])
  }

  ghost predicate ListsNames(node: Object, members: seq<Object>) {
    var names := Split(node.groupItems);
    multiset(names) == multiset(Names(members)) && Sorted(names) && AllPlain(names)
  }

  ghost predicate SumsUp(node: Object, members: seq<Object>)
    requires |members| >= 1
  {
    node.conditions == [Condition(READY, ConditionTrue, Reason(members[0]), "", Earliest(members))]
  }

  ghost predicate Distinct(nodes: seq<Uid>) {
    forall i, k :: 0 <= i < k < |nodes| ==> nodes[i] != nodes[k]
  }

  /** The children of `h`, listed without repetition, and the objects they are. */
  ghost predicate Listing(t: Tree, h: Uid, nodes: seq<Uid>, shown: seq<Object>) {
    && ValidTree(t) && |nodes| == |shown|
    && Distinct(nodes)
    && (forall k :: k in Owned(t, h) <==> k in nodes)
    && (forall i :: 0 <= i < |nodes| ==> nodes[i] in t.items && t.items[nodes[i]] == shown[i])
  }

  /** What later additions rely on: unready descendants are as they were, and groups have no children. */
  ghost predicate Settled(t: Tree, row: Row, nodes: seq<Uid>, members: seq<seq<Object>>) {
    && |nodes| == |members|
    && forall i :: 0 <= i < |nodes| ==> SettledNode(t, row, nodes[i], |members[i]| > 1)
  }

  ghost predicate SettledNode(t: Tree, row: Row, node: Uid, isGroup: bool) {
    if isGroup then Owned(t, node) == {}
    else NotReadyBelow(t, node, row.showPending) == (node in row.blocked)
  }

  /** The nodes show the members. */
  ghost predicate AllShown(row: Row, shown: seq<Object>, members: seq<seq<Object>>) {
    |shown| == |members| && forall i :: 0 <= i < |shown| ==> Shows(shown[i], members[i], row)
  }

  /** No two nodes could be merged. */
  ghost predicate Separate(row: Row, members: seq<seq<Object>>) {
    && (forall i :: 0 <= i < |members| ==> |members[i]| >= 1)
    && forall i, k :: 0 <= i < k < |members| ==> !Together(row, members[i][0], members[k][0])
  }

  ghost predicate RowShown(t: Tree, h: Uid, row: Row, nodes: seq<Uid>, shown: seq<Object>, members: seq<seq<Object>>) {
    Listing(t, h, nodes, shown) && Settled(t, row, nodes, members)
    && AllShown(row, shown, members) && Separate(row, members)
  }

  /** An object that is not in the tree yet, though its fragment may be, and that is not above `h`. */
  ghost predicate StillToCome(t: Tree, h: Uid, row: Row, o: Object) {
    && o.uid !in t.parentship && !AtOrBelow(t.parentship, h, o.uid)
    && NotReadyBelow(t, o.uid, row.showPending) == (o.uid in row.blocked)
  }

  /** An identity no object of the tree uses. */
  ghost predicate Unused(t: Tree, h: Uid, id: Uid) {
    id !in t.parentship && !AtOrBelow(t.parentship, h, id) && Owned(t, id) == {}
  }

  // ---------------------------------------------------------------- which sibling matches

  lemma GroupReady(node: Object, members: seq<Object>)
    requires |members| >= 1 && SumsUp(node, members)
    ensures ReadyTrue(node) && Reason(node) == Reason(members[0]) && Since(node) == Earliest(members)
  {
  }

  lemma SameReason(o: Object, s: Object)
    requires ReadyTrue(o)
    ensures SameStatusAndReason(ReadyOf(o), ReadyOf(s)) <==> ReadyTrue(s) && Reason(s) == Reason(o)
  {
  }

  /** A node matches a groupable object exactly when it shows an object that belongs with it. */
  lemma MatchesIffTogether(t: Tree, h: Uid, row: Row, s: Uid, members: seq<Object>, o: Object)
    requires ValidTree(t) && s in Owned(t, h) && s in t.items && Shows(t.items[s], members, row)
    requires SettledNode(t, row, s, |members| > 1)
    requires Groups(row, o) && o.kind == row.kind
    ensures Matches(t, h, o, s, row.showPending) <==> Together(row, members[0], o)
    ensures Matches(t, h, o, s, row.showPending) ==> (IsGroupOf(t.items[s], o) <==> |members| > 1)
  {
    SameReason(o, t.items[s]);
    if |members| > 1 {
      LeafIsNotUnready(t, s, row.showPending);
      GroupReady(t.items[s], members);
      assert Together(row, members[0], members[1]);
    }
  }

  // ---------------------------------------------------------------- what a node shows after one more object

  lemma MergeListsNames(first: Object, o: Object, node: Object)
    requires Plain(first.name) && Plain(o.name) && node.groupItems == GroupItems([o.name, first.name])
    ensures ListsNames(node, [first, o])
  {
    hide Plain, Split, Sort, Join;
    GroupItemsRead([o.name, first.name]);
    assert Names([first, o]) == [first.name, o.name];
    assert multiset([o.name, first.name]) == multiset([first.name, o.name]);
  }

  lemma MergeSumsUp(first: Object, o: Object, node: Object)
    requires ReadyTrue(first) && ReadyTrue(o) && Reason(first) == Reason(o)
    requires node.conditions == [Summarised(ReadyOf(o).value, ReadyOf(first))]
    ensures SumsUp(node, [first, o])
  {
    assert [first, o][..1] == [first];
    assert Earliest([first]) == Since(first);
  }

  /** Merging a lone object with one more of the same reason shows both. */
  lemma MergeShows(row: Row, first: Object, o: Object, id: Uid, name: string)
    requires o.kind == row.kind && Plain(first.name) && Plain(o.name) && Together(row, first, o)
    ensures Shows(CreateGroupNode(Stored(first, row.grouping), o, id, name), [first, o], row)
  {
    var node := CreateGroupNode(Stored(first, row.grouping), o, id, name);
    MergeListsNames(first, o, node);
    MergeSumsUp(first, o, node);
  }

  lemma JoinListsNames(group: Object, members: seq<Object>, o: Object, node: Object)
    requires ListsNames(group, members) && Plain(o.name)
    requires node.groupItems == GroupItems(Split(group.groupItems) + [o.name])
    ensures ListsNames(node, members + [o])
  {
    GroupItemsRead(Split(group.groupItems) + [o.name]);
    assert Names(members + [o]) == Names(members) + [o.name];
  }

  lemma JoinSumsUp(group: Object, members: seq<Object>, o: Object, node: Object)
    requires |members| >= 1 && SumsUp(group, members) && ReadyTrue(o)
    requires node.conditions == [Summarised(ReadyOf(group).value, ReadyOf(o))]
    ensures SumsUp(node, members + [o])
  {
    GroupReady(group, members);
    assert (members + [o])[..|members|] == members;
    assert (members + [o])[0] == members[0];
  }

  /** Adding one more object of the same reason to a group shows all of them. */
  lemma JoinShows(row: Row, group: Object, members: seq<Object>, o: Object)
    requires |members| > 1 && Shows(group, members, row)
    requires Plain(o.name) && Together(row, members[0], o)
    ensures Shows(UpdateGroupNode(group, o), members + [o], row)
  {
    GroupReady(group, members);
    JoinListsNames(group, members, o, UpdateGroupNode(group, o));
    JoinSumsUp(group, members, o, UpdateGroupNode(group, o));
  }

  // ---------------------------------------------------------------- the row as a whole

  /** The objects shown by node `i`, when `home[x]` is the node that shows object `x`. */
  function Members(objs: seq<Object>, home: seq<nat>, i: nat): seq<Object>
    requires |home| <= |objs|
  {
    if home == [] then []
    else
      var n := |home| - 1;
      Members(objs, home[..n], i) + if home[n] == i then [objs[n]] else []
  }

  /** `home` says which node shows which object, and every node shows what it is said to. */
  ghost predicate Housed(objs: seq<Object>, home: seq<nat>, members: seq<seq<Object>>) {
    && |home| <= |objs|
    && (forall x :: 0 <= x < |home| ==> home[x] < |members|)
    && (forall i :: 0 <= i < |members| ==> members[i] == Members(objs, home, i))
  }

  lemma {:induction false} MembersHas(objs: seq<Object>, home: seq<nat>, x: nat)
    requires |home| <= |objs| && x < |home|
    ensures objs[x] in Members(objs, home, home[x])
  {
    var n := |home| - 1;
    if x < n {
      MembersHas(objs, home[..n], x);
    }
  }

  lemma {:induction false} MembersNone(objs: seq<Object>, home: seq<nat>, i: nat)
    requires |home| <= |objs| && forall x :: 0 <= x < |home| ==> home[x] < i
    ensures Members(objs, home, i) == []
  {
    if home != [] {
      MembersNone(objs, home[..|home| - 1], i);
    }
  }

  lemma MembersAppend(objs: seq<Object>, home: seq<nat>, k: nat, i: nat)
    requires |home| < |objs|
    ensures Members(objs, home + [k], i) == Members(objs, home, i) + if k == i then [objs[|home|]] else []
  {
    assert (home + [k])[..|home|] == home;
  }

  lemma HousedAppend(objs: seq<Object>, home: seq<nat>, members: seq<seq<Object>>)
    requires Housed(objs, home, members) && |home| < |objs|
    ensures Housed(objs, home + [|members|], members + [[objs[|home|]]])
  {
    MembersNone(objs, home, |members|);
    forall i | 0 <= i <= |members|
      ensures (members + [[objs[|home|]]])[i] == Members(objs, home + [|members|], i)
    {
      MembersAppend(objs, home, |members|, i);
    }
  }

  lemma HousedGrow(objs: seq<Object>, home: seq<nat>, members: seq<seq<Object>>, k: nat)
    requires Housed(objs, home, members) && |home| < |objs| && k < |members|
    ensures Housed(objs, home + [k], members[k := members[k] + [objs[|home|]]])
  {
    forall i | 0 <= i < |members|
      ensures members[k := members[k] + [objs[|home|]]][i] == Members(objs, home + [k], i)
    {
      MembersAppend(objs, home, k, i);
    }
  }

  lemma FirstMember(row: Row, shown: seq<Object>, members: seq<seq<Object>>, home: seq<nat>, x: nat)
    requires AllShown(row, shown, members) && Housed(row.objs, home, members) && x < |home|
    ensures row.objs[x] in members[home[x]]
    ensures |members[home[x]]| > 1 ==> Together(row, members[home[x]][0], row.objs[x])
    ensures |members[home[x]]| == 1 ==> members[home[x]][0] == row.objs[x]
  {
    MembersHas(row.objs, home, x);
    assert Shows(shown[home[x]], members[home[x]], row);
  }

  /** Two objects are shown by one node exactly when they belong together. */
  lemma SharedIffTogether(row: Row, shown: seq<Object>, members: seq<seq<Object>>, home: seq<nat>, x: nat, y: nat)
    requires RowInput(row) && AllShown(row, shown, members) && Separate(row, members) && Housed(row.objs, home, members)
    requires x < |home| && y < |home|
    ensures home[x] == home[y] <==> x == y || Together(row, row.objs[x], row.objs[y])
  {
    FirstMember(row, shown, members, home, x);
    FirstMember(row, shown, members, home, y);
    var i, k := home[x], home[y];
    if i == k && x != y {
      assert row.objs[x].uid != row.objs[y].uid;
      assert |members[i]| > 1;
    }
    if i != k && Together(row, row.objs[x], row.objs[y]) {
      assert Shows(shown[i], members[i], row) && Shows(shown[k], members[k], row);
      assert Together(row, members[i][0], members[k][0]);
      assert Together(row, members[k][0], members[i][0]);
    }
  }

  /** The names a node stands for in the printed tree. */
  function ShownNames(node: Object): multiset<string> {
    if node.group then multiset(Split(node.groupItems)) else multiset{node.name}
  }

  function AllNames(shown: seq<Object>): multiset<string> {
    if shown == [] then multiset{} else AllNames(shown[..|shown| - 1]) + ShownNames(shown[|shown| - 1])
  }

  function MemberNames(members: seq<seq<Object>>): multiset<string> {
    if members == [] then multiset{}
    else MemberNames(members[..|members| - 1]) + multiset(Names(members[|members| - 1]))
  }

  lemma NamesOfOne(row: Row, node: Object, members: seq<Object>)
    requires Shows(node, members, row)
    ensures ShownNames(node) == multiset(Names(members))
  {
    if |members| == 1 {
      assert Names(members) == [members[0].name];
    }
  }

  lemma {:induction false} NamesOfAll(row: Row, shown: seq<Object>, members: seq<seq<Object>>)
    requires AllShown(row, shown, members)
    ensures AllNames(shown) == MemberNames(members)
  {
    if shown != [] {
      var n := |shown| - 1;
      NamesOfAll(row, shown[..n], members[..n]);
      NamesOfOne(row, shown[n], members[n]);
    }
  }

  lemma NamesAppend(members: seq<seq<Object>>, o: Object)
    ensures MemberNames(members + [[o]]) == MemberNames(members) + multiset{o.name}
  {
    assert (members + [[o]])[..|members|] == members;
    assert Names([o]) == [o.name];
  }

  lemma {:induction false} NamesGrow(members: seq<seq<Object>>, k: nat, o: Object)
    requires k < |members|
    ensures MemberNames(members[k := members[k] + [o]]) == MemberNames(members) + multiset{o.name}
  {
    var n := |members| - 1;
    var grown := members[k := members[k] + [o]];
    if k == n {
      assert grown[..n] == members[..n];
      assert Names(members[n] + [o]) == Names(members[n]) + [o.name];
    } else {
      assert grown[..n] == members[..n][k := members[k] + [o]];
      NamesGrow(members[..n], k, o);
    }
  }

  /** A merge shows every name it should exactly when the sibling is not itself a group. A group of
      another kind is such a sibling: its items are replaced by its own generated name. */
  lemma MergeKeepsNamesIff(s: Object, o: Object, id: Uid, name: string)
    requires Plain(s.name) && Plain(o.name) && (s.group ==> |Split(s.groupItems)| >= 2)
    ensures ShownNames(CreateGroupNode(s, o, id, name)) == ShownNames(s) + multiset{o.name} <==> !s.group
  {
    GroupItemsRead([o.name, s.name]);
    var shown := ShownNames(CreateGroupNode(s, o, id, name));
    assert shown == multiset{o.name, s.name};
    assert |shown| == 2;
    assert s.group ==> |ShownNames(s) + multiset{o.name}| >= 3;
  }
}
