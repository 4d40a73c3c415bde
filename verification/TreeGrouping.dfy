/** Grouping of ready siblings: when an object joins or starts a group, what the group node shows,
    and what a whole row of objects looks like once it has been added under one header. */
module TreeGrouping {
  import opened Common
  import opened TreeShape
  import opened TreeObjects
  import opened TreeSpec
  import opened GroupNames

  // ---------------------------------------------------------------- unready descendants

  /** `d` lies `n` links below `a`, is not ready, and only organizational nodes are in between. */
  ghost predicate NotReadyVia(t: Tree, a: Uid, showPending: bool, d: Uid, n: nat) {
    && d in t.items && n > 0 && Up(t.parentship, d, n) == Some(a)
    && IsNotReady(t.items[d], showPending)
    && forall m :: 0 < m < n ==> IsPlainAt(t, Up(t.parentship, d, m))
  }

  ghost predicate IsPlainAt(t: Tree, k: Option<Uid>) {
    k.Some? && k.value in t.items && IsPlain(t.items[k.value])
  }

  ghost predicate NotReadyBelow(t: Tree, a: Uid, showPending: bool) {
    exists d, n :: NotReadyVia(t, a, showPending, d, n)
  }

  /** One level of the search: what the recursive check looks at. */
  ghost predicate NotReadyChild(t: Tree, c: Uid, showPending: bool)
    requires c in t.items
  {
    IsNotReady(t.items[c], showPending) || (IsPlain(t.items[c]) && NotReadyBelow(t, c, showPending))
  }

  lemma NotReadyStep(t: Tree, a: Uid, showPending: bool)
    requires ValidTree(t)
    ensures NotReadyBelow(t, a, showPending) <==>
            exists c :: c in Owned(t, a) && c in t.items && NotReadyChild(t, c, showPending)
  {
    if NotReadyBelow(t, a, showPending) {
      var d: Uid, n: nat :| NotReadyVia(t, a, showPending, d, n);
      FirstStepDown(t, a, showPending, d, n);
    }
    if c :| c in Owned(t, a) && c in t.items && NotReadyChild(t, c, showPending) {
      assert Up(t.parentship, c, 1) == Some(a) by { assert Up(t.parentship, a, 0) == Some(a); }
      if IsNotReady(t.items[c], showPending) {
        assert NotReadyVia(t, a, showPending, c, 1);
      } else {
        var d: Uid, n: nat :| NotReadyVia(t, c, showPending, d, n);
        UpAdd(t.parentship, d, n, 1);
        assert NotReadyVia(t, a, showPending, d, n + 1);
      }
    }
  }

  lemma FirstStepDown(t: Tree, a: Uid, showPending: bool, d: Uid, n: nat)
    requires ValidTree(t) && NotReadyVia(t, a, showPending, d, n)
    ensures exists c :: c in Owned(t, a) && c in t.items && NotReadyChild(t, c, showPending)
  {
    var p := t.parentship;
    UpPrefix(p, d, n - 1, n);
    var c := Up(p, d, n - 1).value;
    UpAdd(p, d, n - 1, 1);
    assert Up(p, c, 1) == Some(a);
    assert c in p && p[c] == a;
    if n > 1 {
      assert IsPlainAt(t, Up(p, d, n - 1));
      assert NotReadyVia(t, c, showPending, d, n - 1);
    }
    assert NotReadyChild(t, c, showPending);
  }

  lemma {:induction false} UpPrefix(p: Links, k: Uid, m: nat, n: nat)
    requires m <= n && Up(p, k, n).Some?
    ensures Up(p, k, m).Some?
    decreases m
  {
    if m > 0 {
      UpPrefix(p, p[k], m - 1, n - 1);
    }
  }

  /** Trees that agree on everything strictly below `b`. */
  ghost predicate SameBelow(t: Tree, u: Tree, b: Uid) {
    && Subtree(t.parentship, b) == Subtree(u.parentship, b)
    && forall k :: k in Subtree(t.parentship, b) ==>
         && k in t.items && k in u.items && t.items[k] == u.items[k]
         && t.parentship[k] == u.parentship[k]
  }

  lemma SameNotReady(t: Tree, u: Tree, b: Uid, showPending: bool)
    requires ValidTree(t) && ValidTree(u) && SameBelow(t, u, b)
    ensures NotReadyBelow(t, b, showPending) == NotReadyBelow(u, b, showPending)
  {
    if d: Uid, n: nat :| NotReadyVia(t, b, showPending, d, n) {
      SameVia(t, u, b, showPending, d, n);
    }
    if d: Uid, n: nat :| NotReadyVia(u, b, showPending, d, n) {
      SameVia(u, t, b, showPending, d, n);
    }
  }

  lemma SameVia(t: Tree, u: Tree, b: Uid, showPending: bool, d: Uid, n: nat)
    requires SameBelow(t, u, b) && NotReadyVia(t, b, showPending, d, n)
    ensures NotReadyVia(u, b, showPending, d, n)
  {
    forall m: nat | m <= n
      ensures Up(u.parentship, d, m) == Up(t.parentship, d, m)
      ensures m < n ==> Up(t.parentship, d, m).Some? && Up(t.parentship, d, m).value in Subtree(t.parentship, b)
    {
      SameUp(t, u, b, d, m, n);
    }
    forall m | 0 < m < n ensures IsPlainAt(u, Up(u.parentship, d, m)) {
      assert IsPlainAt(t, Up(t.parentship, d, m));
    }
    assert Up(t.parentship, d, 0) == Some(d);
  }

  lemma {:induction false} SameUp(t: Tree, u: Tree, b: Uid, d: Uid, m: nat, n: nat)
    requires SameBelow(t, u, b) && m <= n && n > 0 && Up(t.parentship, d, n) == Some(b)
    ensures Up(u.parentship, d, m) == Up(t.parentship, d, m)
    ensures m < n ==> Up(t.parentship, d, m).Some? && Up(t.parentship, d, m).value in Subtree(t.parentship, b)
    decreases m
  {
    assert Up(t.parentship, t.parentship[d], n - 1) == Some(b);
    assert d in Subtree(t.parentship, b);
    if m > 0 {
      if n == 1 {
        assert Up(t.parentship, t.parentship[d], 0) == Up(u.parentship, u.parentship[d], 0);
      } else {
        SameUp(t, u, b, t.parentship[d], m - 1, n - 1);
      }
    }
  }

  // ---------------------------------------------------------------- the three changes and what they leave alone

  lemma InsertKeepsBelow(t: Tree, parent: Uid, o: Object, b: Uid)
    requires ValidTree(t) && o.uid !in t.parentship
    requires !AtOrBelow(t.parentship, parent, o.uid) && !AtOrBelow(t.parentship, parent, b)
    ensures ValidTree(Insert(t, parent, o)) && SameBelow(t, Insert(t, parent, o), b)
  {
    InsertValid(t, parent, o);
    var p, q := t.parentship, t.parentship[o.uid := parent];
    forall k | k in q ensures k in Subtree(q, b) <==> k in Subtree(p, b) {
      if k in p {
        AtOrBelowWithLink(p, o.uid, parent, p[k], b);
      } else {
        AtOrBelowWithLink(p, o.uid, parent, parent, b);
      }
    }
    assert Subtree(p, b) == Subtree(q, b);
  }

  lemma WithoutKeepsBelow(t: Tree, gone: set<Uid>, b: Uid)
    requires ValidTree(t) && DownClosed(t.parentship, gone)
    requires forall k :: k in Subtree(t.parentship, b) ==> k !in gone
    ensures ValidTree(Without(t, gone)) && SameBelow(t, Without(t, gone), b)
  {
    WithoutValid(t, gone);
    SubtreeWithout(t.parentship, gone, b);
  }

  lemma LeafIsNotUnready(t: Tree, a: Uid, showPending: bool)
    requires ValidTree(t) && Owned(t, a) == {}
    ensures !NotReadyBelow(t, a, showPending)
  {
    NotReadyStep(t, a, showPending);
  }

  // ---------------------------------------------------------------- group nodes

  const GROUP := "Group"
  const ZERO_TIME := 0

  function MinLastTransitionTime(a: Option<Condition>, b: Option<Condition>): int {
    if a.None? && b.None? then ZERO_TIME
    else if b.None? then a.value.lastTransition
    else if a.None? then b.value.lastTransition
    else if a.value.lastTransition > b.value.lastTransition then b.value.lastTransition
    else a.value.lastTransition
  }

  function Summarised(ready: Condition, other: Option<Condition>): Condition {
    ready.(lastTransition := MinLastTransitionTime(Some(ready), other), message := "")
  }

  /** The node that stands for an object and the sibling it is merged with. */
  function CreateGroupNode(sibling: Object, o: Object, id: Uid, name: string): Object {
    Object(id, o.kind + GROUP, name,
           if ReadyOf(o).Some? then [Summarised(ReadyOf(o).value, ReadyOf(sibling))] else [],
           false, true, GroupItems([o.name, sibling.name]), o.zOrder)
  }

  function UpdateGroupNode(group: Object, o: Object): Object {
    group.(groupItems := GroupItems(Split(group.groupItems) + [o.name]),
           conditions := if ReadyOf(group).Some? then [Summarised(ReadyOf(group).value, ReadyOf(o))]
                         else group.conditions)
  }

  // ---------------------------------------------------------------- where an added object ends up

  datatype Placement = Placed | Joined(group: Uid) | Merged(sibling: Uid)

  ghost predicate Eligible(t: Tree, parent: Object, o: Object, showPending: bool) {
    parent.grouping && ReadyTrue(o) && !NotReadyBelow(t, o.uid, showPending)
  }

  /** Sibling `s` takes part in a group with `o`. A group of another kind does too. */
  ghost predicate Matches(t: Tree, parent: Uid, o: Object, s: Uid, showPending: bool) {
    && s in Owned(t, parent) && s in t.items
    && SameStatusAndReason(ReadyOf(o), ReadyOf(t.items[s]))
    && !NotReadyBelow(t, s, showPending)
    && (t.items[s].group || t.items[s].kind == o.kind)
  }

  /** Siblings are visited in the order of their kinds, and those of one kind in any order, so the
      one found is a match that no match of a smaller kind precedes. */
  ghost predicate FirstMatch(t: Tree, parent: Uid, o: Object, s: Uid, showPending: bool) {
    && Matches(t, parent, o, s, showPending)
    && forall u :: Matches(t, parent, o, u, showPending) ==> AtMost(t.items[s].kind, t.items[u].kind)
  }

  /** Among some objects of the tree there is one of a smallest kind. */
  lemma {:induction false} SmallestKind(t: Tree, ids: set<Uid>) returns (s: Uid)
    requires ids != {} && ids <= t.items.Keys
    ensures s in ids && forall u :: u in ids ==> AtMost(t.items[s].kind, t.items[u].kind)
    decreases ids
  {
    var c :| c in ids;
    AtMostIsTotal(t.items[c].kind, t.items[c].kind);
    assert forall u :: u in ids ==> u == c || u in ids - {c};
    s := c;
    if ids - {c} != {} {
      var r := SmallestKind(t, ids - {c});
      AtMostIsTotal(t.items[c].kind, t.items[r].kind);
      if AtMost(t.items[r].kind, t.items[c].kind) {
        s := r;
      } else {
        forall u | u in ids ensures AtMost(t.items[c].kind, t.items[u].kind) {
          if u != c {
            AtMostIsTransitive(t.items[c].kind, t.items[r].kind, t.items[u].kind);
          }
        }
      }
    }
  }

  predicate IsGroupOf(group: Object, o: Object) {
    group.group && group.kind == o.kind + GROUP
  }

  ghost predicate PlacementOk(t: Tree, parent: Object, o: Object, showPending: bool, placement: Placement) {
    match placement
    case Placed =>
      Eligible(t, parent, o, showPending) ==> forall s :: !Matches(t, parent.uid, o, s, showPending)
    case Joined(g) =>
      && Eligible(t, parent, o, showPending)
      && FirstMatch(t, parent.uid, o, g, showPending) && IsGroupOf(t.items[g], o)
    case Merged(s) =>
      && Eligible(t, parent, o, showPending)
      && FirstMatch(t, parent.uid, o, s, showPending) && !IsGroupOf(t.items[s], o)
  }

  function Stored(o: Object, grouping: bool): Object {
    o.(grouping := o.grouping || grouping)
  }

  ghost function AfterAdd(t: Tree, parent: Uid, o: Object, grouping: bool, id: Uid, name: string,
                          placement: Placement): Tree
    requires placement.Joined? ==> placement.group in t.items
    requires placement.Merged? ==> placement.sibling in t.items
  {
    match placement
    case Placed => Insert(t, parent, Stored(o, grouping))
    case Joined(g) => t.(items := t.items[g := UpdateGroupNode(t.items[g], o)])
    case Merged(s) => AfterMerge(t, parent, s, CreateGroupNode(t.items[s], o, id, name))
  }

  ghost function AfterMerge(t: Tree, parent: Uid, s: Uid, node: Object): Tree {
    var u := Insert(t, parent, node);
    Without(u, Covered(u.parentship, {s}))
  }

  lemma MergeValid(t: Tree, parent: Uid, s: Uid, node: Object)
    requires ValidTree(t) && s in Owned(t, parent) && node.uid !in t.parentship
    requires !AtOrBelow(t.parentship, parent, node.uid)
    ensures var u := Insert(t, parent, node);
            && ValidTree(u) && s in u.parentship && u.parentship[s] == parent
            && ValidTree(AfterMerge(t, parent, s, node))
  {
    InsertValid(t, parent, node);
    var u := Insert(t, parent, node);
    CoveredIsDownClosed(u.parentship, {s});
    WithoutValid(u, Covered(u.parentship, {s}));
  }

  lemma JoinValid(t: Tree, g: Uid, o: Object)
    requires ValidTree(t) && g in t.items
    ensures ValidTree(t.(items := t.items[g := UpdateGroupNode(t.items[g], o)]))
  {
    hide AtOrBelow, GroupItems;
    var u := t.(items := t.items[g := UpdateGroupNode(t.items[g], o)]);
    forall p ensures Owned(u, p) == Owned(t, p) {
    }
  }
}
