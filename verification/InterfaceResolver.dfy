/** Listing and resolving the service interfaces of a node: entries take precedence over older
    objects. */
module InterfaceResolver {
  import opened Common
  import opened InterfaceCandidates

  // ---------------------------------------------------------------- listing

  /** All interfaces in the order they are seen: the old ones, then the entries. */
  function Seen(store: Store, node: string, namespace: string, kinds: seq<string>): seq<Interface> {
    OldOnes(store.interfaces, node, namespace) + FromShards(store.shards, node, namespace, kinds)
  }

  /** The first, and the last, of its name. */
  predicate FirstOfName(seen: seq<Interface>, i: nat) {
    i < |seen| && forall j :: 0 <= j < i ==> seen[j].name != seen[i].name
  }

  predicate LastOfName(seen: seq<Interface>, i: nat) {
    i < |seen| && forall j :: i < j < |seen| ==> seen[j].name != seen[i].name
  }

  /** The names of `order` in the order they are first seen, at these positions. */
  ghost predicate Firsts(seen: seq<Interface>, order: seq<string>, at: seq<nat>) {
    && |at| == |order|
    && (forall k :: 0 <= k < |at| ==> FirstOfName(seen, at[k]) && seen[at[k]].name == order[k])
    && (forall j, k :: 0 <= j < k < |at| ==> at[j] < at[k])
  }

  /** Each name seen, with the interface seen last. */
  ghost predicate Lasts(seen: seq<Interface>, byName: map<string, Interface>) {
    && (forall i :: 0 <= i < |seen| ==> seen[i].name in byName)
    && (forall i: nat :: LastOfName(seen, i) ==> byName[seen[i].name] == seen[i])
  }

  predicate SameNames(order: seq<string>, byName: map<string, Interface>) {
    (forall n :: n in byName ==> n in order) && (forall n :: n in order ==> n in byName)
  }

  /** The state of the listing after `seen`. */
  ghost predicate Collected(seen: seq<Interface>, order: seq<string>, byName: map<string, Interface>, at: seq<nat>) {
    Firsts(seen, order, at) && Lasts(seen, byName) && SameNames(order, byName)
  }

  /** The listing holds each name once, in the order the names are first seen, and for each name the
      interface seen last. */
  ghost predicate Listing(seen: seq<Interface>, listed: seq<Interface>) {
    && (forall i: nat :: LastOfName(seen, i) ==> seen[i] in listed)
    && (forall k :: 0 <= k < |listed| ==> IsLast(seen, listed[k]))
    && exists at: seq<nat> :: Firsts(seen, Names(listed), at)
  }

  function Names(listed: seq<Interface>): seq<string> {
    seq(|listed|, i requires 0 <= i < |listed| => listed[i].name)
  }

  ghost predicate IsLast(seen: seq<Interface>, x: Interface) {
    exists i: nat :: LastOfName(seen, i) && seen[i] == x
  }

  lemma AddFirsts(seen: seq<Interface>, order: seq<string>, at: seq<nat>, x: Interface)
    requires Firsts(seen, order, at)
    ensures Firsts(seen + [x], order, at)
    ensures (forall i :: 0 <= i < |seen| ==> seen[i].name != x.name) ==>
              Firsts(seen + [x], order + [x.name], at + [|seen|])
  {
    var all := seen + [x];
    assert forall i :: 0 <= i < |seen| ==> all[i] == seen[i];
    assert forall k :: 0 <= k < |at| ==> FirstOfName(all, at[k]);
  }

  lemma AddLasts(seen: seq<Interface>, byName: map<string, Interface>, x: Interface)
    requires Lasts(seen, byName)
    ensures Lasts(seen + [x], byName[x.name := x])
  {
    var all := seen + [x];
    forall i: nat | LastOfName(all, i) ensures byName[x.name := x][all[i].name] == all[i] {
      if i < |seen| {
        assert all[|seen|].name != all[i].name;
        assert forall j :: 0 <= j < |seen| ==> all[j] == seen[j];
        assert LastOfName(seen, i);
      }
    }
  }

  lemma {:induction false} LastExists(seen: seq<Interface>, i: nat) returns (last: nat)
    requires i < |seen|
    ensures LastOfName(seen, last) && seen[last].name == seen[i].name && i <= last
    decreases |seen| - i
  {
    if j :| i < j < |seen| && seen[j].name == seen[i].name {
      last := LastExists(seen, j);
    } else {
      last := i;
    }
  }

  lemma CollectedIsListing(seen: seq<Interface>, order: seq<string>, byName: map<string, Interface>, at: seq<nat>,
                           listed: seq<Interface>)
    requires Collected(seen, order, byName, at) && |listed| == |order|
    requires forall k :: 0 <= k < |order| ==> order[k] in byName && listed[k] == byName[order[k]]
    ensures Listing(seen, listed)
  {
    forall k | 0 <= k < |listed| ensures IsLast(seen, listed[k]) && listed[k].name == order[k] {
      var last := LastExists(seen, at[k]);
      assert LastOfName(seen, last);
    }
    assert Names(listed) == order;
    forall i: nat | LastOfName(seen, i) ensures seen[i] in listed {
      var k :| 0 <= k < |order| && order[k] == seen[i].name;
      assert listed[k] == seen[i];
    }
  }

  method Add(ghost seen: seq<Interface>, ghost at: seq<nat>, order: seq<string>, byName: map<string, Interface>,
             x: Interface)
    returns (order': seq<string>, byName': map<string, Interface>, ghost at': seq<nat>)
    requires Collected(seen, order, byName, at)
    ensures Collected(seen + [x], order', byName', at')
  {
    AddFirsts(seen, order, at, x);
    AddLasts(seen, byName, x);
    assert x.name !in byName ==> forall i :: 0 <= i < |seen| ==> seen[i].name != x.name;
    hide Firsts, Lasts;
    order', at' := order, at;
    if x.name !in byName {
      order', at' := order' + [x.name], at' + [|seen|];
    }
    byName' := byName[x.name := x];
  }

  method AddEntries(ghost seen: seq<Interface>, ghost at: seq<nat>, order: seq<string>, byName: map<string, Interface>,
                    entries: seq<Entry>, node: string, namespace: string)
    returns (order': seq<string>, byName': map<string, Interface>, ghost at': seq<nat>)
    requires Collected(seen, order, byName, at)
    ensures Collected(seen + FromEntries(entries, node, namespace), order', byName', at')
  {
    hide Collected;
    order', byName', at' := order, byName, at;
    ghost var now := seen;
    assert seen + [] == seen;
    for i := 0 to |entries|
      invariant now == seen + FromEntries(entries[..i], node, namespace)
      invariant Collected(now, order', byName', at')
    {
      assert entries[..i + 1][..i] == entries[..i];
      if !entries[i].terminating && NamespacedName(entries[i].name).0 == namespace {
        var x := AsInterface(entries[i], node, namespace);
        order', byName', at' := Add(now, at', order', byName', x);
        now := now + [x];
      }
    }
    assert entries[..|entries|] == entries;
  }

  /** The last entry of its name; and the last older object of its name, if no entry has that name. */
  ghost predicate LastEntry(store: Store, node: string, namespace: string, kinds: seq<string>, x: Interface) {
    exists s: nat, e: nat ::
      && EntryAt(store, node, namespace, kinds, s, e, x)
      && forall t: nat, f: nat, y ::
           EntryAt(store, node, namespace, kinds, t, f, y) && y.name == x.name ==> !Before((s, e), (t, f))
  }

  ghost predicate LastOld(store: Store, node: string, namespace: string, kinds: seq<string>, x: Interface) {
    && (exists i: nat ::
          && OldAt(store, node, namespace, i, x)
          && forall j: nat, y :: OldAt(store, node, namespace, j, y) && y.name == x.name ==> j <= i)
    && forall t: nat, f: nat, y :: EntryAt(store, node, namespace, kinds, t, f, y) ==> y.name != x.name
  }

  lemma LastEntryIff(store: Store, node: string, namespace: string, kinds: seq<string>, x: Interface)
    ensures IsLast(FromShards(store.shards, node, namespace, kinds), x) <==> LastEntry(store, node, namespace, kinds, x)
  {
    hide EntryAt, Searched, AsInterface;
    var c := FromShards(store.shards, node, namespace, kinds);
    var at := FromShardsAt(store.shards, node, namespace, kinds);
    forall k | 0 <= k < |c| ensures EntryAt(store, node, namespace, kinds, at[k].0, at[k].1, c[k]) {
      SearchedIffEntryAt(store, node, namespace, kinds, at[k].0, at[k].1, c[k]);
    }
    if IsLast(c, x) {
      var i: nat :| LastOfName(c, i) && c[i] == x;
      forall t: nat, f: nat, y | EntryAt(store, node, namespace, kinds, t, f, y) && y.name == x.name
        ensures !Before(at[i], (t, f))
      {
        var k := PositionOf(store, node, namespace, kinds, at, t, f, y);
        assert k <= i;
        assert k < i ==> Before((t, f), at[i]);
      }
    }
    if LastEntry(store, node, namespace, kinds, x) {
      var s: nat, e: nat :|
        && EntryAt(store, node, namespace, kinds, s, e, x)
        && forall t: nat, f: nat, y ::
             EntryAt(store, node, namespace, kinds, t, f, y) && y.name == x.name ==> !Before((s, e), (t, f));
      var i := PositionOf(store, node, namespace, kinds, at, s, e, x);
      forall j | i < j < |c| ensures c[j].name != c[i].name {
        assert Before(at[i], at[j]);
      }
      assert LastOfName(c, i);
    }
  }

  lemma LastOldIff(store: Store, node: string, namespace: string, x: Interface)
    ensures IsLast(OldOnes(store.interfaces, node, namespace), x) <==>
            exists i: nat ::
              && OldAt(store, node, namespace, i, x)
              && forall j: nat, y :: OldAt(store, node, namespace, j, y) && y.name == x.name ==> j <= i
  {
    var c := OldOnes(store.interfaces, node, namespace);
    var at := OldOnesAt(store.interfaces, node, namespace);
    hide OldOnes;
    forall k | 0 <= k < |c| ensures OldAt(store, node, namespace, at[k], c[k]) {
      assert at[k] in at;
    }
    if IsLast(c, x) {
      var i: nat :| LastOfName(c, i) && c[i] == x;
      assert OldAt(store, node, namespace, at[i], x);
      forall j: nat, y | OldAt(store, node, namespace, j, y) && y.name == x.name ensures j <= at[i] {
        var k :| 0 <= k < |at| && at[k] == j;
        assert c[k] == y && k <= i;
      }
    }
    if i: nat :| OldAt(store, node, namespace, i, x)
                 && forall j: nat, y :: OldAt(store, node, namespace, j, y) && y.name == x.name ==> j <= i {
      var k :| 0 <= k < |at| && at[k] == i;
      forall j | k < j < |c| ensures c[j].name != c[k].name {
        assert OldAt(store, node, namespace, at[j], c[j]);
      }
      assert LastOfName(c, k) && c[k] == x;
    }
  }

  lemma NameFromEntryIff(store: Store, node: string, namespace: string, kinds: seq<string>, name: string)
    ensures (exists j :: 0 <= j < |FromShards(store.shards, node, namespace, kinds)|
                         && FromShards(store.shards, node, namespace, kinds)[j].name == name) <==>
            exists t: nat, f: nat, y :: EntryAt(store, node, namespace, kinds, t, f, y) && y.name == name
  {
    hide EntryAt, Searched, AsInterface;
    var c := FromShards(store.shards, node, namespace, kinds);
    var at := FromShardsAt(store.shards, node, namespace, kinds);
    if j :| 0 <= j < |c| && c[j].name == name {
      SearchedIffEntryAt(store, node, namespace, kinds, at[j].0, at[j].1, c[j]);
    }
    if t: nat, f: nat, y :| EntryAt(store, node, namespace, kinds, t, f, y) && y.name == name {
      var k := PositionOf(store, node, namespace, kinds, at, t, f, y);
    }
  }

  lemma LastOfBoth(a: seq<Interface>, b: seq<Interface>, x: Interface)
    ensures IsLast(a + b, x) <==> IsLast(b, x) || (IsLast(a, x) && forall j :: 0 <= j < |b| ==> b[j].name != x.name)
  {
    if i: nat :| LastOfName(a + b, i) && (a + b)[i] == x {
      LastOfSum(a, b, i);
      if i >= |a| {
        assert LastOfName(b, i - |a|) && b[i - |a|] == x;
      } else {
        assert LastOfName(a, i) && a[i] == x;
      }
    }
    if i: nat :| LastOfName(b, i) && b[i] == x {
      LastOfSum(a, b, |a| + i);
      assert LastOfName(a + b, |a| + i) && (a + b)[|a| + i] == x;
    }
    if i: nat :| LastOfName(a, i) && a[i] == x && forall j :: 0 <= j < |b| ==> b[j].name != x.name {
      LastOfSum(a, b, i);
      assert LastOfName(a + b, i) && (a + b)[i] == x;
    }
  }

  /** An interface is listed exactly if it is the last entry of its name, or, if no entry has that
      name, the last older object of it. */
  lemma ListedIff(store: Store, node: string, namespace: string, kinds: seq<string>, listed: seq<Interface>,
                  x: Interface)
    requires Listing(Seen(store, node, namespace, kinds), listed)
    ensures x in listed <==>
            LastEntry(store, node, namespace, kinds, x) || LastOld(store, node, namespace, kinds, x)
    ensures x in listed ==> x.node == Some(node) && x.namespace == namespace
  {
    hide FromShards, OldOnes, Firsts, LastOfName, LastEntry;
    var a, b := OldOnes(store.interfaces, node, namespace), FromShards(store.shards, node, namespace, kinds);
    LastOfBoth(a, b, x);
    LastEntryIff(store, node, namespace, kinds, x);
    LastOldIff(store, node, namespace, x);
    NameFromEntryIff(store, node, namespace, kinds, x.name);
    assert x in listed <==> IsLast(a + b, x);
    LastBelongs(store, node, namespace, kinds, x);
  }

  lemma LastBelongs(store: Store, node: string, namespace: string, kinds: seq<string>, x: Interface)
    ensures LastEntry(store, node, namespace, kinds, x) || LastOld(store, node, namespace, kinds, x) ==>
              x.node == Some(node) && x.namespace == namespace
  {
  }

  /** Lists the interfaces of a node; fails only if one of the two list calls does. */
  method ListInterfacesForNode(store: Store, node: string, namespace: string, kinds: seq<string>)
    returns (r: Result<seq<Interface>>)
    ensures r.Ok? <==> !store.interfacesFail && !store.shardsFail
    ensures r.Ok? ==> Listing(Seen(store, node, namespace, kinds), r.value)
    ensures r.Ok? ==>
              forall x :: x in r.value <==>
                LastEntry(store, node, namespace, kinds, x) || LastOld(store, node, namespace, kinds, x)
    ensures r.Ok? ==> forall x :: x in r.value ==> x.node == Some(node) && x.namespace == namespace
  {
    hide LastEntry, LastOld, Firsts, Lasts, Listing, FromEntries;
    if store.interfacesFail {
      return Err("list ServiceInterfaces");
    }
    var items := OldOnes(store.interfaces, node, namespace);
    var order: seq<string>, byName: map<string, Interface> := [], map[];
    ghost var at: seq<nat> := [];
    NothingCollected();
    for i := 0 to |items|
      invariant Collected(items[..i], order, byName, at)
    {
      assert items[..i + 1] == items[..i] + [items[i]];
      order, byName, at := Add(items[..i], at, order, byName, items[i]);
    }
    if store.shardsFail {
      return Err("list NSI shards");
    }
    ghost var seen := items;
    assert items[..|items|] == items && items + [] == items;
    for n := 0 to |store.shards|
      invariant seen == items + FromShards(store.shards[..n], node, namespace, kinds)
      invariant Collected(seen, order, byName, at)
    {
      var shard := store.shards[n];
      assert store.shards[..n + 1][..n] == store.shards[..n];
      if shard.node == node && Allowed(shard.kind, kinds) {
        order, byName, at := AddEntries(seen, at, order, byName, shard.entries, node, namespace);
        seen := seen + FromEntries(shard.entries, node, namespace);
      }
    }
    assert store.shards[..|store.shards|] == store.shards;
    var listed := [];
    for k := 0 to |order|
      invariant |listed| == k && forall j :: 0 <= j < k ==> order[j] in byName && listed[j] == byName[order[j]]
    {
      listed := listed + [byName[order[k]]];
    }
    CollectedIsListing(seen, order, byName, at, listed);
    forall x
      ensures x in listed <==> LastEntry(store, node, namespace, kinds, x) || LastOld(store, node, namespace, kinds, x)
      ensures x in listed ==> x.node == Some(node) && x.namespace == namespace
    {
      ListedIff(store, node, namespace, kinds, listed, x);
    }
    return Ok(listed);
  }

  lemma NothingCollected()
    ensures Collected([], [], map[], [])
  {
  }

  // ---------------------------------------------------------------- resolving

  /** The one entry, and the one older object, that the store holds for the node and that matches. */
  ghost predicate SoleEntry(store: Store, node: string, namespace: string, kinds: seq<string>, selector: Labels,
                            x: Interface)
  {
    exists s: nat, e: nat ::
      && EntryAt(store, node, namespace, kinds, s, e, x) && Matches(selector, x.labels)
      && forall t: nat, f: nat, y :: EntryAt(store, node, namespace, kinds, t, f, y) && Matches(selector, y.labels) ==>
           t == s && f == e
  }

  ghost predicate NoEntry(store: Store, node: string, namespace: string, kinds: seq<string>, selector: Labels) {
    forall s: nat, e: nat, x :: EntryAt(store, node, namespace, kinds, s, e, x) ==> !Matches(selector, x.labels)
  }

  ghost predicate SoleOld(store: Store, node: string, namespace: string, selector: Labels, x: Interface) {
    exists i: nat ::
      && OldAt(store, node, namespace, i, x) && Matches(selector, x.labels)
      && forall j: nat, y :: OldAt(store, node, namespace, j, y) && Matches(selector, y.labels) ==> j == i
  }

  lemma NoEntryIff(store: Store, node: string, namespace: string, kinds: seq<string>, selector: Labels)
    ensures NoMatch(FromShards(store.shards, node, namespace, kinds), selector) <==>
            NoEntry(store, node, namespace, kinds, selector)
  {
    hide Matches, EntryAt, Searched, AsInterface;
    var c := FromShards(store.shards, node, namespace, kinds);
    var at := FromShardsAt(store.shards, node, namespace, kinds);
    forall k | 0 <= k < |c| ensures EntryAt(store, node, namespace, kinds, at[k].0, at[k].1, c[k]) {
      SearchedIffEntryAt(store, node, namespace, kinds, at[k].0, at[k].1, c[k]);
    }
    forall s: nat, e: nat, x | EntryAt(store, node, namespace, kinds, s, e, x) ensures x in c {
      var k := PositionOf(store, node, namespace, kinds, at, s, e, x);
    }
  }

  lemma PositionOf(store: Store, node: string, namespace: string, kinds: seq<string>, at: seq<(nat, nat)>, s: nat,
                   e: nat, x: Interface) returns (k: nat)
    requires ShardPositions(store.shards, node, namespace, kinds, FromShards(store.shards, node, namespace, kinds), at)
    requires EntryAt(store, node, namespace, kinds, s, e, x)
    ensures k < |at| && at[k] == (s, e) && FromShards(store.shards, node, namespace, kinds)[k] == x
  {
    SearchedIffEntryAt(store, node, namespace, kinds, s, e, x);
    hide EntryAt, AsInterface;
    k :| 0 <= k < |at| && at[k] == (s, e);
  }

  lemma SoleEntryIff(store: Store, node: string, namespace: string, kinds: seq<string>, selector: Labels, x: Interface)
    ensures OnlyMatchIs(FromShards(store.shards, node, namespace, kinds), selector, x) <==>
            SoleEntry(store, node, namespace, kinds, selector, x)
  {
    hide Matches, EntryAt, Searched, AsInterface;
    var c := FromShards(store.shards, node, namespace, kinds);
    var at := FromShardsAt(store.shards, node, namespace, kinds);
    forall k | 0 <= k < |c| ensures EntryAt(store, node, namespace, kinds, at[k].0, at[k].1, c[k]) {
      SearchedIffEntryAt(store, node, namespace, kinds, at[k].0, at[k].1, c[k]);
    }
    if OnlyMatchIs(c, selector, x) {
      var i: nat :| OnlyMatch(c, selector, i) && c[i] == x;
      forall t: nat, f: nat, y | EntryAt(store, node, namespace, kinds, t, f, y) && Matches(selector, y.labels)
        ensures (t, f) == at[i]
      {
        var k := PositionOf(store, node, namespace, kinds, at, t, f, y);
      }
    }
    if SoleEntry(store, node, namespace, kinds, selector, x) {
      var s: nat, e: nat :|
        && EntryAt(store, node, namespace, kinds, s, e, x) && Matches(selector, x.labels)
        && forall t: nat, f: nat, y ::
             EntryAt(store, node, namespace, kinds, t, f, y) && Matches(selector, y.labels) ==> t == s && f == e;
      var i := PositionOf(store, node, namespace, kinds, at, s, e, x);
      forall j | 0 <= j < |c| && Matches(selector, c[j].labels) ensures j == i {
        assert at[j] == at[i] && !Before(at[j], at[i]) && !Before(at[i], at[j]);
      }
      assert OnlyMatch(c, selector, i);
    }
  }

  lemma SoleOldIff(store: Store, node: string, namespace: string, selector: Labels, x: Interface)
    ensures OnlyMatchIs(OldOnes(store.interfaces, node, namespace), selector, x) <==>
            SoleOld(store, node, namespace, selector, x)
  {
    if OnlyMatchIs(OldOnes(store.interfaces, node, namespace), selector, x) {
      OnlyMatchIsSoleOld(store, node, namespace, selector, x);
    }
    if SoleOld(store, node, namespace, selector, x) {
      SoleOldIsOnlyMatch(store, node, namespace, selector, x);
    }
  }

  lemma OnlyMatchIsSoleOld(store: Store, node: string, namespace: string, selector: Labels, x: Interface)
    requires OnlyMatchIs(OldOnes(store.interfaces, node, namespace), selector, x)
    ensures SoleOld(store, node, namespace, selector, x)
  {
    hide Matches;
    var c := OldOnes(store.interfaces, node, namespace);
    var at := OldOnesAt(store.interfaces, node, namespace);
    hide OldOnes;
    var i: nat :| OnlyMatch(c, selector, i) && c[i] == x;
    assert at[i] in at;
    assert OldAt(store, node, namespace, at[i], x);
    forall j: nat, y | OldAt(store, node, namespace, j, y) && Matches(selector, y.labels) ensures j == at[i] {
      var k :| 0 <= k < |at| && at[k] == j;
      assert c[k] == y;
    }
  }

  lemma SoleOldIsOnlyMatch(store: Store, node: string, namespace: string, selector: Labels, x: Interface)
    requires SoleOld(store, node, namespace, selector, x)
    ensures OnlyMatchIs(OldOnes(store.interfaces, node, namespace), selector, x)
  {
    hide Matches;
    var c := OldOnes(store.interfaces, node, namespace);
    var at := OldOnesAt(store.interfaces, node, namespace);
    hide OldOnes;
    var i: nat :|
      && OldAt(store, node, namespace, i, x) && Matches(selector, x.labels)
      && forall j: nat, y :: OldAt(store, node, namespace, j, y) && Matches(selector, y.labels) ==> j == i;
    var k :| 0 <= k < |at| && at[k] == i;
    forall j | 0 <= j < |c| && Matches(selector, c[j].labels) ensures j == k {
      assert at[j] in at;
      assert OldAt(store, node, namespace, at[j], c[j]);
    }
    assert OnlyMatch(c, selector, k) && c[k] == x;
  }

  /** Exactly this one of the candidates matches. */
  ghost predicate OnlyMatch(candidates: seq<Interface>, selector: Labels, i: nat) {
    && i < |candidates| && Matches(selector, candidates[i].labels)
    && forall j :: 0 <= j < |candidates| && Matches(selector, candidates[j].labels) ==> j == i
  }

  ghost predicate NoMatch(candidates: seq<Interface>, selector: Labels) {
    forall j :: 0 <= j < |candidates| ==> !Matches(selector, candidates[j].labels)
  }

  function Matching(candidates: seq<Interface>, selector: Labels): seq<Interface> {
    if candidates == [] then []
    else
      var n := |candidates| - 1;
      Matching(candidates[..n], selector) + if Matches(selector, candidates[n].labels) then [candidates[n]] else []
  }

  /** None, exactly one, or several match, according to how many are found. */
  lemma {:induction false} MatchingCounts(candidates: seq<Interface>, selector: Labels)
    ensures |Matching(candidates, selector)| == 0 <==> NoMatch(candidates, selector)
    ensures |Matching(candidates, selector)| == 1 <==> exists i: nat :: OnlyMatch(candidates, selector, i)
    ensures |Matching(candidates, selector)| == 1 ==>
              exists i: nat :: OnlyMatch(candidates, selector, i) && candidates[i] == Matching(candidates, selector)[0]
  {
    if candidates != [] {
      var n := |candidates| - 1;
      var init := candidates[..n];
      MatchingCounts(init, selector);
      assert forall j :: 0 <= j < n ==> candidates[j] == init[j];
      if Matches(selector, candidates[n].labels) {
        assert NoMatch(init, selector) ==> OnlyMatch(candidates, selector, n);
        assert forall i: nat :: OnlyMatch(candidates, selector, i) ==> i == n;
      } else {
        assert forall i: nat :: OnlyMatch(candidates, selector, i) <==> OnlyMatch(init, selector, i);
      }
    }
  }

  lemma {:induction false} MatchingOfSum(a: seq<Interface>, b: seq<Interface>, selector: Labels)
    ensures Matching(a + b, selector) == Matching(a, selector) + Matching(b, selector)
  {
    hide Matches;
    if b == [] {
      assert a + b == a;
    } else {
      var n := |b| - 1;
      MatchingOfSum(a, b[..n], selector);
      assert (a + b)[..|a| + n] == a + b[..n];
    }
  }

  method MatchingEntries(entries: seq<Entry>, node: string, namespace: string, selector: Labels)
    returns (matching: seq<Interface>)
    ensures matching == Matching(FromEntries(entries, node, namespace), selector)
  {
    matching := [];
    for i := 0 to |entries|
      invariant matching == Matching(FromEntries(entries[..i], node, namespace), selector)
    {
      var e := entries[i];
      assert entries[..i + 1][..i] == entries[..i];
      ghost var before := FromEntries(entries[..i], node, namespace);
      if e.terminating || NamespacedName(e.name).0 != namespace {
        assert FromEntries(entries[..i + 1], node, namespace) == before;
        continue;
      }
      MatchingOfSum(before, [AsInterface(e, node, namespace)], selector);
      assert [AsInterface(e, node, namespace)][..0] == [];
      if !Matches(selector, e.labels) {
        continue;
      }
      matching := matching + [AsInterface(e, node, namespace)];
    }
    assert entries[..|entries|] == entries;
  }

  /** What the entries answer: the only eligible one that matches, nothing if none does, else an error. */
  method ResolveFromNsi(store: Store, node: string, namespace: string, selector: Labels, kinds: seq<string>)
    returns (r: Result<Option<Interface>>)
    ensures store.shardsFail ==> r.Err?
    ensures var c := FromShards(store.shards, node, namespace, kinds);
            !store.shardsFail ==>
              && (r == Ok(None) <==> NoMatch(c, selector))
              && (forall x :: r == Ok(Some(x)) <==> OnlyMatchIs(c, selector, x))
  {
    if store.shardsFail {
      return Err("list NSI shards");
    }
    var matching := [];
    for n := 0 to |store.shards|
      invariant matching == Matching(FromShards(store.shards[..n], node, namespace, kinds), selector)
    {
      var shard := store.shards[n];
      assert store.shards[..n + 1][..n] == store.shards[..n];
      if shard.node == node && Allowed(shard.kind, kinds) {
        MatchingOfSum(FromShards(store.shards[..n], node, namespace, kinds),
                      FromEntries(shard.entries, node, namespace), selector);
        var more := MatchingEntries(shard.entries, node, namespace, selector);
        matching := matching + more;
      } else {
        assert FromShards(store.shards[..n + 1], node, namespace, kinds) ==
               FromShards(store.shards[..n], node, namespace, kinds);
      }
    }
    assert store.shards[..|store.shards|] == store.shards;
    MatchingCounts(FromShards(store.shards, node, namespace, kinds), selector);
    if |matching| == 1 {
      return Ok(Some(matching[0]));
    }
    if |matching| == 0 {
      return Ok(None);
    }
    return Err("expected one NSI entry");
  }

  /** What the older objects answer: the only one that matches, else an error. */
  method ResolveFromOld(store: Store, node: string, namespace: string, selector: Labels) returns (r: Result<Interface>)
    ensures var c := OldOnes(store.interfaces, node, namespace);
            forall x :: r == Ok(x) <==> !store.interfacesFail && OnlyMatchIs(c, selector, x)
  {
    if store.interfacesFail {
      return Err("list ServiceInterfaces");
    }
    var items := Matching(OldOnes(store.interfaces, node, namespace), selector);
    MatchingCounts(OldOnes(store.interfaces, node, namespace), selector);
    if |items| == 1 {
      return Ok(items[0]);
    }
    return Err("expected one ServiceInterface");
  }

  ghost predicate OnlyMatchIs(candidates: seq<Interface>, selector: Labels, x: Interface) {
    exists i: nat :: OnlyMatch(candidates, selector, i) && candidates[i] == x
  }

  /** Entries come first; the older objects are asked only if no entry matches. */
  method Resolve(store: Store, node: string, namespace: string, selector: Labels, kinds: seq<string>)
    returns (r: Result<Interface>)
    ensures forall x :: r == Ok(x) <==>
              && !store.shardsFail
              && (SoleEntry(store, node, namespace, kinds, selector, x)
                  || (NoEntry(store, node, namespace, kinds, selector) && !store.interfacesFail
                      && SoleOld(store, node, namespace, selector, x)))
    ensures r.Ok? ==> r.value.node == Some(node) && r.value.namespace == namespace
  {
    hide OnlyMatchIs, SoleEntry, NoEntry, SoleOld, NoMatch;
    var found := ResolveFromNsi(store, node, namespace, selector, kinds);
    ghost var entries := FromShards(store.shards, node, namespace, kinds);
    forall x ensures OnlyMatchIs(entries, selector, x) <==> SoleEntry(store, node, namespace, kinds, selector, x) {
      SoleEntryIff(store, node, namespace, kinds, selector, x);
    }
    NoEntryIff(store, node, namespace, kinds, selector);
    if found.Err? {
      return Err(found.error);
    }
    if found.value.Some? {
      r := Ok(found.value.value);
      SoleEntryBelongs(store, node, namespace, kinds, selector, r.value);
      return;
    }
    r := ResolveFromOld(store, node, namespace, selector);
    forall x
      ensures OnlyMatchIs(OldOnes(store.interfaces, node, namespace), selector, x) <==>
              SoleOld(store, node, namespace, selector, x)
    {
      SoleOldIff(store, node, namespace, selector, x);
    }
    if r.Ok? {
      SoleOldBelongs(store, node, namespace, selector, r.value);
    }
  }

  lemma SoleEntryBelongs(store: Store, node: string, namespace: string, kinds: seq<string>, selector: Labels,
                         x: Interface)
    requires SoleEntry(store, node, namespace, kinds, selector, x)
    ensures x.node == Some(node) && x.namespace == namespace
  {
  }

  lemma SoleOldBelongs(store: Store, node: string, namespace: string, selector: Labels, x: Interface)
    requires SoleOld(store, node, namespace, selector, x)
    ensures x.node == Some(node) && x.namespace == namespace
  {
  }

  // ---------------------------------------------------------------- resolving and listing together

  lemma LastOfSum(a: seq<Interface>, b: seq<Interface>, i: nat)
    requires i < |a| + |b|
    ensures i >= |a| ==> (LastOfName(a + b, i) <==> LastOfName(b, i - |a|))
    ensures i < |a| ==>
              (LastOfName(a + b, i) <==> LastOfName(a, i) && forall j :: 0 <= j < |b| ==> b[j].name != a[i].name)
  {
    var all := a + b;
    assert forall j :: 0 <= j < |b| ==> b[j] == all[j + |a|];
    assert forall j :: |a| <= j < |all| ==> all[j] == b[j - |a|];
    assert forall j :: 0 <= j < |a| ==> a[j] == all[j];
  }

  lemma WhereListed(seen: seq<Interface>, listed: seq<Interface>, x: Interface) returns (i: nat)
    requires Listing(seen, listed) && x in listed
    ensures LastOfName(seen, i) && seen[i] == x
  {
    assert IsLast(seen, x);
    i :| LastOfName(seen, i) && seen[i] == x;
  }

  /** An entry that resolves is listed exactly if no later eligible entry has its name. */
  lemma ResolvedEntryIsListedIff(store: Store, node: string, namespace: string, selector: Labels, kinds: seq<string>,
                                 i: nat, listed: seq<Interface>)
    requires OnlyMatch(FromShards(store.shards, node, namespace, kinds), selector, i)
    requires Listing(Seen(store, node, namespace, kinds), listed)
    ensures var entries := FromShards(store.shards, node, namespace, kinds);
            entries[i] in listed <==> LastOfName(entries, i)
  {
    var old', entries := OldOnes(store.interfaces, node, namespace), FromShards(store.shards, node, namespace, kinds);
    LastOfSum(old', entries, |old'| + i);
    if entries[i] in listed {
      var j := WhereListed(old' + entries, listed, entries[i]);
      LastOfSum(old', entries, j);
    }
  }

  /** An older object that resolves is listed exactly if it is the last of its name among them and
      no eligible entry has its name. */
  lemma ResolvedOldOneIsListedIff(store: Store, node: string, namespace: string, selector: Labels, kinds: seq<string>,
                                  i: nat, listed: seq<Interface>)
    requires NoMatch(FromShards(store.shards, node, namespace, kinds), selector)
    requires OnlyMatch(OldOnes(store.interfaces, node, namespace), selector, i)
    requires Listing(Seen(store, node, namespace, kinds), listed)
    ensures var old' := OldOnes(store.interfaces, node, namespace);
            var entries := FromShards(store.shards, node, namespace, kinds);
            old'[i] in listed <==>
              LastOfName(old', i) && forall j :: 0 <= j < |entries| ==> entries[j].name != old'[i].name
  {
    hide FromShards, OldOnes, Firsts;
    var old', entries := OldOnes(store.interfaces, node, namespace), FromShards(store.shards, node, namespace, kinds);
    LastOfSum(old', entries, i);
    assert (old' + entries)[i] == old'[i];
    if old'[i] in listed {
      var j := WhereListed(old' + entries, listed, old'[i]);
      LastOfSum(old', entries, j);
    }
  }

  /** An eligible entry takes the place of any older object of its name. */
  lemma EntriesTakePrecedence(store: Store, node: string, namespace: string, kinds: seq<string>, listed: seq<Interface>,
                              x: Interface)
    requires Listing(Seen(store, node, namespace, kinds), listed) && x in listed
    ensures var entries := FromShards(store.shards, node, namespace, kinds);
            x in entries || forall j :: 0 <= j < |entries| ==> entries[j].name != x.name
  {
    var old', entries := OldOnes(store.interfaces, node, namespace), FromShards(store.shards, node, namespace, kinds);
    var i := WhereListed(old' + entries, listed, x);
    LastOfSum(old', entries, i);
  }

  /** Two shards with an entry of the same name: the one that resolves is not the one that is listed. */
  lemma ResolvedButNotListed(listed: seq<Interface>)
    requires Listing(Seen(TWICE, "n", "ns", []), listed)
    ensures OnlyMatch(FromShards(TWICE.shards, "n", "ns", []), map["app" := "a"], 0)
    ensures FromShards(TWICE.shards, "n", "ns", [])[0] !in listed
  {
    EntriesOfTwice();
    assert "a"[0] != "b"[0] && "app" in SECOND.labels && !Matches(map["app" := "a"], SECOND.labels);
    ResolvedEntryIsListedIff(TWICE, "n", "ns", map["app" := "a"], [], 0, listed);
    var entries := FromShards(TWICE.shards, "n", "ns", []);
    assert entries[1].name == entries[0].name && !LastOfName(entries, 0);
  }

  const FIRST := Entry("ns_p0", map["app" := "a"], false, "")
  const SECOND := Entry("ns_p0", map["app" := "b"], false, "")
  const TWICE := Store([], [Shard("n", "sfc", [FIRST]), Shard("n", "other", [SECOND])], false, false)

  lemma EntriesOfTwice()
    ensures FromShards(TWICE.shards, "n", "ns", []) == [AsInterface(FIRST, "n", "ns"), AsInterface(SECOND, "n", "ns")]
    ensures AsInterface(FIRST, "n", "ns").name == AsInterface(SECOND, "n", "ns").name
  {
    NamesRoundTrip("ns", "p0");
    assert "ns" + "_" + "p0" == "ns_p0";
    var s, t := Shard("n", "sfc", [FIRST]), Shard("n", "other", [SECOND]);
    assert [FIRST][..0] == [] && FromEntries([FIRST], "n", "ns") == [AsInterface(FIRST, "n", "ns")];
    assert [SECOND][..0] == [] && FromEntries([SECOND], "n", "ns") == [AsInterface(SECOND, "n", "ns")];
    assert [s][..0] == [] && FromShards([s], "n", "ns", []) == [AsInterface(FIRST, "n", "ns")];
    assert TWICE.shards[..1] == [s];
  }
}
