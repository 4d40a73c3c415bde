/** Service interfaces of a node, from two sources: the entries of NodeServiceInterfaces (NSI) shards
    and, as the older form, ServiceInterface objects. */
module InterfaceCandidates {
  import opened Common

  type Labels = map<string, string>

  /** `body` stands for the remaining fields, which are copied as they are. */
  datatype Interface = Interface(name: string, namespace: string, labels: Labels, node: Option<string>, body: string)

  datatype Entry = Entry(name: string, labels: Labels, terminating: bool, body: string)

  datatype Shard = Shard(node: string, kind: string, entries: seq<Entry>)

  /** What the API server holds, and whether it answers the two list calls. */
  datatype Store = Store(interfaces: seq<Interface>, shards: seq<Shard>, interfacesFail: bool, shardsFail: bool)

  // ---------------------------------------------------------------- names of entries

  function Underscore(s: string, i: nat): (j: nat)
    requires i <= |s|
    ensures i <= j <= |s| && (j < |s| ==> s[j] == '_') && forall k :: i <= k < j ==> s[k] != '_'
    decreases |s| - i
  {
    if i == |s| || s[i] == '_' then i else Underscore(s, i + 1)
  }

  /** Namespace and name of an entry, which is named namespace_name. */
  function NamespacedName(name: string): (string, string) {
    var j := Underscore(name, 0);
    if j == |name| then ("", "") else (name[..j], name[j + 1..])
  }

  /** Splitting gives back what was put together exactly if the namespace has no underscore. */
  lemma NamesRoundTrip(namespace: string, name: string)
    ensures NamespacedName(namespace + "_" + name) == (namespace, name) <==> '_' !in namespace
  {
    var s := namespace + "_" + name;
    var j := Underscore(s, 0);
    assert s[|namespace|] == '_' && s[|namespace| + 1..] == name && s[..|namespace|] == namespace;
    if '_' in namespace {
      var k :| 0 <= k < |namespace| && namespace[k] == '_';
      assert s[k] == '_';
    } else {
      assert forall k :: 0 <= k < |namespace| ==> s[k] == namespace[k];
    }
  }

  // ---------------------------------------------------------------- what is eligible

  predicate Matches(selector: Labels, labels: Labels) {
    forall k :: k in selector ==> k in labels && labels[k] == selector[k]
  }

  /** No requirement is met by all labels; one more is met exactly by those that have that very pair. */
  lemma MatchesPairByPair(selector: Labels, labels: Labels, k: string, v: string)
    requires k !in selector
    ensures Matches(map[], labels)
    ensures Matches(selector[k := v], labels) <==> Matches(selector, labels) && k in labels && labels[k] == v
  {
    var more := selector[k := v];
    assert k in more && forall x :: x in selector ==> x in more && more[x] == selector[x];
  }

  predicate Allowed(kind: string, kinds: seq<string>) {
    kinds == [] || kind in kinds
  }

  predicate Eligible(e: Entry, namespace: string) {
    !e.terminating && NamespacedName(e.name).0 == namespace
  }

  function AsInterface(e: Entry, node: string, namespace: string): Interface {
    Interface(NamespacedName(e.name).1, namespace, e.labels, Some(node), e.body)
  }

  function OldOnes(interfaces: seq<Interface>, node: string, namespace: string): seq<Interface> {
    if interfaces == [] then []
    else
      var n := |interfaces| - 1;
      OldOnes(interfaces[..n], node, namespace)
      + if interfaces[n].namespace == namespace && interfaces[n].node == Some(node) then [interfaces[n]] else []
  }

  function FromEntries(entries: seq<Entry>, node: string, namespace: string): seq<Interface> {
    if entries == [] then []
    else
      var n := |entries| - 1;
      FromEntries(entries[..n], node, namespace)
      + if Eligible(entries[n], namespace) then [AsInterface(entries[n], node, namespace)] else []
  }

  /** The interfaces of the eligible entries, shard by shard. */
  function FromShards(shards: seq<Shard>, node: string, namespace: string, kinds: seq<string>): seq<Interface> {
    if shards == [] then []
    else
      var n := |shards| - 1;
      FromShards(shards[..n], node, namespace, kinds)
      + if shards[n].node == node && Allowed(shards[n].kind, kinds)
        then FromEntries(shards[n].entries, node, namespace) else []
  }

  /** An eligible entry stands behind every one of them, and every eligible entry is among them. */
  lemma {:induction false} FromShardsExactly(shards: seq<Shard>, node: string, namespace: string,
                                             kinds: seq<string>, x: Interface)
    ensures x in FromShards(shards, node, namespace, kinds) <==>
              exists s, e :: s in shards && s.node == node && Allowed(s.kind, kinds) && e in s.entries
                             && Eligible(e, namespace) && AsInterface(e, node, namespace) == x
  {
    hide FromEntries, AsInterface;
    if shards != [] {
      var n := |shards| - 1;
      FromShardsExactly(shards[..n], node, namespace, kinds, x);
      FromEntriesExactly(shards[n].entries, node, namespace, x);
      assert shards == shards[..n] + [shards[n]];
    }
  }

  lemma {:induction false} FromEntriesExactly(entries: seq<Entry>, node: string, namespace: string, x: Interface)
    ensures x in FromEntries(entries, node, namespace) <==>
              exists e :: e in entries && Eligible(e, namespace) && AsInterface(e, node, namespace) == x
  {
    if entries != [] {
      var n := |entries| - 1;
      FromEntriesExactly(entries[..n], node, namespace, x);
      assert entries == entries[..n] + [entries[n]];
    }
  }

  // ---------------------------------------------------------------- where they are stored

  /** The entry is named namespace_name, or has no underscore and stands for two empty names. */
  predicate IsEntryName(full: string, namespace: string, name: string) {
    || (full == namespace + "_" + name && '_' !in namespace)
    || (namespace == "" && name == "" && '_' !in full)
  }

  lemma NamespacedNameIff(full: string, namespace: string, name: string)
    ensures NamespacedName(full) == (namespace, name) <==> IsEntryName(full, namespace, name)
  {
    if full == namespace + "_" + name {
      NamesRoundTrip(namespace, name);
    }
    var j := Underscore(full, 0);
    if j < |full| {
      assert full == full[..j] + "_" + full[j + 1..];
    }
  }

  /** Older object `i` of the store is `x`, and belongs to that node and namespace. */
  predicate OldAt(store: Store, node: string, namespace: string, i: nat, x: Interface) {
    i < |store.interfaces| && store.interfaces[i] == x && x.namespace == namespace && x.node == Some(node)
  }

  /** Entry `e` of shard `s` of that node, of an allowed kind and not terminating, stands for `x`. */
  predicate EntryAt(store: Store, node: string, namespace: string, kinds: seq<string>, s: nat, e: nat, x: Interface) {
    && s < |store.shards| && store.shards[s].node == node && (kinds == [] || store.shards[s].kind in kinds)
    && e < |store.shards[s].entries|
    && var entry := store.shards[s].entries[e];
       && !entry.terminating && IsEntryName(entry.name, namespace, x.name)
       && x.namespace == namespace && x.node == Some(node) && x.labels == entry.labels && x.body == entry.body
  }

  predicate Before(a: (nat, nat), b: (nat, nat)) {
    a.0 < b.0 || (a.0 == b.0 && a.1 < b.1)
  }

  /** The older objects of a node are those stored for it in that namespace, each as often as it is
      stored, in stored order. */
  lemma {:induction false} OldOnesAt(interfaces: seq<Interface>, node: string, namespace: string) returns (at: seq<nat>)
    ensures |at| == |OldOnes(interfaces, node, namespace)|
    ensures forall k :: 0 <= k < |at| ==>
              at[k] < |interfaces| && OldOnes(interfaces, node, namespace)[k] == interfaces[at[k]]
    ensures forall j, k :: 0 <= j < k < |at| ==> at[j] < at[k]
    ensures forall i: nat :: i < |interfaces| ==>
              (i in at <==> interfaces[i].namespace == namespace && interfaces[i].node == Some(node))
  {
    at := [];
    if interfaces != [] {
      var n := |interfaces| - 1;
      at := OldOnesAt(interfaces[..n], node, namespace);
      if interfaces[n].namespace == namespace && interfaces[n].node == Some(node) {
        at := at + [n];
      }
    }
  }

  /** `found` are the interfaces of the eligible entries, which stand at the positions `at`. */
  ghost predicate EntryPositions(entries: seq<Entry>, node: string, namespace: string, found: seq<Interface>,
                                 at: seq<nat>)
  {
    && |at| == |found|
    && (forall k :: 0 <= k < |at| ==>
          at[k] < |entries| && Eligible(entries[at[k]], namespace)
          && found[k] == AsInterface(entries[at[k]], node, namespace))
    && (forall j, k :: 0 <= j < k < |at| ==> at[j] < at[k])
    && (forall i: nat :: i < |entries| && Eligible(entries[i], namespace) ==> i in at)
  }

  lemma OneMoreEntry(entries: seq<Entry>, e: Entry, node: string, namespace: string, found: seq<Interface>,
                     at: seq<nat>)
    requires EntryPositions(entries, node, namespace, found, at)
    ensures !Eligible(e, namespace) ==> EntryPositions(entries + [e], node, namespace, found, at)
    ensures Eligible(e, namespace) ==>
              EntryPositions(entries + [e], node, namespace, found + [AsInterface(e, node, namespace)],
                             at + [|entries|])
  {
    hide Eligible, AsInterface;
    var more := at + [|entries|];
    forall i: nat | i < |entries + [e]| && Eligible((entries + [e])[i], namespace)
      ensures if i < |entries| then i in at else more[|at|] == i
    {
      assert i < |entries| ==> (entries + [e])[i] == entries[i];
    }
  }

  lemma {:induction false} FromEntriesAt(entries: seq<Entry>, node: string, namespace: string) returns (at: seq<nat>)
    ensures EntryPositions(entries, node, namespace, FromEntries(entries, node, namespace), at)
  {
    hide EntryPositions, Eligible, AsInterface;
    if entries == [] {
      at := [];
      NoEntries(node, namespace);
    } else {
      var n := |entries| - 1;
      at := FromEntriesAt(entries[..n], node, namespace);
      OneMoreEntry(entries[..n], entries[n], node, namespace, FromEntries(entries[..n], node, namespace), at);
      assert entries[..n] + [entries[n]] == entries;
      assert FromEntries(entries[..n], node, namespace) + [] == FromEntries(entries[..n], node, namespace);
      if Eligible(entries[n], namespace) {
        at := at + [n];
      }
    }
  }

  lemma NoEntries(node: string, namespace: string)
    ensures EntryPositions([], node, namespace, [], [])
  {
  }

  function Positions(s: nat, at: seq<nat>): (r: seq<(nat, nat)>)
    ensures |r| == |at| && forall k :: 0 <= k < |at| ==> r[k] == (s, at[k])
  {
    seq(|at|, k requires 0 <= k < |at| => (s, at[k]))
  }

  /** An eligible entry of a shard that is searched. */
  predicate Searched(shards: seq<Shard>, node: string, namespace: string, kinds: seq<string>, p: (nat, nat)) {
    && p.0 < |shards| && shards[p.0].node == node && Allowed(shards[p.0].kind, kinds)
    && p.1 < |shards[p.0].entries| && Eligible(shards[p.0].entries[p.1], namespace)
  }

  ghost predicate ShardPositions(shards: seq<Shard>, node: string, namespace: string, kinds: seq<string>,
                                 found: seq<Interface>, at: seq<(nat, nat)>)
  {
    && |at| == |found|
    && (forall k :: 0 <= k < |at| ==>
          Searched(shards, node, namespace, kinds, at[k])
          && found[k] == AsInterface(shards[at[k].0].entries[at[k].1], node, namespace))
    && (forall j, k :: 0 <= j < k < |at| ==> Before(at[j], at[k]))
    && (forall p :: Searched(shards, node, namespace, kinds, p) ==> p in at)
  }

  lemma SearchedWithMore(shards: seq<Shard>, shard: Shard, node: string, namespace: string, kinds: seq<string>,
                         p: (nat, nat))
    ensures Searched(shards + [shard], node, namespace, kinds, p) <==>
            if p.0 == |shards|
            then shard.node == node && Allowed(shard.kind, kinds) && p.1 < |shard.entries|
                 && Eligible(shard.entries[p.1], namespace)
            else Searched(shards, node, namespace, kinds, p)
  {
    hide Eligible, Allowed;
  }

  lemma SkipShard(shards: seq<Shard>, shard: Shard, node: string, namespace: string, kinds: seq<string>,
                  found: seq<Interface>, at: seq<(nat, nat)>)
    requires ShardPositions(shards, node, namespace, kinds, found, at)
    requires !(shard.node == node && Allowed(shard.kind, kinds))
    ensures ShardPositions(shards + [shard], node, namespace, kinds, found, at)
  {
    hide Eligible, AsInterface, Allowed, Searched;
    forall p ensures Searched(shards + [shard], node, namespace, kinds, p) <==>
                     Searched(shards, node, namespace, kinds, p)
    {
      SearchedWithMore(shards, shard, node, namespace, kinds, p);
      SearchedIsThere(shards, node, namespace, kinds, p);
    }
    forall k | 0 <= k < |at|
      ensures at[k].0 < |shards| && at[k].1 < |shards[at[k].0].entries|
              && (shards + [shard])[at[k].0] == shards[at[k].0]
    {
      SearchedIsThere(shards, node, namespace, kinds, at[k]);
    }
  }

  lemma SearchedIsThere(shards: seq<Shard>, node: string, namespace: string, kinds: seq<string>, p: (nat, nat))
    ensures Searched(shards, node, namespace, kinds, p) ==> p.0 < |shards| && p.1 < |shards[p.0].entries|
  {
  }

  lemma OneMoreShard(shards: seq<Shard>, shard: Shard, node: string, namespace: string, kinds: seq<string>,
                     found: seq<Interface>, at: seq<(nat, nat)>, more: seq<Interface>, places: seq<nat>)
    requires ShardPositions(shards, node, namespace, kinds, found, at)
    requires shard.node == node && Allowed(shard.kind, kinds)
    requires EntryPositions(shard.entries, node, namespace, more, places)
    ensures ShardPositions(shards + [shard], node, namespace, kinds, found + more, at + Positions(|shards|, places))
  {
    hide Eligible, AsInterface, Allowed, Searched;
    var all, both := shards + [shard], at + Positions(|shards|, places);
    forall k | 0 <= k < |both|
      ensures Searched(all, node, namespace, kinds, both[k])
      ensures both[k].0 < |all| && both[k].1 < |all[both[k].0].entries|
      ensures (found + more)[k] == AsInterface(all[both[k].0].entries[both[k].1], node, namespace)
      ensures k < |at| ==> both[k].0 < |shards|
    {
      SearchedWithMore(shards, shard, node, namespace, kinds, both[k]);
      if k < |at| {
        SearchedIsThere(shards, node, namespace, kinds, at[k]);
      } else {
        assert both[k] == (|shards|, places[k - |at|]);
      }
    }
    forall p | Searched(all, node, namespace, kinds, p) ensures p in both {
      SearchedWithMore(shards, shard, node, namespace, kinds, p);
      if p.0 == |shards| {
        var k :| 0 <= k < |places| && places[k] == p.1;
        assert both[|at| + k] == p;
      }
    }
  }

  /** The entries are those of the searched shards, each as often as it is stored, in stored order. */
  lemma {:induction false} FromShardsAt(shards: seq<Shard>, node: string, namespace: string, kinds: seq<string>)
    returns (at: seq<(nat, nat)>)
    ensures ShardPositions(shards, node, namespace, kinds, FromShards(shards, node, namespace, kinds), at)
  {
    hide EntryPositions, ShardPositions, FromEntries, Allowed;
    if shards == [] {
      at := [];
      NoShards(node, namespace, kinds);
    } else {
      var n := |shards| - 1;
      var init, shard := shards[..n], shards[n];
      assert init + [shard] == shards;
      at := FromShardsAt(init, node, namespace, kinds);
      var found := FromShards(init, node, namespace, kinds);
      assert found + [] == found;
      if shard.node == node && Allowed(shard.kind, kinds) {
        var places := FromEntriesAt(shard.entries, node, namespace);
        OneMoreShard(init, shard, node, namespace, kinds, found, at, FromEntries(shard.entries, node, namespace),
                     places);
        at := at + Positions(n, places);
      } else {
        SkipShard(init, shard, node, namespace, kinds, found, at);
      }
    }
  }

  lemma NoShards(node: string, namespace: string, kinds: seq<string>)
    ensures ShardPositions([], node, namespace, kinds, [], [])
  {
  }

  /** The searched entries, as they are made into interfaces, are what the store holds for the node. */
  lemma SearchedIffEntryAt(store: Store, node: string, namespace: string, kinds: seq<string>, s: nat, e: nat,
                           x: Interface)
    ensures EntryAt(store, node, namespace, kinds, s, e, x) <==>
            && Searched(store.shards, node, namespace, kinds, (s, e))
            && x == AsInterface(store.shards[s].entries[e], node, namespace)
  {
    hide NamespacedName, IsEntryName;
    if s < |store.shards| && e < |store.shards[s].entries| {
      NamespacedNameIff(store.shards[s].entries[e].name, namespace, x.name);
      var name := NamespacedName(store.shards[s].entries[e].name);
      NamespacedNameIff(store.shards[s].entries[e].name, name.0, name.1);
    }
  }
}
