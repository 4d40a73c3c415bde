/** What the calls of the OVS client leave in the database, row by row and column by column, when
    they read it as it is. */
module OvsOutcomes {
  import opened Common
  import opened OvsDatabase
  import opened OvsClient
  import opened OvsRuns
  import opened OvsTheorems

  // ---------------------------------------------------------------- adding a port

  const DEFAULT_MTU := 9216

  /** One interface and one port more, with every column as configured, the port in the bridge, and
      every other row as it was. */
  ghost predicate PortAdded(db: Db, after: Db, cfg: PortConfig, bridge: Uuid, port: Uuid, interface: Uuid) {
    && after.switches == db.switches
    && InterfaceAdded(db.interfaces, after.interfaces, cfg, interface)
    && PortRowAdded(db.ports, after.ports, cfg, port, interface)
    && BridgeGains(db.bridges, after.bridges, bridge, port)
  }

  ghost predicate InterfaceAdded(before: map<Uuid, Interface>, after: map<Uuid, Interface>, cfg: PortConfig,
                                 interface: Uuid)
  {
    && after.Keys == before.Keys + {interface} && interface !in before
    && (forall x :: x in before ==> after[x] == before[x])
    && var row := after[interface];
       && row.name == cfg.name && row.kind == cfg.interfaceType && row.ofportRequest == cfg.ofportRequest
       && row.mtuRequest == Some(if cfg.mtu.Some? then cfg.mtu.value else DEFAULT_MTU)
       && row.options == cfg.interfaceOptions && row.externalIds == cfg.interfaceExternalIds
  }

  ghost predicate PortRowAdded(before: map<Uuid, Port>, after: map<Uuid, Port>, cfg: PortConfig, port: Uuid,
                               interface: Uuid)
  {
    && after.Keys == before.Keys + {port} && port !in before
    && (forall x :: x in before ==> after[x] == before[x])
    && var row := after[port];
       && row.name == cfg.name && row.interfaces == {interface} && row.externalIds == cfg.portExternalIds
       && row.vlanMode == cfg.vlanMode && row.tag == cfg.tag && row.trunks == cfg.trunks
  }

  ghost predicate BridgeGains(before: map<Uuid, Bridge>, after: map<Uuid, Bridge>, bridge: Uuid, port: Uuid) {
    && bridge in before && after.Keys == before.Keys
    && (forall x :: x in before && x != bridge ==> after[x] == before[x])
    && after[bridge] == before[bridge].(ports := before[bridge].ports + {port})
  }

  /** Nothing is in the way of the new port: its name is free, and its OpenFlow port, if it insists. */
  ghost predicate Free(db: Db, cfg: PortConfig) {
    && (forall p :: p in db.ports ==> db.ports[p].name != cfg.name)
    && (forall i :: i in db.interfaces ==> db.interfaces[i].name != cfg.name)
    && (cfg.waitForOfportFree && cfg.ofportRequest.Some? ==>
          forall i :: i in db.interfaces ==> db.interfaces[i].ofportRequest != cfg.ofportRequest)
  }

  lemma NewPortRows(db: Db, cfg: PortConfig, bridge: Uuid, port: Uuid, interface: Uuid)
    requires NewTo(db, port, interface) && bridge in db.bridges
    ensures PortAdded(db, WithNewPort(db, cfg, bridge, port, interface), cfg, bridge, port, interface)
  {
    var row := db.bridges[bridge];
    assert row.ports + {port} - {} == row.ports + {port};
  }

  lemma NewPortResolves(db: Db, cfg: PortConfig, bridge: Uuid, port: Uuid, interface: Uuid)
    requires ReferencesResolve(db) && NewTo(db, port, interface)
    ensures ReferencesResolve(WithNewPort(db, cfg, bridge, port, interface))
  {
  }

  lemma NewPortNames(db: Db, cfg: PortConfig, bridge: Uuid, port: Uuid, interface: Uuid)
    requires NamesUnique(db) && NewTo(db, port, interface)
    ensures NamesUnique(WithNewPort(db, cfg, bridge, port, interface)) <==>
            && (forall p :: p in db.ports ==> db.ports[p].name != cfg.name)
            && (forall i :: i in db.interfaces ==> db.interfaces[i].name != cfg.name)
  {
    var made := WithNewPort(db, cfg, bridge, port, interface);
    assert forall a, b :: a in made.bridges && b in made.bridges && made.bridges[a].name == made.bridges[b].name ==>
        db.bridges[a].name == db.bridges[b].name;
    OneMorePortName(db.ports, port, made.ports[port]);
    OneMoreInterfaceName(db.interfaces, interface, made.interfaces[interface]);
  }

  ghost predicate PortNamesDiffer(rows: map<Uuid, Port>) {
    forall a, b :: a in rows && b in rows && rows[a].name == rows[b].name ==> a == b
  }

  ghost predicate InterfaceNamesDiffer(rows: map<Uuid, Interface>) {
    forall a, b :: a in rows && b in rows && rows[a].name == rows[b].name ==> a == b
  }

  lemma OneMorePortName(rows: map<Uuid, Port>, id: Uuid, row: Port)
    requires PortNamesDiffer(rows) && id !in rows
    ensures PortNamesDiffer(rows[id := row]) <==> forall x :: x in rows ==> rows[x].name != row.name
  {
    var more := rows[id := row];
    assert forall x :: x in rows ==> x in more && more[x] == rows[x];
    assert id in more && more[id] == row;
  }

  lemma OneMoreInterfaceName(rows: map<Uuid, Interface>, id: Uuid, row: Interface)
    requires InterfaceNamesDiffer(rows) && id !in rows
    ensures InterfaceNamesDiffer(rows[id := row]) <==> forall x :: x in rows ==> rows[x].name != row.name
  {
    var more := rows[id := row];
    assert forall x :: x in rows ==> x in more && more[x] == rows[x];
    assert id in more && more[id] == row;
  }

  /** The create transaction commits exactly if nothing is in the way, and then adds the port. */
  lemma AddPortCreates(db: Db, cfg: PortConfig, bridge: Uuid, port: Uuid, interface: Uuid)
    requires Good(db) && NewTo(db, port, interface) && bridge in db.bridges
    ensures var r := Commit(db, CreatePortOps(cfg, bridge, port, interface));
            && (r.Ok? <==> Free(db, cfg))
            && (r.Ok? ==> PortAdded(db, r.value, cfg, bridge, port, interface))
  {
    hide NoGarbage, HeldOnce, ReferencesResolve, NamesUnique, PortAdded, WithNewPort, Collect, ExecAll, CreatePortOps;
    CreatePortRuns(db, cfg, bridge, port, interface);
    NewPortIsHeld(db, cfg, bridge, port, interface);
    CollectKeepsClean(WithNewPort(db, cfg, bridge, port, interface));
    NewPortResolves(db, cfg, bridge, port, interface);
    NewPortNames(db, cfg, bridge, port, interface);
    NewPortRows(db, cfg, bridge, port, interface);
    assert WaitOps(cfg) == [] <==> !(cfg.waitForOfportFree && cfg.ofportRequest.Some?);
  }

  /** What AddPort does to the database, and whether it succeeds, with fresh reads. */
  ghost predicate AddPortDoes(db: Db, after: Db, ok: bool, cfg: PortConfig, port: Uuid, interface: Uuid) {
    && (ok <==> AlreadyThere(db, cfg) || (BridgeNamed(db, cfg.bridgeName) && Free(db, cfg)))
    && (ok && !AlreadyThere(db, cfg) ==>
          exists b :: b in db.bridges && db.bridges[b].name == cfg.bridgeName
                      && PortAdded(db, after, cfg, b, port, interface))
    && (!ok || AlreadyThere(db, cfg) ==> after == db)
  }

  lemma AddExisting(db: Db, cfg: PortConfig, port: Uuid, interface: Uuid)
    requires Good(db) && FindPort(db, cfg.name).Some?
    ensures var plan := AddPortPlan(Now(db), cfg, port, interface);
            AddPortDoes(db, Outcome(db, plan), ResultOf(db, plan).Ok?, cfg, port, interface)
  {
    hide NoGarbage, HeldOnce, PortAdded, Commit, CreatePortOps, IsPortInBridge, NamesUnique, AlreadyThere,
         ReferencesResolve;
    var found := FindPort(db, cfg.name).value;
    InBridgeIffMember(db, cfg.bridgeName, found);
    ThereIffMember(db, cfg, found);
  }

  lemma ThereIffMember(db: Db, cfg: PortConfig, found: Uuid)
    requires Good(db) && found in db.ports && db.ports[found].name == cfg.name
    ensures AlreadyThere(db, cfg) <==>
            exists b :: b in db.bridges && db.bridges[b].name == cfg.bridgeName && found in db.bridges[b].ports
  {
    hide NoGarbage, HeldOnce, ReferencesResolve;
    assert forall p :: p in db.ports && db.ports[p].name == cfg.name ==> p == found;
    hide NamesUnique;
  }

  lemma AddMissing(db: Db, cfg: PortConfig, port: Uuid, interface: Uuid)
    requires Good(db) && NewTo(db, port, interface) && FindPort(db, cfg.name).None?
    ensures var plan := AddPortPlan(Now(db), cfg, port, interface);
            AddPortDoes(db, Outcome(db, plan), ResultOf(db, plan).Ok?, cfg, port, interface)
  {
    hide NoGarbage, HeldOnce, ReferencesResolve, NamesUnique, PortAdded, Commit, CreatePortOps;
    var b := FindBridge(db, cfg.bridgeName);
    if b.Some? {
      AddPortCreates(db, cfg, b.value, port, interface);
    }
  }

  /** With fresh reads AddPort succeeds exactly if the port is in its bridge already, or its bridge is
      there and nothing is in its way; it adds the port in the second case, and changes nothing
      otherwise. */
  lemma AddPortOutcome(db: Db, cfg: PortConfig, port: Uuid, interface: Uuid)
    requires Good(db) && NewTo(db, port, interface)
    ensures var plan := AddPortPlan(Now(db), cfg, port, interface);
            AddPortDoes(db, Outcome(db, plan), ResultOf(db, plan).Ok?, cfg, port, interface)
  {
    hide NoGarbage, HeldOnce, ReferencesResolve, NamesUnique, AddPortDoes, AddPortPlan;
    if FindPort(db, cfg.name).Some? {
      AddExisting(db, cfg, port, interface);
    } else {
      AddMissing(db, cfg, port, interface);
    }
  }

  ghost predicate BridgeNamed(db: Db, name: string) {
    exists b :: b in db.bridges && db.bridges[b].name == name
  }

  /** A port of that name is in the bridge of that name. */
  ghost predicate AlreadyThere(db: Db, cfg: PortConfig) {
    exists b, p :: b in db.bridges && db.bridges[b].name == cfg.bridgeName && p in db.bridges[b].ports && p in db.ports
                   && db.ports[p].name == cfg.name
  }

  // ---------------------------------------------------------------- deleting a port

  /** The port and its interfaces are gone, and the port from its bridge; nothing else changes. */
  function PortRemoved(db: Db, bridge: Uuid, port: Uuid): Db
    requires bridge in db.bridges && port in db.ports
  {
    Db(db.switches, db.bridges[bridge := db.bridges[bridge].(ports := db.bridges[bridge].ports - {port})],
       db.ports - {port}, db.interfaces - db.ports[port].interfaces)
  }

  lemma {:induction false} DeleteInterfacesRun(db: Db, interfaces: seq<Uuid>, rest: seq<Op>)
    ensures ExecAll(db, DeleteInterfaceOps(interfaces) + rest) ==
            ExecAll(db.(interfaces := db.interfaces - (set i | i in interfaces)), rest)
    decreases |interfaces|
  {
    if interfaces == [] {
      assert DeleteInterfaceOps(interfaces) + rest == rest;
      assert db.interfaces - (set i | i in interfaces) == db.interfaces;
    } else {
      var ops := DeleteInterfaceOps(interfaces) + rest;
      var next := db.(interfaces := db.interfaces - {interfaces[0]});
      assert ops[0] == DeleteInterface(interfaces[0]) && ops[1..] == DeleteInterfaceOps(interfaces[1..]) + rest;
      DeleteInterfacesRun(next, interfaces[1..], rest);
      assert {interfaces[0]} + (set i | i in interfaces[1..]) == (set i | i in interfaces);
      assert next.interfaces - (set i | i in interfaces[1..]) == db.interfaces - (set i | i in interfaces);
    }
  }

  lemma DeletePortRuns(db: Db, interfaces: seq<Uuid>, port: Uuid, name: string)
    ensures ExecAll(db, DeletePortOps(interfaces, port, name)) ==
            Some(WithPorts(db.(interfaces := db.interfaces - (set i | i in interfaces), ports := db.ports - {port}),
                           ByName(name), {}, {port}))
  {
    hide ExecAll;
    DeleteInterfacesRun(db, interfaces, [DeletePort(port), DropFromPorts(ByName(name), {port})]);
    TwoOps(db.(interfaces := db.interfaces - (set i | i in interfaces)), DeletePort(port),
           DropFromPorts(ByName(name), {port}));
  }

  lemma BridgesAfterRemoval(db: Db, bridge: Uuid, port: Uuid)
    requires Good(db) && bridge in db.bridges && port in db.bridges[bridge].ports && port in db.ports
    ensures WithPorts(db, ByName(db.bridges[bridge].name), {}, {port}).bridges == PortRemoved(db, bridge, port).bridges
  {
    var a := WithPorts(db, ByName(db.bridges[bridge].name), {}, {port}).bridges;
    var b := PortRemoved(db, bridge, port).bridges;
    forall x | x in db.bridges ensures a[x] == b[x] {
      assert db.bridges[x].ports + {} - {port} == db.bridges[x].ports - {port};
    }
  }

  lemma RemovalIsClean(db: Db, bridge: Uuid, port: Uuid)
    requires Good(db) && bridge in db.bridges && port in db.bridges[bridge].ports && port in db.ports
    ensures NoGarbage(PortRemoved(db, bridge, port))
  {
    hide NamesUnique, ReferencesResolve;
    var after := PortRemoved(db, bridge, port);
    forall x | x in after.bridges ensures SwitchHolds(after, x) {
      assert SwitchHolds(db, x);
    }
    forall x | x in after.ports ensures BridgeHolds(after, x) {
      var b :| b in db.bridges && x in db.bridges[b].ports;
      assert x in after.bridges[b].ports;
    }
    forall x | x in after.interfaces ensures PortHolds(after, x) {
      var p :| p in db.ports && x in db.ports[p].interfaces;
      assert p in after.ports && x in after.ports[p].interfaces;
    }
  }

  lemma RemovalIsConsistent(db: Db, bridge: Uuid, port: Uuid)
    requires Good(db) && bridge in db.bridges && port in db.bridges[bridge].ports && port in db.ports
    ensures Consistent(PortRemoved(db, bridge, port))
  {
    hide NoGarbage;
  }

  /** Deleting a port takes exactly that port and its interfaces out of a good database. */
  lemma DelPortRemoves(db: Db, bridge: Uuid, port: Uuid, interfaces: seq<Uuid>)
    requires Good(db) && bridge in db.bridges && port in db.bridges[bridge].ports && port in db.ports
    requires forall i :: i in interfaces <==> i in db.ports[port].interfaces
    ensures Commit(db, DeletePortOps(interfaces, port, db.bridges[bridge].name)) == Ok(PortRemoved(db, bridge, port))
  {
    hide NoGarbage, Consistent, ExecAll, Collect, DeletePortOps;
    DeletePortRuns(db, interfaces, port, db.bridges[bridge].name);
    BridgesAfterRemoval(db, bridge, port);
    assert (set i | i in interfaces) == db.ports[port].interfaces;
    var work := db.(interfaces := db.interfaces - (set i | i in interfaces), ports := db.ports - {port});
    assert WithPorts(work, ByName(db.bridges[bridge].name), {}, {port}) == PortRemoved(db, bridge, port);
    RemovalIsClean(db, bridge, port);
    RemovalIsConsistent(db, bridge, port);
    CollectKeepsClean(PortRemoved(db, bridge, port));
  }

  /** The port that the call is about. */
  predicate IsPort(db: Db, ref: PortRef, p: Uuid) {
    && p in db.ports
    && match ref
       case PortNamed(name) => db.ports[p].name == name
       case PortWithId(id) => p == id
  }

  predicate OwnedBy(row: Port, owner: string) {
    owner == "" || ("owner" in row.externalIds && row.externalIds["owner"] == owner)
  }

  lemma FoundIff(db: Db, ref: PortRef, p: Uuid)
    requires NamesUnique(db)
    ensures LookupPort(db, ref) == Some(p) <==> IsPort(db, ref, p)
  {
  }

  /** With fresh reads delPort fails exactly if no port is asked for, or the port has another owner; it
      removes the port if it is in the bridge, and changes nothing otherwise. */
  lemma DelPortOutcome(db: Db, bridgeName: string, ref: PortRef, owner: string, interfaces: seq<Uuid>)
    requires Good(db) && ListsInterfaces(Now(db), ref, interfaces)
    ensures var plan := DelPortPlan(Now(db), bridgeName, ref, owner, interfaces);
            && (ResultOf(db, plan).Err? <==>
                  ref == PortNamed("") || exists p :: IsPort(db, ref, p) && !OwnedBy(db.ports[p], owner))
            && (forall p, b :: ResultOf(db, plan).Ok? && IsPort(db, ref, p) && b in db.bridges
                               && db.bridges[b].name == bridgeName && p in db.bridges[b].ports ==>
                  Outcome(db, plan) == PortRemoved(db, b, p))
            && ((forall p, b :: IsPort(db, ref, p) && b in db.bridges && db.bridges[b].name == bridgeName ==>
                                p !in db.bridges[b].ports) ==> Outcome(db, plan) == db)
            && (ResultOf(db, plan).Err? ==> Outcome(db, plan) == db)
  {
    hide NoGarbage, HeldOnce, ReferencesResolve, NamesUnique, IsPortInBridge, Commit, DeletePortOps, LookupPort, IsPort;
    forall p: Uuid ensures LookupPort(db, ref) == Some(p) <==> IsPort(db, ref, p) {
      FoundIff(db, ref, p);
    }
    var found := LookupPort(db, ref);
    if found.Some? {
      var p := found.value;
      InBridgeIffMember(db, bridgeName, p);
      OwnerIff(db.ports[p], owner);
      forall b | b in db.bridges && db.bridges[b].name == bridgeName && p in db.bridges[b].ports
        ensures Commit(db, DeletePortOps(interfaces, p, bridgeName)) == Ok(PortRemoved(db, b, p))
      {
        DelPortRemoves(db, b, p, interfaces);
      }
    }
  }

  lemma OwnerIff(row: Port, owner: string)
    ensures OwnedBy(row, owner) <==> !(owner != "" && OwnerOf(row) != owner)
  {
  }

  // ---------------------------------------------------------------- creating and deleting a bridge

  /** The bridge with every column as configured, in the Open_vSwitch row, with its internal port and
      interface unless they were not wanted; every other row is as it was. */
  ghost predicate BridgeAdded(db: Db, after: Db, cfg: BridgeConfig, s: Uuid, bridge: Uuid, port: Uuid,
                              interface: Uuid)
  {
    && s in db.switches
    && after.switches == db.switches[s := db.switches[s].(bridges := db.switches[s].bridges + {bridge})]
    && bridge !in db.bridges
    && after.bridges == db.bridges[bridge := Bridge(cfg.name, if cfg.skipCreateInternalPort then {} else {port},
                                                    cfg.datapathType, cfg.failMode, cfg.externalIds, cfg.otherConfig)]
    && if cfg.skipCreateInternalPort then after.ports == db.ports && after.interfaces == db.interfaces
       else
         && after.ports == db.ports[port := Port(InnerName(cfg), {interface}, map[], None, None, {})]
         && after.interfaces == db.interfaces[interface :=
              Interface(InnerName(cfg), "internal", None, None, map[], map[])]
  }

  /** The name asked for, unless it is missing or empty, or else the name of the bridge. */
  function InnerName(cfg: BridgeConfig): string {
    match cfg.internalInterfaceName
    case None => cfg.name
    case Some(name) => if |name| > 0 then name else cfg.name
  }

  lemma NewBridgeRows(db: Db, cfg: BridgeConfig, s: Uuid, bridge: Uuid, port: Uuid, interface: Uuid)
    requires NewBridgeIn(db, s, bridge, port, interface)
    ensures BridgeAdded(db, WithNewBridge(db, cfg, s, bridge, port, interface), cfg, s, bridge, port, interface)
  {
    assert db.switches[s].bridges + {bridge} - {} == db.switches[s].bridges + {bridge};
  }

  /** With fresh reads AddBridge of a bridge that is not there is refused exactly if the internal
      interface would get a name of more than 15 characters, or there is not one Open_vSwitch row;
      and if its transaction commits, the bridge is added. */
  lemma AddBridgeCreates(db: Db, cfg: BridgeConfig, bridge: Uuid, port: Uuid, interface: Uuid)
    requires Good(db) && bridge !in db.bridges && NewTo(db, port, interface)
    ensures var plan := CreateBridgePlan(Now(db), cfg, bridge, port, interface);
            && (plan.Return? <==> (!cfg.skipCreateInternalPort && |InnerName(cfg)| > 15) || |db.switches| != 1)
            && (plan.Return? ==> plan.result.Err?)
            && (plan.Send? && ResultOf(db, plan).Ok? ==>
                  exists s :: BridgeAdded(db, Outcome(db, plan), cfg, s, bridge, port, interface))
  {
    hide NoGarbage, HeldOnce, ReferencesResolve, NamesUnique, CreateBridgeOps, BridgeAdded, WithNewBridge, Commit;
    assert |db.switches.Keys| == |db.switches|;
    var switch := TheSwitch(db);
    if switch.Some? {
      assert switch.value in db.switches.Keys;
      var s := switch.value;
      NewBridgeRows(db, cfg, s, bridge, port, interface);
      if Commit(db, CreateBridgeOps(cfg, s, bridge, port, interface)).Ok? {
        MadeBridgeIsGood(db, cfg, s, bridge, port, interface);
        var made := Commit(db, CreateBridgeOps(cfg, s, bridge, port, interface)).value;
        var plan := CreateBridgePlan(Now(db), cfg, bridge, port, interface);
        assert BridgeAdded(db, made, cfg, s, bridge, port, interface);
        assert plan.Send? ==> Outcome(db, plan) == made;
      }
    }
  }

  /** The bridge is gone, with its ports and their interfaces; nothing else changes. */
  function BridgeRemoved(db: Db, s: Uuid, bridge: Uuid): Db
    requires s in db.switches && bridge in db.bridges
  {
    Db(db.switches[s := db.switches[s].(bridges := db.switches[s].bridges - {bridge})], db.bridges - {bridge},
       db.ports - db.bridges[bridge].ports,
       map i | i in db.interfaces
             && !(exists p :: p in db.bridges[bridge].ports && p in db.ports && i in db.ports[p].interfaces)
             :: db.interfaces[i])
  }

  lemma OthersStayHeld(db: Db, s: Uuid, bridge: Uuid)
    requires Good(db) && db.switches.Keys == {s} && bridge in db.bridges
    ensures NoGarbage(BridgeRemoved(db, s, bridge))
  {
    hide NamesUnique, ReferencesResolve;
    var after := BridgeRemoved(db, s, bridge);
    forall x | x in after.bridges ensures SwitchHolds(after, x) {
      var y :| y in db.switches && x in db.switches[y].bridges;
      assert x in after.switches[s].bridges;
    }
    forall x | x in after.ports ensures BridgeHolds(after, x) {
      var b :| b in db.bridges && x in db.bridges[b].ports;
      assert b in after.bridges && x in after.bridges[b].ports;
    }
    forall x | x in after.interfaces ensures PortHolds(after, x) {
      var p :| p in db.ports && x in db.ports[p].interfaces;
      assert p in after.ports && x in after.ports[p].interfaces;
    }
  }

  lemma OthersStayConsistent(db: Db, s: Uuid, bridge: Uuid)
    requires Good(db) && db.switches.Keys == {s} && bridge in db.bridges
    ensures ReferencesResolve(BridgeRemoved(db, s, bridge)) && NamesUnique(BridgeRemoved(db, s, bridge))
  {
    hide NoGarbage;
    var after := BridgeRemoved(db, s, bridge);
    forall p, i | p in after.ports && i in after.ports[p].interfaces ensures i in after.interfaces {
      assert i in db.interfaces;
    }
    forall b, p | b in after.bridges && p in after.bridges[b].ports ensures p in after.ports {
      assert p in db.ports;
    }
  }

  lemma PortsStillHeld(db: Db, s: Uuid, bridge: Uuid, x: Uuid)
    requires HeldOnce(db) && s in db.switches && bridge in db.bridges && x in db.ports
    requires BridgeHolds(BridgeRemoved(db, s, bridge), x)
    ensures x in BridgeRemoved(db, s, bridge).ports
  {
    var after := BridgeRemoved(db, s, bridge);
    var b :| b in after.bridges && x in after.bridges[b].ports;
    assert b in db.bridges && x in db.bridges[b].ports && b != bridge;
  }

  lemma InterfacesStillHeld(db: Db, s: Uuid, bridge: Uuid, x: Uuid)
    requires HeldOnce(db) && s in db.switches && bridge in db.bridges && x in db.interfaces
    requires PortHolds(BridgeRemoved(db, s, bridge), x)
    ensures x in BridgeRemoved(db, s, bridge).interfaces
  {
    var after := BridgeRemoved(db, s, bridge);
    var p :| p in after.ports && x in after.ports[p].interfaces;
    assert p in db.ports && x in db.ports[p].interfaces && p !in db.bridges[bridge].ports;
  }

  /** What is left of the bridge after its two operations is exactly garbage. */
  lemma RestIsGarbage(db: Db, s: Uuid, bridge: Uuid, work: Db)
    requires HeldOnce(db) && s in db.switches && bridge in db.bridges
    requires work == db.(switches := BridgeRemoved(db, s, bridge).switches, bridges := db.bridges - {bridge})
    requires NoGarbage(BridgeRemoved(db, s, bridge))
    ensures PlusGarbage(work, BridgeRemoved(db, s, bridge))
  {
    hide BridgeHolds, PortHolds, SwitchHolds, HeldOnce;
    var after := BridgeRemoved(db, s, bridge);
    forall x | x in work.ports && BridgeHolds(after, x) ensures x in after.ports {
      PortsStillHeld(db, s, bridge, x);
    }
    forall x | x in work.interfaces && PortHolds(after, x) ensures x in after.interfaces {
      InterfacesStillHeld(db, s, bridge, x);
    }
  }

  /** Deleting a bridge takes exactly that bridge, its ports and their interfaces out of a good
      database. */
  lemma DeleteBridgeRemoves(db: Db, s: Uuid, bridge: Uuid)
    requires Good(db) && db.switches.Keys == {s} && bridge in db.bridges
    ensures DeleteBridgePlan(Now(db), db.bridges[bridge].name) ==
            Send([DropFromBridges(s, {bridge}), DeleteBridgeRow(bridge)])
    ensures Commit(db, [DropFromBridges(s, {bridge}), DeleteBridgeRow(bridge)]) == Ok(BridgeRemoved(db, s, bridge))
  {
    DeleteIsPlanned(db, s, bridge);
    hide NoGarbage, HeldOnce, NamesUnique, ReferencesResolve, ExecAll, Collect, PlusGarbage, DeleteBridgePlan;
    DeleteBridgeRuns(db, s, bridge);
    OthersStayHeld(db, s, bridge);
    OthersStayConsistent(db, s, bridge);
    var row := db.switches[s];
    assert row.bridges + {} - {bridge} == row.bridges - {bridge};
    var work := db.(switches := BridgeRemoved(db, s, bridge).switches, bridges := db.bridges - {bridge});
    RestIsGarbage(db, s, bridge, work);
    CollectsTo(work, BridgeRemoved(db, s, bridge));
  }

  lemma DeleteIsPlanned(db: Db, s: Uuid, bridge: Uuid)
    requires NamesUnique(db) && db.switches.Keys == {s} && bridge in db.bridges
    ensures DeleteBridgePlan(Now(db), db.bridges[bridge].name) ==
            Send([DropFromBridges(s, {bridge}), DeleteBridgeRow(bridge)])
  {
    assert FindBridge(db, db.bridges[bridge].name) == Some(bridge);
  }

  // ---------------------------------------------------------------- a bridge that is there already

  lemma SetBridgeSets(db: Db, b: Uuid, column: MapColumn, desired: Strings)
    requires Consistent(db) && NoGarbage(db) && b in db.bridges
    requires column.BridgeExternalIds? || column.BridgeOtherConfig?
    ensures var plan := SetBridgePlan(db, db.bridges[b].name, column, desired);
            && ResultOf(db, plan) == Ok(())
            && Outcome(db, plan) == WithColumn(db, column, b, Column(db, column, b) + desired)
            && Consistent(Outcome(db, plan)) && NoGarbage(Outcome(db, plan))
  {
    hide Commit, NoGarbage, ReferencesResolve, Mutated, ToDelete, ToInsert;
    var row := Column(db, column, b);
    FoundByName(db, b);
    if desired == map[] {
      assert row + desired == row;
      SameColumnAgain(db, column, b);
    } else {
      FreshReadSettles(row, row, desired);
      SetMapOutcome(db, column, b, row, desired);
      var ops := SetMapOps(column, b, row, desired);
      if ops == [] {
        NothingToSet(row, desired);
        SameColumnAgain(db, column, b);
      } else {
        CleanAfter(db, ops);
      }
    }
  }

  lemma FoundByName(db: Db, b: Uuid)
    requires Consistent(db) && b in db.bridges
    ensures FindBridge(db, db.bridges[b].name) == Some(b)
  {
  }

  lemma SameColumnAgain(db: Db, column: MapColumn, b: Uuid)
    requires b in db.bridges && (column.BridgeExternalIds? || column.BridgeOtherConfig?)
    ensures WithColumn(db, column, b, Column(db, column, b)) == db
  {
    assert db.bridges[b := db.bridges[b]] == db.bridges;
  }

  lemma NothingToSet(row: Strings, desired: Strings)
    requires ToInsert(row, desired) == map[]
    ensures row + desired == row
  {
    assert forall k :: k in desired ==> k in row && row[k] == desired[k] by {
      forall k | k in desired ensures k in row && row[k] == desired[k] {
        assert k !in ToInsert(row, desired);
      }
    }
  }

  lemma CleanAfter(db: Db, ops: seq<Op>)
    requires Consistent(db) && NoGarbage(db)
    ensures Consistent(Outcome(db, Send(ops))) && NoGarbage(Outcome(db, Send(ops)))
  {
    if Commit(db, ops).Ok? {
      CommitIsClean(db, ops);
    }
  }

  /** AddBridge of a bridge that is there, with fresh reads: both maps are overridden by those asked
      for, and nothing else changes. */
  lemma AddBridgeSets(db: Db, cfg: BridgeConfig, b: Uuid)
    requires Good(db) && b in db.bridges && db.bridges[b].name == cfg.name
    ensures var first := SetBridgePlan(db, cfg.name, BridgeExternalIds, cfg.externalIds);
            var middle := Outcome(db, first);
            && ResultOf(db, first) == Ok(()) && NamesUnique(middle)
            && var second := SetBridgePlan(middle, cfg.name, BridgeOtherConfig, cfg.otherConfig);
               && ResultOf(middle, second) == Ok(())
               && Outcome(middle, second) ==
                  db.(bridges := db.bridges[b := db.bridges[b].(
                        externalIds := db.bridges[b].externalIds + cfg.externalIds,
                        otherConfig := db.bridges[b].otherConfig + cfg.otherConfig)])
  {
    hide SetBridgePlan, Outcome, ResultOf, NoGarbage, ReferencesResolve, HeldOnce;
    SetBridgeSets(db, b, BridgeExternalIds, cfg.externalIds);
    var middle := Outcome(db, SetBridgePlan(db, cfg.name, BridgeExternalIds, cfg.externalIds));
    assert middle.bridges[b].name == cfg.name;
    SetBridgeSets(middle, b, BridgeOtherConfig, cfg.otherConfig);
  }

  /** Setting one map column reads back, and no other map column of any row changes. */
  lemma ColumnsAreSeparate(db: Db, set': MapColumn, id: Uuid, value: Strings, other: MapColumn, x: Uuid)
    requires HasRow(db, set', id) && HasRow(db, other, x)
    ensures HasRow(WithColumn(db, set', id, value), other, x)
    ensures Column(WithColumn(db, set', id, value), other, x) ==
            if set' == other && id == x then value else Column(db, other, x)
  {
  }
}
