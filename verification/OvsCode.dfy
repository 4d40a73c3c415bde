/** The server's transactions and the client's calls as they run: operations are appended one by
    one, sent together, and applied all or nothing. */
module OvsCode {
  import opened Common
  import opened OvsDatabase
  import opened OvsClient

  class Server {
    var db: Db

    constructor (db: Db)
      ensures this.db == db
    {
      this.db := db;
    }

    /** Runs the operations on a working copy and commits it, or leaves the database as it was. */
    method Transact(ops: seq<Op>) returns (r: Result<()>)
      modifies this
      ensures db == Outcome(old(db), Send(ops)) && r == ResultOf(old(db), Send(ops))
    {
      hide Exec, Consistent, Collect;
      var work := db;
      for n := 0 to |ops|
        invariant db == old(db)
        invariant ExecAll(db, ops) == ExecAll(work, ops[n..])
      {
        var next := Exec(work, ops[n]);
        assert ops[n..][1..] == ops[n + 1..];
        if next.None? {
          return Err("an operation failed");
        }
        work := next.value;
      }
      work := Collect(work);
      if Consistent(work) {
        db := work;
        return Ok(());
      }
      return Err("a constraint failed");
    }
  }

  lemma {:induction false} DeleteInterfaceAppend(interfaces: seq<Uuid>, i: Uuid)
    ensures DeleteInterfaceOps(interfaces + [i]) == DeleteInterfaceOps(interfaces) + [DeleteInterface(i)]
  {
    if interfaces == [] {
      assert ([] + [i])[1..] == [];
    } else {
      assert (interfaces + [i])[1..] == interfaces[1..] + [i];
      DeleteInterfaceAppend(interfaces[1..], i);
    }
  }

  /** A client answers reads from its own copy of the database, which may be out of date and may
      change from one read to the next: `seen` holds what the successive reads of a call see. */
  class Client {
    const server: Server

    constructor (server: Server)
      ensures this.server == server
    {
      this.server := server;
    }

    method AddPort(seen: Reads, cfg: PortConfig, port: Uuid, interface: Uuid) returns (r: Result<()>)
      requires NamesUnique(seen.first) && NamesUnique(seen.second)
      modifies server
      ensures server.db == Outcome(old(server.db), AddPortPlan(seen, cfg, port, interface))
      ensures r == ResultOf(old(server.db), AddPortPlan(seen, cfg, port, interface))
    {
      hide Commit, NamesUnique, IsPortInBridge;
      var existing := FindPort(seen.first, cfg.name);
      if existing.Some? {
        var again := FindPort(seen.second, cfg.name);
        if again.None? {
          return Err("failed to check if port is in bridge");
        }
        var inBridge := IsPortInBridge(seen.third, cfg.bridgeName, again.value);
        if inBridge {
          return Ok(());
        }
        return Err("port already exists on a bridge other than the requested one");
      }
      var bridge := FindBridge(seen.second, cfg.bridgeName);
      if bridge.None? {
        return Err("failed to get bridge");
      }
      var operations: seq<Op> := [];
      if cfg.waitForOfportFree && cfg.ofportRequest.Some? {
        operations := operations + [WaitOfportFree(cfg.ofportRequest.value)];
      }
      operations := operations + [InsertInterface(interface, NewInterface(cfg))];
      operations := operations + [InsertPort(port, NewPort(cfg, interface))];
      operations := operations + [AddToPorts(ById(bridge.value), {port})];
      assert operations == CreatePortOps(cfg, bridge.value, port, interface);
      r := server.Transact(operations);
    }

    /** `interfaces` is the order in which the interfaces of the port were visited. */
    method DelPort(seen: Reads, bridgeName: string, ref: PortRef, owner: string)
      returns (r: Result<()>, ghost interfaces: seq<Uuid>)
      requires NamesUnique(seen.first)
      modifies server
      ensures var plan := DelPortPlan(seen, bridgeName, ref, owner, interfaces);
              && (plan.Send? ==> ListsInterfaces(seen, ref, interfaces))
              && server.db == Outcome(old(server.db), plan) && r == ResultOf(old(server.db), plan)
    {
      hide Commit, NamesUnique, IsPortInBridge;
      interfaces := [];
      if ref == PortNamed("") {
        r := Err("port name or UUID must be provided");
        return;
      }
      var found := LookupPort(seen.first, ref);
      if found.None? {
        r := Ok(());
        return;
      }
      var row := seen.first.ports[found.value];
      if owner != "" && OwnerOf(row) != owner {
        r := Err("port owner does not match");
        return;
      }
      var inBridge := IsPortInBridge(seen.second, bridgeName, found.value);
      if !inBridge {
        r := Ok(());
        return;
      }
      var operations: seq<Op> := [];
      var todo := row.interfaces;
      while todo != {}
        invariant server.db == old(server.db) && todo <= row.interfaces
        invariant operations == DeleteInterfaceOps(interfaces)
        invariant forall i :: i in interfaces <==> i in row.interfaces - todo
        decreases todo
      {
        var i :| i in todo;
        operations := operations + [DeleteInterface(i)];
        DeleteInterfaceAppend(interfaces, i);
        interfaces := interfaces + [i];
        todo := todo - {i};
      }
      operations := operations + [DeletePort(found.value)];
      operations := operations + [DropFromPorts(ByName(bridgeName), {found.value})];
      assert operations == DeletePortOps(interfaces, found.value, bridgeName);
      r := server.Transact(operations);
    }

    /** Sends one map update, if there is anything to update. */
    method SetMap(column: MapColumn, id: Uuid, current: Strings, desired: Strings) returns (r: Result<()>)
      modifies server
      ensures server.db == Outcome(old(server.db), SetMapPlan(column, id, current, desired))
      ensures r == ResultOf(old(server.db), SetMapPlan(column, id, current, desired))
    {
      hide Commit;
      var ops := MutateMapField(column, id, current, desired);
      if ops == [] {
        return Ok(());
      }
      r := server.Transact(ops);
    }

    method SetBridgeMap(read: Db, name: string, column: MapColumn, desired: Strings) returns (r: Result<()>)
      requires NamesUnique(read) && (column.BridgeExternalIds? || column.BridgeOtherConfig?)
      modifies server
      ensures server.db == Outcome(old(server.db), SetBridgePlan(read, name, column, desired))
      ensures r == ResultOf(old(server.db), SetBridgePlan(read, name, column, desired))
    {
      hide Commit, NamesUnique, SetMapPlan;
      if |desired| == 0 {
        return Ok(());
      }
      var bridge := FindBridge(read, name);
      if bridge.None? {
        return Err("failed to get bridge");
      }
      r := SetMap(column, bridge.value, Column(read, column, bridge.value), desired);
    }

    /** Creates the bridge, or sets the two maps of the one that is there, each after another read. */
    method AddBridge(seen: Reads, cfg: BridgeConfig, bridge: Uuid, port: Uuid, interface: Uuid) returns (r: Result<()>)
      requires NamesUnique(seen.first) && NamesUnique(seen.second) && NamesUnique(seen.third)
      modifies server
      ensures if FindBridge(seen.first, cfg.name).Some? then
                var first := SetBridgePlan(seen.second, cfg.name, BridgeExternalIds, cfg.externalIds);
                var second := SetBridgePlan(seen.third, cfg.name, BridgeOtherConfig, cfg.otherConfig);
                var middle := Outcome(old(server.db), first);
                if ResultOf(old(server.db), first).Err? then
                  server.db == middle && r == ResultOf(old(server.db), first)
                else
                  server.db == Outcome(middle, second) && r == ResultOf(middle, second)
              else
                && server.db == Outcome(old(server.db), CreateBridgePlan(seen, cfg, bridge, port, interface))
                && r == ResultOf(old(server.db), CreateBridgePlan(seen, cfg, bridge, port, interface))
    {
      hide Commit, NamesUnique, SetBridgePlan;
      var found := FindBridge(seen.first, cfg.name);
      if found.Some? {
        r := SetBridgeMap(seen.second, cfg.name, BridgeExternalIds, cfg.externalIds);
        if r.Ok? {
          r := SetBridgeMap(seen.third, cfg.name, BridgeOtherConfig, cfg.otherConfig);
        }
        return;
      }
      var operations := [InsertBridge(bridge, NewBridge(cfg, port))];
      if !cfg.skipCreateInternalPort {
        var name := InternalName(cfg);
        if |name| > MAX_INTERFACE_NAME {
          return Err("internal interface name exceeds maximum length");
        }
        operations := operations + [InsertPort(port, Port(name, {interface}, map[], None, None, {}))];
        operations := operations + [InsertInterface(interface, Interface(name, INTERNAL, None, None, map[], map[]))];
      }
      var switch := TheSwitch(seen.second);
      if switch.None? {
        return Err("failed to get Open_vSwitch row");
      }
      operations := operations + [AddToBridges(switch.value, {bridge})];
      assert operations == CreateBridgeOps(cfg, switch.value, bridge, port, interface);
      r := server.Transact(operations);
    }

    method DeleteBridge(seen: Reads, name: string) returns (r: Result<()>)
      requires NamesUnique(seen.first)
      modifies server
      ensures server.db == Outcome(old(server.db), DeleteBridgePlan(seen, name))
      ensures r == ResultOf(old(server.db), DeleteBridgePlan(seen, name))
    {
      hide Commit, NamesUnique;
      var bridge := FindBridge(seen.first, name);
      if bridge.None? {
        return Ok(());
      }
      var switch := TheSwitch(seen.second);
      if switch.None? {
        return Err("failed to get Open_vSwitch row");
      }
      r := server.Transact([DropFromBridges(switch.value, {bridge.value}), DeleteBridgeRow(bridge.value)]);
    }
  }
}
