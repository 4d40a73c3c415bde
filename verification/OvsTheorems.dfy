/** What single calls of the OVS client achieve: exact undo, no-ops, refusals, and what a map
    update does to a row that changed after it was read. */
module OvsTheorems {
  import opened Common
  import opened OvsDatabase
  import opened OvsClient
  import opened OvsRuns

  // ---------------------------------------------------------------- map columns

  /** Whether key `k` ends up with its desired value: it has it already, or the update touches it
      and the row is as it was read, or does not have the key. */
  predicate Settles(row: Strings, read: Strings, desired: Strings, k: string)
    requires k in desired
  {
    || (k in row && row[k] == desired[k])
    || (!(k in read && read[k] == desired[k]) && (k !in row || (k in read && row[k] == read[k])))
  }

  /** The update sets exactly the keys that settle, and never touches a key that was not asked for,
      whatever another writer did to the row in between. */
  lemma MapUpdate(row: Strings, read: Strings, desired: Strings, k: string)
    ensures var after := Mutated(row, ToDelete(read, desired), ToInsert(read, desired));
            if k in desired then k in after && after[k] == desired[k] <==> Settles(row, read, desired, k)
            else (k in after <==> k in row) && (k in row ==> after[k] == row[k])
  {
  }

  /** The column becomes the old one overridden by the desired pairs exactly when every key settles. */
  lemma MapUpdateOverrides(row: Strings, read: Strings, desired: Strings)
    ensures Mutated(row, ToDelete(read, desired), ToInsert(read, desired)) == row + desired <==>
            forall k :: k in desired ==> Settles(row, read, desired, k)
  {
    hide Mutated, ToDelete, ToInsert, Settles;
    var after := Mutated(row, ToDelete(read, desired), ToInsert(read, desired));
    forall k ensures k in desired ==> (k in after && after[k] == desired[k] <==> Settles(row, read, desired, k))
             ensures k !in desired ==> (k in after <==> k in row) && (k in row ==> after[k] == row[k])
    {
      MapUpdate(row, read, desired, k);
    }
    if after == row + desired {
      forall k | k in desired ensures Settles(row, read, desired, k) {
        assert (row + desired)[k] == desired[k];
      }
    }
  }

  /** Another writer set the key after it was read: the update leaves the other value in place. */
  lemma StaleReadExample()
    ensures var row, read, desired := map["k" := "other"], map["k" := "old"], map["k" := "new"];
            Mutated(row, ToDelete(read, desired), ToInsert(read, desired)) == row
            && !Settles(row, read, desired, "k")
  {
    var row, read, desired := map["k" := "other"], map["k" := "old"], map["k" := "new"];
    assert "other"[1] != "new"[1] && "other"[1] != "old"[1] && "old"[1] != "new"[1];
    assert ToDelete(read, desired) == map["k" := "old"] && ToInsert(read, desired) == map["k" := "new"];
  }

  lemma FreshReadSettles(row: Strings, read: Strings, desired: Strings)
    requires forall k :: k in desired ==> (k in read <==> k in row) && (k in row ==> read[k] == row[k])
    ensures forall k :: k in desired ==> Settles(row, read, desired, k)
    ensures Mutated(row, ToDelete(read, desired), ToInsert(read, desired)) == row + desired
  {
    MapUpdateOverrides(row, read, desired);
  }

  /** The same rows with the same names and references. */
  ghost predicate SameShape(a: Db, b: Db) {
    && a.switches.Keys == b.switches.Keys && a.bridges.Keys == b.bridges.Keys
    && a.ports.Keys == b.ports.Keys && a.interfaces.Keys == b.interfaces.Keys
    && (forall x :: x in a.switches ==> a.switches[x].bridges == b.switches[x].bridges)
    && (forall x :: x in a.bridges ==>
          a.bridges[x].ports == b.bridges[x].ports && a.bridges[x].name == b.bridges[x].name)
    && (forall x :: x in a.ports ==>
          a.ports[x].interfaces == b.ports[x].interfaces && a.ports[x].name == b.ports[x].name)
    && (forall x :: x in a.interfaces ==> a.interfaces[x].name == b.interfaces[x].name)
  }

  lemma ShapeIsConsistent(a: Db, b: Db)
    requires SameShape(a, b) && Consistent(a)
    ensures Consistent(b)
  {
  }

  lemma ShapeHasNoGarbage(a: Db, b: Db)
    requires SameShape(a, b) && NoGarbage(a)
    ensures NoGarbage(b)
  {
    forall x | x in b.bridges ensures SwitchHolds(b, x) {
      var s :| s in a.switches && x in a.switches[s].bridges;
      assert x in b.switches[s].bridges;
    }
    forall x | x in b.ports ensures BridgeHolds(b, x) {
      var s :| s in a.bridges && x in a.bridges[s].ports;
      assert x in b.bridges[s].ports;
    }
    forall x | x in b.interfaces ensures PortHolds(b, x) {
      var s :| s in a.ports && x in a.ports[s].interfaces;
      assert x in b.ports[s].interfaces;
    }
  }

  lemma ColumnsHaveNoShape(db: Db, column: MapColumn, id: Uuid, value: Strings)
    requires HasRow(db, column, id)
    ensures SameShape(db, WithColumn(db, column, id, value))
  {
    hide NamesUnique;
    match column
    case SwitchExternalIds =>
    case BridgeExternalIds =>
    case BridgeOtherConfig =>
    case PortExternalIds =>
    case InterfaceExternalIds =>
    case InterfaceOptions =>
  }

  lemma SameColumn(db: Db, column: MapColumn, id: Uuid)
    requires HasRow(db, column, id)
    ensures WithColumn(db, column, id, Column(db, column, id)) == db
  {
  }

  /** Setting a map column succeeds and changes nothing but that column of that row. */
  lemma SetMapOutcome(db: Db, column: MapColumn, id: Uuid, read: Strings, desired: Strings)
    requires Consistent(db) && NoGarbage(db)
    ensures var plan := Send(SetMapOps(column, id, read, desired));
            && ResultOf(db, plan).Ok?
            && Outcome(db, plan) ==
               if HasRow(db, column, id)
               then WithColumn(db, column, id,
                               Mutated(Column(db, column, id), ToDelete(read, desired), ToInsert(read, desired)))
               else db
  {
    hide Consistent, NoGarbage, Collect, Column, WithColumn;
    var ops := SetMapOps(column, id, read, desired);
    if ops == [] {
      CollectKeepsClean(db);
      if HasRow(db, column, id) {
        assert ToDelete(read, desired) == map[];
        assert Mutated(Column(db, column, id), map[], map[]) == Column(db, column, id);
        SameColumn(db, column, id);
      }
    } else {
      assert ops[1..] == [];
      var after := Exec(db, ops[0]).value;
      assert ExecAll(db, ops) == ExecAll(after, []);
      if HasRow(db, column, id) {
        var value := Mutated(Column(db, column, id), ToDelete(read, desired), ToInsert(read, desired));
        ColumnsHaveNoShape(db, column, id, value);
        ShapeIsConsistent(db, after);
        ShapeHasNoGarbage(db, after);
      }
      CollectKeepsClean(after);
    }
  }

  // ---------------------------------------------------------------- creating a port

  /** The state all reads of a call see when nobody else is writing. */
  function Now(db: Db): Reads {
    Reads(db, db, db)
  }

  ghost predicate NewTo(db: Db, port: Uuid, interface: Uuid) {
    port !in db.ports && interface !in db.interfaces
  }

  lemma NewPortIsHeld(db: Db, cfg: PortConfig, bridge: Uuid, port: Uuid, interface: Uuid)
    requires NoGarbage(db) && bridge in db.bridges && NewTo(db, port, interface)
    ensures NoGarbage(WithNewPort(db, cfg, bridge, port, interface))
  {
    var work := WithNewPort(db, cfg, bridge, port, interface);
    forall x | x in work.bridges ensures SwitchHolds(work, x) {
      assert SwitchHolds(db, x);
    }
    forall x | x in work.ports ensures BridgeHolds(work, x) {
      if x == port {
        assert port in work.bridges[bridge].ports;
      } else {
        var b :| b in db.bridges && x in db.bridges[b].ports;
        assert x in work.bridges[b].ports;
      }
    }
    forall x | x in work.interfaces ensures PortHolds(work, x) {
      if x == interface {
        assert interface in work.ports[port].interfaces;
      } else {
        var p :| p in db.ports && x in db.ports[p].interfaces;
        assert x in work.ports[p].interfaces;
      }
    }
  }

  /** Rows that nothing in `db` refers to are what collecting takes away. */
  ghost predicate PlusGarbage(work: Db, db: Db) {
    && work.switches == db.switches
    && (forall x :: x in db.bridges <==> x in work.bridges && SwitchHolds(db, x))
    && (forall x :: x in db.bridges ==> work.bridges[x] == db.bridges[x])
    && (forall x :: x in db.ports <==> x in work.ports && BridgeHolds(db, x))
    && (forall x :: x in db.ports ==> work.ports[x] == db.ports[x])
    && (forall x :: x in db.interfaces <==> x in work.interfaces && PortHolds(db, x))
    && (forall x :: x in db.interfaces ==> work.interfaces[x] == db.interfaces[x])
  }

  lemma CollectsBridges(work: Db, db: Db)
    requires PlusGarbage(work, db)
    ensures CollectBridges(work).bridges == db.bridges
  {
    forall x ensures SwitchHolds(work, x) == SwitchHolds(db, x) {
    }
  }

  lemma CollectsPorts(work: Db, db: Db)
    requires work.bridges == db.bridges
    requires forall x :: x in db.ports <==> x in work.ports && BridgeHolds(db, x)
    requires forall x :: x in db.ports ==> work.ports[x] == db.ports[x]
    ensures CollectPorts(work).ports == db.ports
  {
    forall x ensures BridgeHolds(work, x) == BridgeHolds(db, x) {
    }
  }

  lemma CollectsInterfaces(work: Db, db: Db)
    requires work.ports == db.ports
    requires forall x :: x in db.interfaces <==> x in work.interfaces && PortHolds(db, x)
    requires forall x :: x in db.interfaces ==> work.interfaces[x] == db.interfaces[x]
    ensures CollectInterfaces(work).interfaces == db.interfaces
  {
    forall x ensures PortHolds(work, x) == PortHolds(db, x) {
    }
  }

  lemma CollectsTo(work: Db, db: Db)
    requires PlusGarbage(work, db)
    ensures Collect(work) == db
  {
    hide SwitchHolds, BridgeHolds, PortHolds;
    CollectsBridges(work, db);
    var one := CollectBridges(work);
    CollectsPorts(one, db);
    var two := CollectPorts(one);
    CollectsInterfaces(two, db);
  }

  /** A database with one port and one interface too many that nothing refers to. */
  lemma OneTooMany(work: Db, db: Db, port: Uuid, interface: Uuid)
    requires NoGarbage(db) && !BridgeHolds(db, port) && !PortHolds(db, interface)
    requires work.switches == db.switches && work.bridges == db.bridges
    requires work.ports - {port} == db.ports && work.interfaces - {interface} == db.interfaces
    ensures PlusGarbage(work, db)
  {
    hide SwitchHolds, BridgeHolds, PortHolds;
    forall x | x in db.ports ensures x in work.ports && work.ports[x] == db.ports[x] {
      assert x in work.ports - {port};
    }
    forall x | x in work.ports && BridgeHolds(db, x) ensures x in db.ports {
      assert x in work.ports - {port};
    }
    forall x | x in db.interfaces ensures x in work.interfaces && work.interfaces[x] == db.interfaces[x] {
      assert x in work.interfaces - {interface};
    }
    forall x | x in work.interfaces && PortHolds(db, x) ensures x in db.interfaces {
      assert x in work.interfaces - {interface};
    }
  }

  /** A port whose bridge is gone is collected again before the transaction commits. */
  lemma OrphanIsCollected(db: Db, cfg: PortConfig, bridge: Uuid, port: Uuid, interface: Uuid)
    requires ReferencesResolve(db) && NoGarbage(db) && bridge !in db.bridges && NewTo(db, port, interface)
    ensures Collect(WithNewPort(db, cfg, bridge, port, interface)) == db
  {
    hide SwitchHolds, BridgeHolds, PortHolds, ReferencesResolve, NoGarbage, PlusGarbage, Collect;
    var work := WithNewPort(db, cfg, bridge, port, interface);
    NothingHolds(db, port, interface);
    assert work.bridges == db.bridges;
    assert work.ports - {port} == db.ports;
    assert work.interfaces - {interface} == db.interfaces;
    OneTooMany(work, db, port, interface);
    CollectsTo(work, db);
  }

  lemma NothingHolds(db: Db, port: Uuid, interface: Uuid)
    requires ReferencesResolve(db) && NewTo(db, port, interface)
    ensures !BridgeHolds(db, port) && !PortHolds(db, interface)
  {
  }

  /** AddPort reports success exactly when its transaction commits, but the port is there afterwards
      only if the bridge it read was still there: otherwise the database is left as it was. */
  lemma AddPortSucceedsVacuously(db: Db, cfg: PortConfig, bridge: Uuid, port: Uuid, interface: Uuid)
    requires Good(db) && NewTo(db, port, interface)
    requires Commit(db, CreatePortOps(cfg, bridge, port, interface)).Ok?
    ensures Commit(db, CreatePortOps(cfg, bridge, port, interface)).value ==
            if bridge in db.bridges then WithNewPort(db, cfg, bridge, port, interface) else db
  {
    hide HeldOnce, NamesUnique;
    CreatePortRuns(db, cfg, bridge, port, interface);
    if bridge in db.bridges {
      NewPortIsHeld(db, cfg, bridge, port, interface);
      CollectKeepsClean(WithNewPort(db, cfg, bridge, port, interface));
    } else {
      OrphanIsCollected(db, cfg, bridge, port, interface);
    }
  }

  // ---------------------------------------------------------------- deleting a port undoes it

  /** Attaching a port nobody referred to and dropping it again leaves the bridges as they were. */
  lemma PortsRestored(db: Db, made: Db, bridge: Uuid, name: string, port: Uuid)
    requires NamesUnique(db) && !BridgeHolds(db, port) && bridge in db.bridges && db.bridges[bridge].name == name
    requires made.bridges == WithPorts(db, ById(bridge), {port}, {}).bridges
    ensures WithPorts(made, ByName(name), {}, {port}).bridges == db.bridges
  {
    hide NamesUnique;
    var after := WithPorts(made, ByName(name), {}, {port});
    forall b | b in db.bridges ensures after.bridges[b] == db.bridges[b] {
      assert port !in db.bridges[b].ports;
      assert db.bridges[b].ports + {port} - {port} == db.bridges[b].ports;
    }
  }

  lemma DeleteOpsRun(db: Db, interface: Uuid, port: Uuid, name: string)
    ensures ExecAll(db, DeletePortOps([interface], port, name)) ==
            Some(WithPorts(db.(interfaces := db.interfaces - {interface}, ports := db.ports - {port}),
                           ByName(name), {}, {port}))
  {
    assert [interface][1..] == [];
    assert DeleteInterfaceOps([interface]) == [DeleteInterface(interface)] + DeleteInterfaceOps([]);
    assert DeletePortOps([interface], port, name) ==
           [DeleteInterface(interface), DeletePort(port), DropFromPorts(ByName(name), {port})];
    ExecThree(db, DeleteInterface(interface), DeletePort(port), DropFromPorts(ByName(name), {port}));
  }

  /** The delete transaction for a port with one interface, on the database the create made. */
  lemma DeleteRestores(db: Db, cfg: PortConfig, bridge: Uuid, port: Uuid, interface: Uuid)
    requires Consistent(db) && NewTo(db, port, interface)
    requires bridge in db.bridges && db.bridges[bridge].name == cfg.bridgeName
    ensures ExecAll(WithNewPort(db, cfg, bridge, port, interface), DeletePortOps([interface], port, cfg.bridgeName)) ==
            Some(db)
  {
    hide ReferencesResolve, NamesUnique, BridgeHolds, PortHolds, ExecAll, DeletePortOps;
    var made := WithNewPort(db, cfg, bridge, port, interface);
    var without := made.(interfaces := made.interfaces - {interface}, ports := made.ports - {port});
    NothingHolds(db, port, interface);
    PortsRestored(db, without, bridge, cfg.bridgeName, port);
    DeleteOpsRun(made, interface, port, cfg.bridgeName);
    assert without.interfaces == db.interfaces;
    assert without.ports == db.ports;
  }

  lemma MadeIsGood(db: Db, cfg: PortConfig, bridge: Uuid, port: Uuid, interface: Uuid)
    requires Good(db) && NewTo(db, port, interface) && bridge in db.bridges
    requires Commit(db, CreatePortOps(cfg, bridge, port, interface)).Ok?
    ensures var made := Commit(db, CreatePortOps(cfg, bridge, port, interface)).value;
            made == WithNewPort(db, cfg, bridge, port, interface) && Good(made)
  {
    AddPortSucceedsVacuously(db, cfg, bridge, port, interface);
    NewPortHeldOnce(db, cfg, bridge, port, interface);
    CommitIsClean(db, CreatePortOps(cfg, bridge, port, interface));
    hide NoGarbage, HeldOnce, Consistent, ExecAll, Collect;
  }

  /** A port of a good database, as the client reads it. */
  lemma ReadBack(db: Db, port: Uuid, bridge: Uuid, bridgeName: string)
    requires Good(db) && port in db.ports && bridge in db.bridges && port in db.bridges[bridge].ports
    requires db.bridges[bridge].name == bridgeName
    ensures FindPort(db, db.ports[port].name) == Some(port) && IsPortInBridge(db, bridgeName, port)
  {
    InBridgeIffMember(db, bridgeName, port);
    hide NoGarbage, HeldOnce, ReferencesResolve, IsPortInBridge;
  }

  /** With fresh reads, AddPort of a port that is in its bridge already does nothing, and delPort of
      it sends the delete transaction unless the owner differs. */
  lemma ReadBackPlans(db: Db, cfg: PortConfig, port: Uuid, bridge: Uuid, interface: Uuid,
                      owner: string, a: Uuid, b: Uuid)
    requires Good(db) && port in db.ports && bridge in db.bridges && port in db.bridges[bridge].ports
    requires db.bridges[bridge].name == cfg.bridgeName && db.ports[port].name == cfg.name != ""
    ensures AddPortPlan(Now(db), cfg, a, b) == Return(Ok(()))
    ensures DelPortPlan(Now(db), cfg.bridgeName, PortNamed(cfg.name), owner, [interface]) ==
            if owner != "" && OwnerOf(db.ports[port]) != owner then Return(Err("port owner does not match"))
            else Send(DeletePortOps([interface], port, cfg.bridgeName))
  {
    ReadBack(db, port, bridge, cfg.bridgeName);
    hide NoGarbage, HeldOnce, ReferencesResolve, NamesUnique, IsPortInBridge, DeletePortOps;
  }

  /** A creating AddPort found no such port, and the bridge it attaches to by name. */
  lemma CreatingRead(r: Reads, cfg: PortConfig, bridge: Uuid, port: Uuid, interface: Uuid)
    requires NamesUnique(r.first) && NamesUnique(r.second)
    requires AddPortPlan(r, cfg, port, interface) == Send(CreatePortOps(cfg, bridge, port, interface))
    ensures FindPort(r.first, cfg.name) == None && FindBridge(r.second, cfg.bridgeName) == Some(bridge)
  {
    var found := FindBridge(r.second, cfg.bridgeName).value;
    var x, y := CreatePortOps(cfg, found, port, interface), CreatePortOps(cfg, bridge, port, interface);
    assert x[|x| - 1] == AddToPorts(ById(found), {port}) && y[|y| - 1] == AddToPorts(ById(bridge), {port});
  }

  lemma MadeHasPort(db: Db, cfg: PortConfig, bridge: Uuid, port: Uuid, interface: Uuid)
    requires bridge in db.bridges && db.bridges[bridge].name == cfg.bridgeName
    ensures var made := WithNewPort(db, cfg, bridge, port, interface);
            && port in made.ports && made.ports[port] == NewPort(cfg, interface)
            && bridge in made.bridges && port in made.bridges[bridge].ports
            && made.bridges[bridge].name == cfg.bridgeName
  {
  }

  lemma DeleteCommits(db: Db, cfg: PortConfig, bridge: Uuid, port: Uuid, interface: Uuid)
    requires Good(db) && NewTo(db, port, interface)
    requires bridge in db.bridges && db.bridges[bridge].name == cfg.bridgeName
    ensures Commit(WithNewPort(db, cfg, bridge, port, interface), DeletePortOps([interface], port, cfg.bridgeName)) ==
            Ok(db)
  {
    hide ReferencesResolve, NamesUnique, NoGarbage, HeldOnce, Collect, ExecAll, DeletePortOps, WithNewPort;
    DeleteRestores(db, cfg, bridge, port, interface);
    CollectKeepsClean(db);
  }

  /** Creating a port and deleting it again restores the database exactly; repeating either call in
      between or afterwards does nothing. */
  lemma AddPortUndone(db: Db, cfg: PortConfig, bridge: Uuid, port: Uuid, interface: Uuid, owner: string, made: Db)
    requires Good(db) && NewTo(db, port, interface) && cfg.name != ""
    requires AddPortPlan(Now(db), cfg, port, interface) == Send(CreatePortOps(cfg, bridge, port, interface))
    requires Commit(db, CreatePortOps(cfg, bridge, port, interface)) == Ok(made)
    requires owner == "" || OwnerOf(NewPort(cfg, interface)) == owner
    ensures Good(made) && port in made.ports && made.ports[port].interfaces == {interface}
    ensures AddPortPlan(Now(made), cfg, port, interface) == Return(Ok(()))
    ensures DelPortPlan(Now(made), cfg.bridgeName, PortNamed(cfg.name), owner, [interface]) ==
            Send(DeletePortOps([interface], port, cfg.bridgeName))
    ensures Commit(made, DeletePortOps([interface], port, cfg.bridgeName)) == Ok(db)
    ensures DelPortPlan(Now(db), cfg.bridgeName, PortNamed(cfg.name), owner, [interface]) == Return(Ok(()))
  {
    hide AddPortPlan, Commit, CreatePortOps, DeletePortOps, WithNewPort, NoGarbage, HeldOnce,
         ReferencesResolve, NamesUnique;
    CreatingRead(Now(db), cfg, bridge, port, interface);
    MadeIsGood(db, cfg, bridge, port, interface);
    MadeHasPort(db, cfg, bridge, port, interface);
    ReadBackPlans(made, cfg, port, bridge, interface, owner, port, interface);
    DeleteCommits(db, cfg, bridge, port, interface);
  }

  /** A port that exists, but not in the bridge that was asked for, is left alone by both calls. */
  lemma WrongBridge(db: Db, cfg: PortConfig, port: Uuid, owner: string, interfaces: seq<Uuid>, a: Uuid, b: Uuid)
    requires Good(db) && port in db.ports && db.ports[port].name == cfg.name != ""
    requires !exists x :: x in db.bridges && db.bridges[x].name == cfg.bridgeName && port in db.bridges[x].ports
    ensures AddPortPlan(Now(db), cfg, a, b) ==
            Return(Err("port already exists on a bridge other than the requested one"))
    ensures DelPortPlan(Now(db), cfg.bridgeName, PortNamed(cfg.name), owner, interfaces) ==
            if owner != "" && OwnerOf(db.ports[port]) != owner then Return(Err("port owner does not match"))
            else Return(Ok(()))
  {
    hide ReferencesResolve;
    assert FindPort(db, cfg.name) == Some(port);
    InBridgeIffMember(db, cfg.bridgeName, port);
    hide NamesUnique, ReferencesResolve, NoGarbage, HeldOnce, IsPortInBridge;
  }

  // ---------------------------------------------------------------- deleting a bridge undoes it

  ghost predicate NewBridgeIn(db: Db, s: Uuid, bridge: Uuid, port: Uuid, interface: Uuid) {
    s in db.switches && bridge !in db.bridges && NewTo(db, port, interface)
  }

  lemma NewBridgeIsHeld(db: Db, cfg: BridgeConfig, s: Uuid, bridge: Uuid, port: Uuid, interface: Uuid)
    requires NoGarbage(db) && NewBridgeIn(db, s, bridge, port, interface)
    ensures NoGarbage(WithNewBridge(db, cfg, s, bridge, port, interface))
  {
    var made := WithNewBridge(db, cfg, s, bridge, port, interface);
    forall x | x in made.bridges ensures SwitchHolds(made, x) {
      if x == bridge {
        assert bridge in made.switches[s].bridges;
      } else {
        var y :| y in db.switches && x in db.switches[y].bridges;
        assert x in made.switches[y].bridges;
      }
    }
    forall x | x in made.ports ensures BridgeHolds(made, x) {
      if x == port {
        assert port in made.bridges[bridge].ports;
      } else {
        var y :| y in db.bridges && x in db.bridges[y].ports;
        assert x in made.bridges[y].ports;
      }
    }
    forall x | x in made.interfaces ensures PortHolds(made, x) {
      if x == interface {
        assert interface in made.ports[port].interfaces;
      } else {
        var y :| y in db.ports && x in db.ports[y].interfaces;
        assert x in made.ports[y].interfaces;
      }
    }
  }

  lemma MadeBridgeIsGood(db: Db, cfg: BridgeConfig, s: Uuid, bridge: Uuid, port: Uuid, interface: Uuid)
    requires Good(db) && NewBridgeIn(db, s, bridge, port, interface)
    requires Commit(db, CreateBridgeOps(cfg, s, bridge, port, interface)).Ok?
    ensures var made := Commit(db, CreateBridgeOps(cfg, s, bridge, port, interface)).value;
            made == WithNewBridge(db, cfg, s, bridge, port, interface) && Good(made)
  {
    hide NoGarbage, HeldOnce, ReferencesResolve, NamesUnique, ExecAll, Collect, CreateBridgeOps, WithNewBridge;
    CreateBridgeRuns(db, cfg, s, bridge, port, interface);
    NewBridgeIsHeld(db, cfg, s, bridge, port, interface);
    CollectKeepsClean(WithNewBridge(db, cfg, s, bridge, port, interface));
    NewBridgeHeldOnce(db, cfg, s, bridge, port, interface);
  }

  lemma DeleteBridgeRuns(db: Db, s: Uuid, bridge: Uuid)
    requires s in db.switches
    ensures var row := db.switches[s];
            ExecAll(db, [DropFromBridges(s, {bridge}), DeleteBridgeRow(bridge)]) ==
            Some(db.(switches := db.switches[s := row.(bridges := row.bridges + {} - {bridge})],
                     bridges := db.bridges - {bridge}))
  {
    hide ExecAll, Exec;
    DropRuns(db, s, {bridge});
    var next := WithBridges(db, s, {}, {bridge});
    DeleteRuns(next, bridge);
    TwoOps(db, DropFromBridges(s, {bridge}), DeleteBridgeRow(bridge));
  }

  lemma DropRuns(db: Db, s: Uuid, refs: set<Uuid>)
    ensures Exec(db, DropFromBridges(s, refs)) == Some(WithBridges(db, s, {}, refs))
  {
  }

  lemma DeleteRuns(db: Db, bridge: Uuid)
    ensures Exec(db, DeleteBridgeRow(bridge)) == Some(db.(bridges := db.bridges - {bridge}))
  {
  }

  lemma TwoOps(db: Db, a: Op, b: Op)
    requires Exec(db, a).Some? && Exec(Exec(db, a).value, b).Some?
    ensures ExecAll(db, [a, b]) == Exec(Exec(db, a).value, b)
  {
    hide Exec;
    var next := Exec(db, a).value;
    assert [a, b][1..] == [b] && [b][1..] == [];
    assert ExecAll(db, [a, b]) == ExecAll(next, [b]);
    assert ExecAll(next, [b]) == ExecAll(Exec(next, b).value, []);
  }

  lemma SwitchRestored(db: Db, cfg: BridgeConfig, s: Uuid, bridge: Uuid, port: Uuid, interface: Uuid)
    requires ReferencesResolve(db) && NewBridgeIn(db, s, bridge, port, interface)
    ensures var made := WithNewBridge(db, cfg, s, bridge, port, interface);
            && s in made.switches
            && made.switches[s := made.switches[s].(bridges := made.switches[s].bridges + {} - {bridge})] == db.switches
            && made.bridges - {bridge} == db.bridges
            && made.ports - {port} == db.ports && made.interfaces - {interface} == db.interfaces
  {
    var made := WithNewBridge(db, cfg, s, bridge, port, interface);
    assert bridge !in db.switches[s].bridges;
    assert made.switches[s].bridges + {} - {bridge} == db.switches[s].bridges;
    hide ReferencesResolve;
  }

  /** The working copy of the delete holds the old database and the orphaned internal port. */
  lemma DeleteBridgeRestores(db: Db, cfg: BridgeConfig, s: Uuid, bridge: Uuid, port: Uuid, interface: Uuid)
    requires Good(db) && NewBridgeIn(db, s, bridge, port, interface)
    ensures var made := WithNewBridge(db, cfg, s, bridge, port, interface);
            s in made.switches &&
            var row := made.switches[s];
            PlusGarbage(made.(switches := made.switches[s := row.(bridges := row.bridges + {} - {bridge})],
                              bridges := made.bridges - {bridge}), db)
  {
    hide NamesUnique, ReferencesResolve, NoGarbage, HeldOnce, BridgeHolds, PortHolds, WithNewBridge, PlusGarbage;
    var made := WithNewBridge(db, cfg, s, bridge, port, interface);
    NothingHolds(db, port, interface);
    SwitchRestored(db, cfg, s, bridge, port, interface);
    var row := made.switches[s];
    OneTooMany(made.(switches := made.switches[s := row.(bridges := row.bridges + {} - {bridge})],
                     bridges := made.bridges - {bridge}), db, port, interface);
  }

  lemma DeleteBridgeCommits(db: Db, cfg: BridgeConfig, s: Uuid, bridge: Uuid, port: Uuid, interface: Uuid)
    requires Good(db) && NewBridgeIn(db, s, bridge, port, interface)
    ensures Commit(WithNewBridge(db, cfg, s, bridge, port, interface),
                   [DropFromBridges(s, {bridge}), DeleteBridgeRow(bridge)]) == Ok(db)
  {
    hide NamesUnique, ReferencesResolve, NoGarbage, HeldOnce, ExecAll, Collect, PlusGarbage, WithNewBridge;
    var made := WithNewBridge(db, cfg, s, bridge, port, interface);
    DeleteBridgeRestores(db, cfg, s, bridge, port, interface);
    DeleteBridgeRuns(made, s, bridge);
    CollectsTo(ExecAll(made, [DropFromBridges(s, {bridge}), DeleteBridgeRow(bridge)]).value, db);
  }

  lemma MadeHasBridge(db: Db, cfg: BridgeConfig, s: Uuid, bridge: Uuid, port: Uuid, interface: Uuid)
    requires s in db.switches
    ensures var made := WithNewBridge(db, cfg, s, bridge, port, interface);
            bridge in made.bridges && made.bridges[bridge] == NewBridge(cfg, port)
            && made.switches.Keys == db.switches.Keys
  {
  }

  /** Setting what is there already sends nothing. */
  lemma SetSameMap(column: MapColumn, id: Uuid, value: Strings)
    ensures SetMapOps(column, id, value, value) == []
  {
    assert ToInsert(value, value) == map[];
  }

  /** Creating a bridge and deleting it again restores the database exactly, the internal port and
      interface going by garbage collection; repeating either call does nothing. */
  lemma AddBridgeUndone(db: Db, cfg: BridgeConfig, s: Uuid, bridge: Uuid, port: Uuid, interface: Uuid, made: Db)
    requires Good(db) && NewBridgeIn(db, s, bridge, port, interface) && TheSwitch(db) == Some(s)
    requires FindBridge(db, cfg.name) == None
    requires Commit(db, CreateBridgeOps(cfg, s, bridge, port, interface)) == Ok(made)
    ensures Good(made) && FindBridge(made, cfg.name) == Some(bridge)
    ensures SetMapOps(BridgeExternalIds, bridge, made.bridges[bridge].externalIds, cfg.externalIds) == []
    ensures SetMapOps(BridgeOtherConfig, bridge, made.bridges[bridge].otherConfig, cfg.otherConfig) == []
    ensures DeleteBridgePlan(Now(made), cfg.name) == Send([DropFromBridges(s, {bridge}), DeleteBridgeRow(bridge)])
    ensures Commit(made, [DropFromBridges(s, {bridge}), DeleteBridgeRow(bridge)]) == Ok(db)
    ensures DeleteBridgePlan(Now(db), cfg.name) == Return(Ok(()))
  {
    hide Commit, CreateBridgeOps, WithNewBridge, NoGarbage, HeldOnce, ReferencesResolve, SetMapOps;
    MadeBridgeIsGood(db, cfg, s, bridge, port, interface);
    MadeHasBridge(db, cfg, s, bridge, port, interface);
    DeleteBridgeCommits(db, cfg, s, bridge, port, interface);
    SetSameMap(BridgeExternalIds, bridge, cfg.externalIds);
    SetSameMap(BridgeOtherConfig, bridge, cfg.otherConfig);
    assert made.bridges[bridge].name == cfg.name;
  }
}
