/** Several clients at work on one database: every call reads states that may be out of date and
    sends its transaction later, in any interleaving with the others. */
module OvsRuns {
  import opened Common
  import opened OvsDatabase
  import opened OvsClient

  type ClientId = nat

  // ---------------------------------------------------------------- what must hold of every state

  /** No port is in two bridges and no interface in two ports. */
  ghost predicate HeldOnce(db: Db) {
    PortsHeldOnce(db.bridges) && InterfacesHeldOnce(db.ports)
  }

  ghost predicate PortsHeldOnce(bridges: map<Uuid, Bridge>) {
    forall a, b, p :: a in bridges && b in bridges && p in bridges[a].ports && p in bridges[b].ports ==> a == b
  }

  ghost predicate InterfacesHeldOnce(ports: map<Uuid, Port>) {
    forall a, b, i :: a in ports && b in ports && i in ports[a].interfaces && i in ports[b].interfaces ==> a == b
  }

  ghost predicate Good(db: Db) {
    Consistent(db) && NoGarbage(db) && HeldOnce(db)
  }

  /** No two interfaces request the same OpenFlow port. */
  ghost predicate OfportsDiffer(db: Db) {
    forall a, b ::
      && a in db.interfaces && b in db.interfaces && db.interfaces[a].ofportRequest.Some?
      && db.interfaces[a].ofportRequest == db.interfaces[b].ofportRequest
      ==> a == b
  }

  ghost function Ids(db: Db): set<Uuid> {
    db.switches.Keys + db.bridges.Keys + db.ports.Keys + db.interfaces.Keys
  }

  // ---------------------------------------------------------------- operations that only take away

  /** `a` has no row, no reference and no requested port that `b` does not have. */
  ghost predicate Within(a: Db, b: Db) {
    && a.switches.Keys <= b.switches.Keys
    && (forall x :: x in a.bridges ==> x in b.bridges && a.bridges[x].ports <= b.bridges[x].ports)
    && (forall x :: x in a.ports ==> x in b.ports && a.ports[x].interfaces <= b.ports[x].interfaces)
    && (forall x :: x in a.interfaces ==>
          x in b.interfaces && a.interfaces[x].ofportRequest == b.interfaces[x].ofportRequest)
  }

  predicate TakesAway(op: Op) {
    op.WaitOfportFree? || op.DeleteInterface? || op.DeletePort? || op.DeleteBridgeRow? ||
    op.DropFromPorts? || op.DropFromBridges? || op.MutateMap?
  }

  predicate AllTakeAway(ops: seq<Op>) {
    forall n :: 0 <= n < |ops| ==> TakesAway(ops[n])
  }

  lemma WithinTrans(a: Db, b: Db, c: Db)
    requires Within(a, b) && Within(b, c)
    ensures Within(a, c)
  {
  }

  lemma WithinKeeps(a: Db, b: Db)
    requires Within(a, b)
    ensures HeldOnce(b) ==> HeldOnce(a)
    ensures OfportsDiffer(b) ==> OfportsDiffer(a)
    ensures Ids(a) <= Ids(b)
  {
  }

  lemma ExecTakesAway(db: Db, op: Op)
    requires TakesAway(op) && Exec(db, op).Some?
    ensures Within(Exec(db, op).value, db)
  {
    match op
    case MutateMap(column, id, delete, insert) => MutateTakesAway(db, column, id, delete, insert);
    case _ =>
  }

  lemma MutateTakesAway(db: Db, column: MapColumn, id: Uuid, delete: Strings, insert: Strings)
    ensures Within(MutateRow(db, column, id, delete, insert), db)
  {
    hide Mutated;
    match column
    case SwitchExternalIds =>
    case BridgeExternalIds =>
    case BridgeOtherConfig =>
    case PortExternalIds =>
    case InterfaceExternalIds =>
    case InterfaceOptions =>
  }

  lemma {:induction false} ExecAllTakesAway(db: Db, ops: seq<Op>)
    requires AllTakeAway(ops) && ExecAll(db, ops).Some?
    ensures Within(ExecAll(db, ops).value, db)
    decreases |ops|
  {
    if ops != [] {
      var next := Exec(db, ops[0]).value;
      ExecTakesAway(db, ops[0]);
      ExecAllTakesAway(next, ops[1..]);
      WithinTrans(ExecAll(next, ops[1..]).value, next, db);
    }
  }

  lemma CollectTakesAway(db: Db)
    ensures Within(Collect(db), db)
  {
  }

  // ---------------------------------------------------------------- operations that create

  /** The working copy after the port was created; attached only if the bridge is still there. */
  function WithNewPort(db: Db, cfg: PortConfig, bridge: Uuid, port: Uuid, interface: Uuid): Db {
    WithPorts(db.(interfaces := db.interfaces[interface := NewInterface(cfg)],
                  ports := db.ports[port := NewPort(cfg, interface)]),
              ById(bridge), {port}, {})
  }

  lemma ExecThree(db: Db, a: Op, b: Op, c: Op)
    requires Exec(db, a).Some? && Exec(Exec(db, a).value, b).Some?
    ensures ExecAll(db, [a, b, c]) == Exec(Exec(Exec(db, a).value, b).value, c)
  {
    var next := Exec(db, a).value;
    assert [a, b, c][1..] == [b, c];
    assert [b, c][1..] == [c];
    assert [c][1..] == [];
    assert ExecAll(next, [b, c]) == ExecAll(Exec(next, b).value, [c]);
    var last := Exec(next, b).value;
    assert ExecAll(last, [c]) == match Exec(last, c) case None => None case Some(d) => ExecAll(d, []);
  }

  /** The create transaction runs unless the requested OpenFlow port is taken. */
  lemma CreatePortRuns(db: Db, cfg: PortConfig, bridge: Uuid, port: Uuid, interface: Uuid)
    requires port !in db.ports && interface !in db.interfaces
    ensures ExecAll(db, CreatePortOps(cfg, bridge, port, interface)) ==
            if WaitOps(cfg) != []
               && (exists i :: i in db.interfaces && db.interfaces[i].ofportRequest == cfg.ofportRequest)
            then None else Some(WithNewPort(db, cfg, bridge, port, interface))
  {
    var ops := CreatePortOps(cfg, bridge, port, interface);
    var rest := [InsertInterface(interface, NewInterface(cfg)), InsertPort(port, NewPort(cfg, interface)),
                 AddToPorts(ById(bridge), {port})];
    ExecThree(db, rest[0], rest[1], rest[2]);
    if WaitOps(cfg) == [] {
      assert ops == rest;
    } else {
      assert ops[0] == WaitOps(cfg)[0] && ops[1..] == rest;
      WaitPassesIffFree(db, cfg.ofportRequest.value);
    }
  }

  /** The wait operation aborts the transaction exactly when some interface has the port. */
  lemma WaitPassesIffFree(db: Db, n: int)
    ensures Exec(db, WaitOfportFree(n)).Some? <==>
            forall i :: i in db.interfaces ==> db.interfaces[i].ofportRequest != Some(n)
  {
    if i :| i in db.interfaces && db.interfaces[i].ofportRequest == Some(n) {
      assert n in OfportsEqual(db, n);
    }
  }

  lemma NewPortHeldOnce(db: Db, cfg: PortConfig, bridge: Uuid, port: Uuid, interface: Uuid)
    requires HeldOnce(db) && ReferencesResolve(db) && port !in db.ports && interface !in db.interfaces
    ensures HeldOnce(WithNewPort(db, cfg, bridge, port, interface))
  {
    var work := WithNewPort(db, cfg, bridge, port, interface);
    OneMorePort(db, db.(interfaces := work.interfaces, ports := work.ports), bridge, port);
    NewInterfacesHeldOnce(db, port, NewPort(cfg, interface), interface);
  }

  /** Attaching a port that no bridge refers to yet. */
  lemma OneMorePort(db: Db, created: Db, bridge: Uuid, port: Uuid)
    requires PortsHeldOnce(db.bridges) && created.bridges == db.bridges
    requires forall b :: b in db.bridges ==> port !in db.bridges[b].ports
    ensures PortsHeldOnce(WithPorts(created, ById(bridge), {port}, {}).bridges)
  {
    var after := WithPorts(created, ById(bridge), {port}, {}).bridges;
    forall a, b, p | a in after && b in after && p in after[a].ports && p in after[b].ports ensures a == b {
      if p != port {
        assert p in db.bridges[a].ports && p in db.bridges[b].ports;
      }
    }
  }

  lemma NewInterfacesHeldOnce(db: Db, port: Uuid, row: Port, interface: Uuid)
    requires HeldOnce(db) && ReferencesResolve(db) && interface !in db.interfaces && row.interfaces == {interface}
    ensures InterfacesHeldOnce(db.ports[port := row])
  {
  }

  lemma NewPortOfports(db: Db, cfg: PortConfig, bridge: Uuid, port: Uuid, interface: Uuid)
    requires OfportsDiffer(db) && interface !in db.interfaces
    requires cfg.ofportRequest.Some? ==>
               forall i :: i in db.interfaces ==> db.interfaces[i].ofportRequest != cfg.ofportRequest
    ensures OfportsDiffer(WithNewPort(db, cfg, bridge, port, interface))
  {
  }

  lemma NewPortIds(db: Db, cfg: PortConfig, bridge: Uuid, port: Uuid, interface: Uuid)
    ensures Ids(WithNewPort(db, cfg, bridge, port, interface)) == Ids(db) + {port, interface}
  {
    assert WithNewPort(db, cfg, bridge, port, interface).bridges.Keys == db.bridges.Keys;
  }

  function WithNewBridge(db: Db, cfg: BridgeConfig, switch: Uuid, bridge: Uuid, port: Uuid, interface: Uuid): Db {
    var created := db.(bridges := db.bridges[bridge := NewBridge(cfg, port)]);
    var filled :=
      if cfg.skipCreateInternalPort then created
      else created.(ports := db.ports[port := Port(InternalName(cfg), {interface}, map[], None, None, {})],
                    interfaces := db.interfaces[interface :=
                      Interface(InternalName(cfg), INTERNAL, None, None, map[], map[])]);
    WithBridges(filled, switch, {bridge}, {})
  }

  lemma CreateBridgeRuns(db: Db, cfg: BridgeConfig, switch: Uuid, bridge: Uuid, port: Uuid, interface: Uuid)
    requires bridge !in db.bridges && port !in db.ports && interface !in db.interfaces
    ensures ExecAll(db, CreateBridgeOps(cfg, switch, bridge, port, interface)) ==
            Some(WithNewBridge(db, cfg, switch, bridge, port, interface))
  {
    var ops := CreateBridgeOps(cfg, switch, bridge, port, interface);
    var next := Exec(db, ops[0]).value;
    if cfg.skipCreateInternalPort {
      assert ops == [ops[0], AddToBridges(switch, {bridge})];
      assert ops[1..] == [ops[1]] && [ops[1]][1..] == [];
      assert ExecAll(next, [ops[1]]) == ExecAll(Exec(next, ops[1]).value, []);
    } else {
      assert ops[1..] == [ops[1], ops[2], ops[3]];
      ExecThree(next, ops[1], ops[2], ops[3]);
    }
  }

  lemma NewBridgeHeldOnce(db: Db, cfg: BridgeConfig, switch: Uuid, bridge: Uuid, port: Uuid, interface: Uuid)
    requires HeldOnce(db) && ReferencesResolve(db)
    requires bridge !in db.bridges && port !in db.ports && interface !in db.interfaces
    ensures HeldOnce(WithNewBridge(db, cfg, switch, bridge, port, interface))
  {
    NewBridgePorts(db, bridge, NewBridge(cfg, port), port);
    NewInterfacesHeldOnce(db, port, Port(InternalName(cfg), {interface}, map[], None, None, {}), interface);
  }

  lemma NewBridgePorts(db: Db, bridge: Uuid, row: Bridge, port: Uuid)
    requires HeldOnce(db) && ReferencesResolve(db) && port !in db.ports && row.ports <= {port}
    ensures PortsHeldOnce(db.bridges[bridge := row])
  {
  }

  lemma NewBridgeIds(db: Db, cfg: BridgeConfig, switch: Uuid, bridge: Uuid, port: Uuid, interface: Uuid)
    ensures Ids(WithNewBridge(db, cfg, switch, bridge, port, interface)) <= Ids(db) + {bridge, port, interface}
  {
  }

  lemma NewBridgeOfports(db: Db, cfg: BridgeConfig, switch: Uuid, bridge: Uuid, port: Uuid, interface: Uuid)
    requires OfportsDiffer(db) && interface !in db.interfaces
    ensures OfportsDiffer(WithNewBridge(db, cfg, switch, bridge, port, interface))
  {
  }

  // ---------------------------------------------------------------- transactions in general

  /** The transactions the clients send. */
  datatype Sent =
    | Removal(ops: seq<Op>)
    | PortCreation(cfg: PortConfig, bridge: Uuid, port: Uuid, interface: Uuid)
    | BridgeCreation(bridgeCfg: BridgeConfig, switch: Uuid, bridge: Uuid, port: Uuid, interface: Uuid)

  function OpsOf(sent: Sent): seq<Op> {
    match sent
    case Removal(ops) => ops
    case PortCreation(cfg, b, p, i) => CreatePortOps(cfg, b, p, i)
    case BridgeCreation(cfg, s, b, p, i) => CreateBridgeOps(cfg, s, b, p, i)
  }

  /** The new row ids a transaction brings along. */
  ghost function NewIds(sent: Sent): set<Uuid> {
    match sent
    case Removal(_) => {}
    case PortCreation(_, _, p, i) => {p, i}
    case BridgeCreation(_, _, b, p, i) => {b, p, i}
  }

  ghost predicate WellSent(sent: Sent) {
    sent.Removal? ==> AllTakeAway(sent.ops)
  }

  /** Every requested OpenFlow port is asked for with the wait operation. */
  predicate Guarded(cfg: PortConfig) {
    cfg.ofportRequest.Some? ==> cfg.waitForOfportFree
  }

  ghost predicate GuardedSent(sent: Sent) {
    sent.PortCreation? ==> Guarded(sent.cfg)
  }

  /** The working copy of a transaction that does not fail. */
  lemma WorkKeeps(db: Db, sent: Sent)
    requires Good(db) && WellSent(sent) && NewIds(sent) !! Ids(db) && ExecAll(db, OpsOf(sent)).Some?
    ensures HeldOnce(ExecAll(db, OpsOf(sent)).value)
    ensures Ids(ExecAll(db, OpsOf(sent)).value) <= Ids(db) + NewIds(sent)
    ensures OfportsDiffer(db) && GuardedSent(sent) ==> OfportsDiffer(ExecAll(db, OpsOf(sent)).value)
  {
    match sent
    case Removal(ops) =>
      ExecAllTakesAway(db, ops);
      WithinKeeps(ExecAll(db, ops).value, db);
    case PortCreation(cfg, b, p, i) =>
      CreatePortRuns(db, cfg, b, p, i);
      NewPortHeldOnce(db, cfg, b, p, i);
      NewPortIds(db, cfg, b, p, i);
      if OfportsDiffer(db) && Guarded(cfg) {
        NewPortOfports(db, cfg, b, p, i);
      }
    case BridgeCreation(cfg, s, b, p, i) =>
      CreateBridgeRuns(db, cfg, s, b, p, i);
      NewBridgeHeldOnce(db, cfg, s, b, p, i);
      NewBridgeIds(db, cfg, s, b, p, i);
      if OfportsDiffer(db) {
        NewBridgeOfports(db, cfg, s, b, p, i);
      }
  }

  /** Whatever a client sends, and however old the states it read, the database stays good. */
  lemma CommitKeepsGood(db: Db, sent: Sent)
    requires Good(db) && WellSent(sent) && NewIds(sent) !! Ids(db)
    ensures Good(Outcome(db, Send(OpsOf(sent))))
    ensures Ids(Outcome(db, Send(OpsOf(sent)))) <= Ids(db) + NewIds(sent)
    ensures OfportsDiffer(db) && GuardedSent(sent) ==> OfportsDiffer(Outcome(db, Send(OpsOf(sent))))
  {
    hide Consistent, NoGarbage, HeldOnce, OfportsDiffer, Collect, ExecAll, Ids, NewIds;
    var ops := OpsOf(sent);
    if Commit(db, ops).Ok? {
      var work := ExecAll(db, ops).value;
      WorkKeeps(db, sent);
      CommitIsClean(db, ops);
      CollectTakesAway(work);
      WithinKeeps(Collect(work), work);
    }
  }

  // ---------------------------------------------------------------- interleavings

  datatype Call =
    | AddPort(cfg: PortConfig)
    | DelPort(bridgeName: string, ref: PortRef, owner: string, interfaces: seq<Uuid>)
    | AddBridge(bridgeCfg: BridgeConfig)
    | DeleteBridge(name: string)
    | SetMap(column: MapColumn, id: Uuid, current: Strings, desired: Strings)

  /** The transaction a call ends up sending, if any, given what it read. An AddBridge that finds
      its bridge goes on as two SetMap calls. */
  function Prepared(r: Reads, call: Call, a: Uuid, b: Uuid, c: Uuid): Option<Sent>
    requires NamesUnique(r.first) && NamesUnique(r.second)
  {
    match call
    case AddPort(cfg) =>
      (match AddPortPlan(r, cfg, a, b)
       case Return(_) => None
       case Send(_) => Some(PortCreation(cfg, FindBridge(r.second, cfg.bridgeName).value, a, b)))
    case DelPort(bridgeName, ref, owner, interfaces) =>
      (match DelPortPlan(r, bridgeName, ref, owner, interfaces)
       case Return(_) => None
       case Send(ops) => Some(Removal(ops)))
    case AddBridge(cfg) =>
      if FindBridge(r.first, cfg.name).Some? then None
      else
        (match CreateBridgePlan(r, cfg, a, b, c)
         case Return(_) => None
         case Send(_) => Some(BridgeCreation(cfg, TheSwitch(r.second).value, a, b, c)))
    case DeleteBridge(name) =>
      (match DeleteBridgePlan(r, name)
       case Return(_) => None
       case Send(ops) => Some(Removal(ops)))
    case SetMap(column, id, current, desired) => Some(Removal(SetMapOps(column, id, current, desired)))
  }

  lemma PreparedIsWellSent(r: Reads, call: Call, a: Uuid, b: Uuid, c: Uuid)
    requires NamesUnique(r.first) && NamesUnique(r.second) && Prepared(r, call, a, b, c).Some?
    ensures WellSent(Prepared(r, call, a, b, c).value)
    ensures NewIds(Prepared(r, call, a, b, c).value) <= {a, b, c}
    ensures (call.AddPort? ==> Guarded(call.cfg)) ==> GuardedSent(Prepared(r, call, a, b, c).value)
  {
    if call.DelPort? {
      DeleteInterfacesTakeAway(call.interfaces);
    }
  }

  lemma {:induction false} DeleteInterfacesTakeAway(interfaces: seq<Uuid>)
    ensures AllTakeAway(DeleteInterfaceOps(interfaces))
  {
    if interfaces != [] {
      DeleteInterfacesTakeAway(interfaces[1..]);
    }
  }

  /** `history` holds every committed state, the current one last; `waiting` the transactions that
      clients have prepared and not yet sent; `used` every row id ever generated. */
  datatype System = System(history: seq<Db>, used: set<Uuid>, waiting: map<ClientId, Sent>)

  datatype Step =
    | Prepare(client: ClientId, call: Call, first: nat, second: nat, third: nat, a: Uuid, b: Uuid, c: Uuid)
    | Transact(client: ClientId)

  function Current(s: System): Db
    requires |s.history| > 0
  {
    s.history[|s.history| - 1]
  }

  function ReadsAt(s: System, first: nat, second: nat, third: nat): Reads
    requires first < |s.history| && second < |s.history| && third < |s.history|
  {
    Reads(s.history[first], s.history[second], s.history[third])
  }

  /** A call may read any state up to the current one, and generates ids nobody has used. */
  ghost predicate Enabled(s: System, step: Step) {
    && |s.history| > 0
    && match step
       case Prepare(client, call, first, second, third, a, b, c) =>
         && client !in s.waiting && first < |s.history| && second < |s.history| && third < |s.history|
         && NamesUnique(s.history[first]) && NamesUnique(s.history[second])
         && a !in s.used && b !in s.used && c !in s.used && a != b && b != c && a != c
       case Transact(client) => client in s.waiting
  }

  function Apply(s: System, step: Step): System
    requires Enabled(s, step)
  {
    match step
    case Prepare(client, call, first, second, third, a, b, c) =>
      Queued(s, client, Prepared(ReadsAt(s, first, second, third), call, a, b, c), {a, b, c})
    case Transact(client) => Advanced(s, client, Outcome(Current(s), Send(OpsOf(s.waiting[client]))))
  }

  function Queued(s: System, client: ClientId, sent: Option<Sent>, ids: set<Uuid>): System {
    s.(used := s.used + ids, waiting := if sent.Some? then s.waiting[client := sent.value] else s.waiting)
  }

  function Advanced(s: System, client: ClientId, db: Db): System {
    System(s.history + [db], s.used, s.waiting - {client})
  }

  /** `guarded` says that every AddPort call asks for its OpenFlow port with the wait operation. */
  ghost predicate Inv(s: System, guarded: bool) {
    HistoryOk(s.history, guarded) && QueueOk(s.waiting, s.used, Ids(Current(s)), guarded)
  }

  ghost predicate HistoryOk(history: seq<Db>, guarded: bool) {
    && |history| > 0
    && forall n :: 0 <= n < |history| ==> StateOk(history[n], guarded)
  }

  ghost predicate StateOk(db: Db, guarded: bool) {
    Good(db) && (guarded ==> OfportsDiffer(db))
  }

  /** The ids of waiting transactions are not in the database and not shared. */
  ghost predicate QueueOk(waiting: map<ClientId, Sent>, used: set<Uuid>, inUse: set<Uuid>, guarded: bool) {
    && inUse <= used
    && (forall c :: c in waiting ==> WaitingOk(waiting[c], used, inUse, guarded))
    && (forall c, d :: c in waiting && d in waiting && c != d ==> NewIds(waiting[c]) !! NewIds(waiting[d]))
  }

  ghost predicate WaitingOk(sent: Sent, used: set<Uuid>, inUse: set<Uuid>, guarded: bool) {
    && WellSent(sent) && NewIds(sent) <= used && NewIds(sent) !! inUse
    && (guarded ==> GuardedSent(sent))
  }

  ghost predicate GuardedStep(step: Step) {
    step.Prepare? && step.call.AddPort? ==> Guarded(step.call.cfg)
  }

  lemma QueueOneMore(waiting: map<ClientId, Sent>, used: set<Uuid>, inUse: set<Uuid>, guarded: bool,
                     client: ClientId, sent: Sent, spare: set<Uuid>)
    requires QueueOk(waiting, used, inUse, guarded) && client !in waiting && spare !! used
    requires WellSent(sent) && NewIds(sent) <= spare && (guarded ==> GuardedSent(sent))
    ensures QueueOk(waiting[client := sent], used + spare, inUse, guarded)
  {
    forall c | c in waiting ensures NewIds(waiting[c]) <= used {
      assert WaitingOk(waiting[c], used, inUse, guarded);
    }
  }

  lemma QueueOneLess(waiting: map<ClientId, Sent>, used: set<Uuid>, inUse: set<Uuid>, guarded: bool,
                     client: ClientId, now: set<Uuid>)
    requires QueueOk(waiting, used, inUse, guarded) && client in waiting && now <= inUse + NewIds(waiting[client])
    ensures QueueOk(waiting - {client}, used, now, guarded)
  {
    assert WaitingOk(waiting[client], used, inUse, guarded);
    forall c | c in waiting - {client} ensures WaitingOk(waiting[c], used, now, guarded) {
      assert WaitingOk(waiting[c], used, inUse, guarded);
    }
  }

  lemma QueuedKeepsInv(s: System, client: ClientId, sent: Option<Sent>, ids: set<Uuid>, guarded: bool)
    requires Inv(s, guarded) && client !in s.waiting && ids !! s.used
    requires sent.Some? ==> WellSent(sent.value) && NewIds(sent.value) <= ids && (guarded ==> GuardedSent(sent.value))
    ensures Inv(Queued(s, client, sent, ids), guarded)
  {
    hide Good, OfportsDiffer;
    var inUse := Ids(Current(s));
    if sent.Some? {
      QueueOneMore(s.waiting, s.used, inUse, guarded, client, sent.value, ids);
    } else {
      forall c | c in s.waiting ensures WaitingOk(s.waiting[c], s.used + ids, inUse, guarded) {
        assert WaitingOk(s.waiting[c], s.used, inUse, guarded);
      }
    }
  }

  lemma AdvancedKeepsInv(s: System, client: ClientId, db: Db, guarded: bool)
    requires Inv(s, guarded) && client in s.waiting && StateOk(db, guarded)
    requires Ids(db) <= Ids(Current(s)) + NewIds(s.waiting[client])
    ensures Inv(Advanced(s, client, db), guarded)
  {
    hide Good, OfportsDiffer;
    QueueOneLess(s.waiting, s.used, Ids(Current(s)), guarded, client, Ids(db));
    assert Current(Advanced(s, client, db)) == db;
  }

  lemma StepKeepsInv(s: System, step: Step, guarded: bool)
    requires Inv(s, guarded) && Enabled(s, step) && (guarded ==> GuardedStep(step))
    ensures Inv(Apply(s, step), guarded)
  {
    hide Good, OfportsDiffer, Outcome, Prepared;
    match step
    case Prepare(client, call, first, second, third, a, b, c) =>
      var r := ReadsAt(s, first, second, third);
      var sent := Prepared(r, call, a, b, c);
      if sent.Some? {
        PreparedIsWellSent(r, call, a, b, c);
      }
      QueuedKeepsInv(s, client, sent, {a, b, c}, guarded);
    case Transact(client) =>
      var db, sent := Current(s), s.waiting[client];
      assert StateOk(db, guarded) && WaitingOk(sent, s.used, Ids(db), guarded);
      CommitKeepsGood(db, sent);
      AdvancedKeepsInv(s, client, Outcome(db, Send(OpsOf(sent))), guarded);
  }

  ghost predicate Behavior(states: seq<System>, steps: seq<Step>) {
    && |states| == |steps| + 1 && |states[0].history| == 1 && states[0].waiting == map[]
    && Good(states[0].history[0]) && Ids(states[0].history[0]) <= states[0].used
    && forall n :: 0 <= n < |steps| ==> Enabled(states[n], steps[n]) && states[n + 1] == Apply(states[n], steps[n])
  }

  lemma {:induction false} InvAlways(states: seq<System>, steps: seq<Step>, n: nat, guarded: bool)
    requires Behavior(states, steps) && n < |states|
    requires guarded ==> OfportsDiffer(states[0].history[0]) && forall k :: 0 <= k < |steps| ==> GuardedStep(steps[k])
    ensures Inv(states[n], guarded)
  {
    hide Good, OfportsDiffer, Apply;
    if n > 0 {
      InvAlways(states, steps, n - 1, guarded);
      StepKeepsInv(states[n - 1], steps[n - 1], guarded);
    } else {
      assert StateOk(states[0].history[0], guarded);
    }
  }

  // ---------------------------------------------------------------- what every run guarantees

  /** However snapshot reads and transactions interleave, in every committed state names are unique,
      references resolve, nothing is orphaned, and no port is in two bridges. */
  lemma DatabaseStaysGood(states: seq<System>, steps: seq<Step>, n: nat)
    requires Behavior(states, steps) && n < |states|
    ensures |states[n].history| > 0 && Good(Current(states[n]))
  {
    InvAlways(states, steps, n, false);
    assert StateOk(Current(states[n]), false);
  }

  /** If every AddPort call that requests an OpenFlow port uses the wait operation, no two interfaces
      ever request the same one. */
  lemma OfportsNeverClash(states: seq<System>, steps: seq<Step>, n: nat)
    requires Behavior(states, steps) && n < |states|
    requires OfportsDiffer(states[0].history[0]) && forall k :: 0 <= k < |steps| ==> GuardedStep(steps[k])
    ensures |states[n].history| > 0 && OfportsDiffer(Current(states[n]))
  {
    InvAlways(states, steps, n, true);
    assert StateOk(Current(states[n]), true);
  }

  /** In a good database the client's membership question has the obvious meaning. */
  lemma InBridgeIffMember(db: Db, bridgeName: string, port: Uuid)
    requires Good(db)
    ensures IsPortInBridge(db, bridgeName, port) <==>
            exists b :: b in db.bridges && db.bridges[b].name == bridgeName && port in db.bridges[b].ports
  {
    if b :| b in db.bridges && port in db.bridges[b].ports {
      assert BridgesWith(db, port) == {b};
    } else {
      assert BridgesWith(db, port) == {};
    }
  }

  /** Every interface of a good database has a bridge, and GetBridgeNameByInterface names it; it
      fails exactly for interfaces that do not exist. */
  lemma BridgeNameOfInterface(db: Db, name: string)
    requires Good(db)
    ensures var r := GetBridgeNameByInterface(db, name);
            && (r.Err? <==> forall i :: i in db.interfaces ==> db.interfaces[i].name != name)
            && (r.Ok? ==> exists b, p, i ::
                  && b in db.bridges && p in db.bridges[b].ports && p in db.ports
                  && i in db.ports[p].interfaces && i in db.interfaces
                  && db.interfaces[i].name == name && r.value == db.bridges[b].name)
  {
    var found := FindInterface(db, name);
    if found.Some? {
      var p, b := HoldersOf(db, found.value);
      hide NamesUnique, ReferencesResolve, NoGarbage, HeldOnce;
      assert p in PortsWith(db, found.value) && b in BridgesWith(db, p);
    }
  }

  lemma HoldersOf(db: Db, i: Uuid) returns (p: Uuid, b: Uuid)
    requires Good(db) && i in db.interfaces
    ensures PortsWith(db, i) == {p} && BridgesWith(db, p) == {b}
  {
    assert PortHolds(db, i);
    p :| p in db.ports && i in db.ports[p].interfaces;
    assert BridgeHolds(db, p);
    b :| b in db.bridges && p in db.bridges[b].ports;
  }
}
