/** The four Open_vSwitch tables that bridges, ports and interfaces live in, and transactions over
    them as RFC 7047 defines: sections 3.2 (strong references, garbage collection of rows that are
    not roots), 4.1.3 (all or nothing), 5.1 (mutations) and 5.2 (operations). */
module OvsDatabase {
  import opened Common

  type Uuid = nat
  type Strings = map<string, string>

  datatype Switch = Switch(bridges: set<Uuid>, externalIds: Strings)
  datatype Bridge = Bridge(name: string, ports: set<Uuid>, datapathType: string, failMode: Option<string>,
                           externalIds: Strings, otherConfig: Strings)
  datatype Port = Port(name: string, interfaces: set<Uuid>, externalIds: Strings,
                       vlanMode: Option<string>, tag: Option<int>, trunks: set<int>)
  datatype Interface = Interface(name: string, kind: string, mtuRequest: Option<int>, ofportRequest: Option<int>,
                                 options: Strings, externalIds: Strings)

  datatype Db = Db(switches: map<Uuid, Switch>, bridges: map<Uuid, Bridge>,
                   ports: map<Uuid, Port>, interfaces: map<Uuid, Interface>)

  // ---------------------------------------------------------------- operations

  datatype Where = ById(id: Uuid) | ByName(name: string)

  /** A column that holds a string map. */
  datatype MapColumn =
    | SwitchExternalIds | BridgeExternalIds | BridgeOtherConfig
    | PortExternalIds | InterfaceExternalIds | InterfaceOptions

  datatype Op =
    | WaitOfportFree(n: int)
    | InsertInterface(id: Uuid, interface: Interface)
    | InsertPort(id: Uuid, port: Port)
    | InsertBridge(id: Uuid, bridge: Bridge)
    | DeleteInterface(id: Uuid)
    | DeletePort(id: Uuid)
    | DeleteBridgeRow(id: Uuid)
    | AddToPorts(where: Where, refs: set<Uuid>)
    | DropFromPorts(where: Where, refs: set<Uuid>)
    | AddToBridges(id: Uuid, refs: set<Uuid>)
    | DropFromBridges(id: Uuid, refs: set<Uuid>)
    | MutateMap(column: MapColumn, id: Uuid, delete: Strings, insert: Strings)

  predicate Selects(where: Where, id: Uuid, b: Bridge) {
    match where
    case ById(wanted) => id == wanted
    case ByName(name) => b.name == name
  }

  function WithPorts(db: Db, where: Where, add: set<Uuid>, drop: set<Uuid>): Db {
    db.(bridges := map id | id in db.bridges ::
          var b := db.bridges[id];
          if Selects(where, id, b) then b.(ports := b.ports + add - drop) else b)
  }

  function WithBridges(db: Db, switch: Uuid, add: set<Uuid>, drop: set<Uuid>): Db {
    if switch !in db.switches then db
    else
      var row := db.switches[switch];
      db.(switches := db.switches[switch := row.(bridges := row.bridges + add - drop)])
  }

  /** Deleting pairs from a map column removes those that are there with that very value; inserting
      leaves keys that are already there alone. */
  function Mutated(column: Strings, delete: Strings, insert: Strings): Strings {
    insert + (map k | k in column && !(k in delete && delete[k] == column[k]) :: column[k])
  }

  predicate HasRow(db: Db, column: MapColumn, id: Uuid) {
    match column
    case SwitchExternalIds => id in db.switches
    case BridgeExternalIds => id in db.bridges
    case BridgeOtherConfig => id in db.bridges
    case PortExternalIds => id in db.ports
    case InterfaceExternalIds => id in db.interfaces
    case InterfaceOptions => id in db.interfaces
  }

  function Column(db: Db, column: MapColumn, id: Uuid): Strings
    requires HasRow(db, column, id)
  {
    match column
    case SwitchExternalIds => db.switches[id].externalIds
    case BridgeExternalIds => db.bridges[id].externalIds
    case BridgeOtherConfig => db.bridges[id].otherConfig
    case PortExternalIds => db.ports[id].externalIds
    case InterfaceExternalIds => db.interfaces[id].externalIds
    case InterfaceOptions => db.interfaces[id].options
  }

  function WithColumn(db: Db, column: MapColumn, id: Uuid, value: Strings): Db
    requires HasRow(db, column, id)
  {
    match column
    case SwitchExternalIds => db.(switches := db.switches[id := db.switches[id].(externalIds := value)])
    case BridgeExternalIds => db.(bridges := db.bridges[id := db.bridges[id].(externalIds := value)])
    case BridgeOtherConfig => db.(bridges := db.bridges[id := db.bridges[id].(otherConfig := value)])
    case PortExternalIds => db.(ports := db.ports[id := db.ports[id].(externalIds := value)])
    case InterfaceExternalIds => db.(interfaces := db.interfaces[id := db.interfaces[id].(externalIds := value)])
    case InterfaceOptions => db.(interfaces := db.interfaces[id := db.interfaces[id].(options := value)])
  }

  function MutateRow(db: Db, column: MapColumn, id: Uuid, delete: Strings, insert: Strings): Db {
    if HasRow(db, column, id) then WithColumn(db, column, id, Mutated(Column(db, column, id), delete, insert)) else db
  }

  /** The result set of selecting column ofport_request where it equals `n`. */
  function OfportsEqual(db: Db, n: int): set<int> {
    set i | i in db.interfaces && db.interfaces[i].ofportRequest == Some(n) :: n
  }

  /** One operation on the working copy, or None if it fails. Operations on rows that do not exist
      succeed and change nothing. The wait runs until the result set differs from the one row, with
      no time to wait. */
  function Exec(db: Db, op: Op): Option<Db> {
    match op
    case WaitOfportFree(n) => if OfportsEqual(db, n) != {n} then Some(db) else None
    case InsertInterface(id, row) =>
      if id in db.interfaces then None else Some(db.(interfaces := db.interfaces[id := row]))
    case InsertPort(id, row) =>
      if id in db.ports || row.interfaces == {} then None else Some(db.(ports := db.ports[id := row]))
    case InsertBridge(id, row) =>
      if id in db.bridges then None else Some(db.(bridges := db.bridges[id := row]))
    case DeleteInterface(id) => Some(db.(interfaces := db.interfaces - {id}))
    case DeletePort(id) => Some(db.(ports := db.ports - {id}))
    case DeleteBridgeRow(id) => Some(db.(bridges := db.bridges - {id}))
    case AddToPorts(where, refs) => Some(WithPorts(db, where, refs, {}))
    case DropFromPorts(where, refs) => Some(WithPorts(db, where, {}, refs))
    case AddToBridges(id, refs) => Some(WithBridges(db, id, refs, {}))
    case DropFromBridges(id, refs) => Some(WithBridges(db, id, {}, refs))
    case MutateMap(column, id, delete, insert) => Some(MutateRow(db, column, id, delete, insert))
  }

  function ExecAll(db: Db, ops: seq<Op>): Option<Db>
    decreases |ops|
  {
    if ops == [] then Some(db)
    else
      match Exec(db, ops[0])
      case None => None
      case Some(next) => ExecAll(next, ops[1..])
  }

  // ---------------------------------------------------------------- commit

  predicate SwitchHolds(db: Db, id: Uuid) {
    exists s :: s in db.switches && id in db.switches[s].bridges
  }

  predicate BridgeHolds(db: Db, id: Uuid) {
    exists b :: b in db.bridges && id in db.bridges[b].ports
  }

  predicate PortHolds(db: Db, id: Uuid) {
    exists p :: p in db.ports && id in db.ports[p].interfaces
  }

  function CollectBridges(db: Db): Db {
    db.(bridges := map id | id in db.bridges && SwitchHolds(db, id) :: db.bridges[id])
  }

  function CollectPorts(db: Db): Db {
    db.(ports := map id | id in db.ports && BridgeHolds(db, id) :: db.ports[id])
  }

  function CollectInterfaces(db: Db): Db {
    db.(interfaces := map id | id in db.interfaces && PortHolds(db, id) :: db.interfaces[id])
  }

  /** Bridges, ports and interfaces are not roots: they go when nothing refers to them any more. */
  function Collect(db: Db): Db {
    CollectInterfaces(CollectPorts(CollectBridges(db)))
  }

  predicate ReferencesResolve(db: Db) {
    && (forall s, b :: s in db.switches && b in db.switches[s].bridges ==> b in db.bridges)
    && (forall b, p :: b in db.bridges && p in db.bridges[b].ports ==> p in db.ports)
    && (forall p, i :: p in db.ports && i in db.ports[p].interfaces ==> i in db.interfaces)
  }

  predicate NamesUnique(db: Db) {
    && (forall a, b :: a in db.bridges && b in db.bridges && db.bridges[a].name == db.bridges[b].name ==> a == b)
    && (forall a, b :: a in db.ports && b in db.ports && db.ports[a].name == db.ports[b].name ==> a == b)
    && (forall a, b :: a in db.interfaces && b in db.interfaces && db.interfaces[a].name == db.interfaces[b].name ==>
          a == b)
  }

  predicate Consistent(db: Db) {
    ReferencesResolve(db) && NamesUnique(db)
  }

  /** Garbage is collected first; then references and indexes are checked. */
  function Commit(db: Db, ops: seq<Op>): Result<Db> {
    match ExecAll(db, ops)
    case None => Err("an operation failed")
    case Some(work) => if Consistent(Collect(work)) then Ok(Collect(work)) else Err("a constraint failed")
  }

  /** Nothing in the database is waiting to be collected. */
  predicate NoGarbage(db: Db) {
    && (forall b :: b in db.bridges ==> SwitchHolds(db, b))
    && (forall p :: p in db.ports ==> BridgeHolds(db, p))
    && (forall i :: i in db.interfaces ==> PortHolds(db, i))
  }

  lemma CollectLeavesNoGarbage(db: Db)
    ensures NoGarbage(Collect(db))
  {
    var a := CollectBridges(db);
    var b := CollectPorts(a);
    var c := CollectInterfaces(b);
    forall x | x in c.bridges ensures SwitchHolds(c, x) {
      var s :| s in db.switches && x in db.switches[s].bridges;
      assert s in c.switches && x in c.switches[s].bridges;
    }
    forall x | x in c.ports ensures BridgeHolds(c, x) {
      var y :| y in a.bridges && x in a.bridges[y].ports;
      assert y in c.bridges && x in c.bridges[y].ports;
    }
    forall x | x in c.interfaces ensures PortHolds(c, x) {
      var y :| y in b.ports && x in b.ports[y].interfaces;
      assert y in c.ports && x in c.ports[y].interfaces;
    }
  }

  lemma CollectKeepsClean(db: Db)
    requires NoGarbage(db)
    ensures Collect(db) == db
  {
    assert CollectBridges(db) == db;
    assert CollectPorts(db) == db;
    assert CollectInterfaces(db) == db;
  }

  /** A committed database is consistent and free of garbage, whatever the operations were. */
  lemma CommitIsClean(db: Db, ops: seq<Op>)
    requires Commit(db, ops).Ok?
    ensures Consistent(Commit(db, ops).value) && NoGarbage(Commit(db, ops).value)
  {
    CollectLeavesNoGarbage(ExecAll(db, ops).value);
  }
}
