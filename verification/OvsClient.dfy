/** The OVS client: what each call reads, and the transaction it sends. */
module OvsClient {
  import opened Common
  import opened OvsDatabase

  datatype PortConfig = PortConfig(
    name: string, bridgeName: string, interfaceType: string, mtu: Option<int>, interfaceOptions: Strings,
    interfaceExternalIds: Strings, portExternalIds: Strings, ofportRequest: Option<int>,
    vlanMode: Option<string>, tag: Option<int>, trunks: set<int>, waitForOfportFree: bool)

  datatype BridgeConfig = BridgeConfig(
    name: string, datapathType: string, skipCreateInternalPort: bool, internalInterfaceName: Option<string>,
    failMode: Option<string>, externalIds: Strings, otherConfig: Strings)

  datatype PortRef = PortNamed(name: string) | PortWithId(id: Uuid)

  const MAX_MTU := 9216
  const MAX_INTERFACE_NAME := 15
  const INTERNAL := "internal"
  const OWNER := "owner"

  /** What a call does: return at once, or send one transaction. */
  datatype Plan = Return(result: Result<()>) | Send(ops: seq<Op>)

  /** The database as seen by the successive reads of one call. Each may be an older state. */
  datatype Reads = Reads(first: Db, second: Db, third: Db)

  // ---------------------------------------------------------------- reads

  function FindBridge(db: Db, name: string): (id: Option<Uuid>)
    requires NamesUnique(db)
    ensures id.Some? ==> id.value in db.bridges && db.bridges[id.value].name == name
    ensures id.None? ==> forall b :: b in db.bridges ==> db.bridges[b].name != name
  {
    if exists b :: b in db.bridges && db.bridges[b].name == name then
      var b :| b in db.bridges && db.bridges[b].name == name;
      Some(b)
    else None
  }

  function FindPort(db: Db, name: string): (id: Option<Uuid>)
    requires NamesUnique(db)
    ensures id.Some? ==> id.value in db.ports && db.ports[id.value].name == name
    ensures id.None? ==> forall p :: p in db.ports ==> db.ports[p].name != name
  {
    if exists p :: p in db.ports && db.ports[p].name == name then
      var p :| p in db.ports && db.ports[p].name == name;
      Some(p)
    else None
  }

  function FindInterface(db: Db, name: string): (id: Option<Uuid>)
    requires NamesUnique(db)
    ensures id.Some? ==> id.value in db.interfaces && db.interfaces[id.value].name == name
    ensures id.None? ==> forall i :: i in db.interfaces ==> db.interfaces[i].name != name
  {
    if exists i :: i in db.interfaces && db.interfaces[i].name == name then
      var i :| i in db.interfaces && db.interfaces[i].name == name;
      Some(i)
    else None
  }

  function LookupPort(db: Db, ref: PortRef): (id: Option<Uuid>)
    requires NamesUnique(db)
    ensures id.Some? ==> id.value in db.ports
  {
    match ref
    case PortNamed(name) => FindPort(db, name)
    case PortWithId(id) => if id in db.ports then Some(id) else None
  }

  /** The bridges whose ports include `port`, and the ports whose interfaces include `interface`. */
  function BridgesWith(db: Db, port: Uuid): set<Uuid> {
    set b | b in db.bridges && port in db.bridges[b].ports
  }

  function PortsWith(db: Db, interface: Uuid): set<Uuid> {
    set p | p in db.ports && interface in db.ports[p].interfaces
  }

  /** The only element of a set that has exactly one. */
  function Only(s: set<Uuid>): (x: Option<Uuid>)
    ensures x.Some? <==> |s| == 1
    ensures x.Some? ==> s == {x.value}
  {
    if |s| == 1 then
      OneElement(s);
      var x :| s == {x};
      Some(x)
    else None
  }

  lemma OneElement(s: set<Uuid>)
    requires |s| == 1
    ensures exists x :: s == {x}
  {
    var x :| x in s;
    assert |s - {x}| == 0;
    assert s == {x};
  }

  predicate IsPortInBridge(db: Db, bridgeName: string, port: Uuid) {
    match Only(BridgesWith(db, port))
    case None => false
    case Some(b) => assert b in BridgesWith(db, port); db.bridges[b].name == bridgeName
  }

  function GetBridgeNameByInterface(db: Db, name: string): Result<string>
    requires NamesUnique(db)
  {
    match FindInterface(db, name)
    case None => Err("failed to find interface")
    case Some(i) =>
      match Only(PortsWith(db, i))
      case None => Err("expected 1 port")
      case Some(p) =>
        match Only(BridgesWith(db, p))
        case None => Err("expected 1 bridge")
        case Some(b) => assert b in BridgesWith(db, p); Ok(db.bridges[b].name)
  }

  // ---------------------------------------------------------------- map columns

  function ToDelete(current: Strings, desired: Strings): Strings {
    map k | k in desired && k in current && current[k] != desired[k] :: current[k]
  }

  function ToInsert(current: Strings, desired: Strings): Strings {
    map k | k in desired && !(k in current && current[k] == desired[k]) :: desired[k]
  }

  function SetMapOps(column: MapColumn, id: Uuid, current: Strings, desired: Strings): seq<Op> {
    if ToInsert(current, desired) == map[] then []
    else [MutateMap(column, id, ToDelete(current, desired), ToInsert(current, desired))]
  }

  /** Nothing is sent when nothing has to change. */
  function SetMapPlan(column: MapColumn, id: Uuid, current: Strings, desired: Strings): Plan {
    var ops := SetMapOps(column, id, current, desired);
    if ops == [] then Return(Ok(())) else Send(ops)
  }

  /** Setting a map column of a bridge by name: the row is read first, if there is anything to set. */
  function SetBridgePlan(db: Db, name: string, column: MapColumn, desired: Strings): Plan
    requires NamesUnique(db) && (column.BridgeExternalIds? || column.BridgeOtherConfig?)
  {
    if desired == map[] then Return(Ok(()))
    else
      match FindBridge(db, name)
      case None => Return(Err("failed to get bridge"))
      case Some(b) => SetMapPlan(column, b, Column(db, column, b), desired)
  }

  /** Splits the desired pairs into those to delete first and those to insert. */
  method MutateMapField(column: MapColumn, id: Uuid, current: Strings, desired: Strings) returns (ops: seq<Op>)
    ensures ops == SetMapOps(column, id, current, desired)
    ensures desired == map[] ==> ops == []
  {
    if |desired| == 0 {
      assert ToInsert(current, desired) == map[];
      return [];
    }
    var toDelete, toInsert: Strings := map[], map[];
    var todo := desired.Keys;
    while todo != {}
      invariant todo <= desired.Keys
      invariant toDelete == ToDelete(current, map k | k in desired && k !in todo :: desired[k])
      invariant toInsert == ToInsert(current, map k | k in desired && k !in todo :: desired[k])
      decreases todo
    {
      var k :| k in todo;
      todo := todo - {k};
      var wanted := desired[k];
      if k !in current {
        toInsert := toInsert[k := wanted];
      } else {
        var present := current[k];
        if present != wanted {
          toInsert, toDelete := toInsert[k := wanted], toDelete[k := present];
        }
      }
    }
    assert (map k | k in desired && k !in todo :: desired[k]) == desired;
    if |toInsert| == 0 {
      return [];
    }
    return [MutateMap(column, id, toDelete, toInsert)];
  }

  // ---------------------------------------------------------------- plans

  function NewInterface(cfg: PortConfig): Interface {
    Interface(cfg.name, cfg.interfaceType, if cfg.mtu.Some? then cfg.mtu else Some(MAX_MTU), cfg.ofportRequest,
              cfg.interfaceOptions, cfg.interfaceExternalIds)
  }

  function NewPort(cfg: PortConfig, interface: Uuid): Port {
    Port(cfg.name, {interface}, cfg.portExternalIds, cfg.vlanMode, cfg.tag, cfg.trunks)
  }

  function WaitOps(cfg: PortConfig): seq<Op> {
    if cfg.waitForOfportFree && cfg.ofportRequest.Some? then [WaitOfportFree(cfg.ofportRequest.value)] else []
  }

  function CreatePortOps(cfg: PortConfig, bridge: Uuid, port: Uuid, interface: Uuid): seq<Op> {
    WaitOps(cfg) + [InsertInterface(interface, NewInterface(cfg)), InsertPort(port, NewPort(cfg, interface)),
                    AddToPorts(ById(bridge), {port})]
  }

  /** Reads the port; then, if it is there, the port again and the bridges, or else the bridge. */
  function AddPortPlan(r: Reads, cfg: PortConfig, port: Uuid, interface: Uuid): Plan
    requires NamesUnique(r.first) && NamesUnique(r.second)
  {
    if FindPort(r.first, cfg.name).Some? then
      match FindPort(r.second, cfg.name)
      case None => Return(Err("failed to check if port is in bridge"))
      case Some(p) =>
        if IsPortInBridge(r.third, cfg.bridgeName, p) then Return(Ok(()))
        else Return(Err("port already exists on a bridge other than the requested one"))
    else
      match FindBridge(r.second, cfg.bridgeName)
      case None => Return(Err("failed to get bridge"))
      case Some(b) => Send(CreatePortOps(cfg, b, port, interface))
  }

  function DeleteInterfaceOps(interfaces: seq<Uuid>): seq<Op> {
    if interfaces == [] then [] else [DeleteInterface(interfaces[0])] + DeleteInterfaceOps(interfaces[1..])
  }

  function DeletePortOps(interfaces: seq<Uuid>, port: Uuid, bridgeName: string): seq<Op> {
    DeleteInterfaceOps(interfaces) + [DeletePort(port), DropFromPorts(ByName(bridgeName), {port})]
  }

  function OwnerOf(p: Port): string {
    if OWNER in p.externalIds then p.externalIds[OWNER] else ""
  }

  /** Reads the port, then the bridges. `interfaces` lists the interfaces of that port. */
  function DelPortPlan(r: Reads, bridgeName: string, ref: PortRef, owner: string, interfaces: seq<Uuid>): Plan
    requires NamesUnique(r.first)
  {
    if ref == PortNamed("") then Return(Err("port name or UUID must be provided"))
    else
      match LookupPort(r.first, ref)
      case None => Return(Ok(()))
      case Some(p) =>
        if owner != "" && OwnerOf(r.first.ports[p]) != owner then Return(Err("port owner does not match"))
        else if !IsPortInBridge(r.second, bridgeName, p) then Return(Ok(()))
        else Send(DeletePortOps(interfaces, p, bridgeName))
  }

  /** The interfaces that delPort will delete, in any order. */
  ghost predicate ListsInterfaces(r: Reads, ref: PortRef, interfaces: seq<Uuid>)
    requires NamesUnique(r.first)
  {
    var p := LookupPort(r.first, ref);
    p.Some? ==> forall i :: i in interfaces <==> i in r.first.ports[p.value].interfaces
  }

  /** The one Open_vSwitch row. */
  function TheSwitch(db: Db): Option<Uuid> {
    Only(db.switches.Keys)
  }

  function InternalName(cfg: BridgeConfig): string {
    if cfg.internalInterfaceName.Some? && cfg.internalInterfaceName.value != "" then cfg.internalInterfaceName.value
    else cfg.name
  }

  function NewBridge(cfg: BridgeConfig, port: Uuid): Bridge {
    Bridge(cfg.name, if cfg.skipCreateInternalPort then {} else {port}, cfg.datapathType, cfg.failMode,
           cfg.externalIds, cfg.otherConfig)
  }

  function CreateBridgeOps(cfg: BridgeConfig, switch: Uuid, bridge: Uuid, port: Uuid, interface: Uuid): seq<Op> {
    [InsertBridge(bridge, NewBridge(cfg, port))] +
    (if cfg.skipCreateInternalPort then []
     else [InsertPort(port, Port(InternalName(cfg), {interface}, map[], None, None, {})),
           InsertInterface(interface, Interface(InternalName(cfg), INTERNAL, None, None, map[], map[]))]) +
    [AddToBridges(switch, {bridge})]
  }

  /** Reads the bridge, then the Open_vSwitch row. A bridge that exists is updated instead. */
  function CreateBridgePlan(r: Reads, cfg: BridgeConfig, bridge: Uuid, port: Uuid, interface: Uuid): Plan {
    if !cfg.skipCreateInternalPort && |InternalName(cfg)| > MAX_INTERFACE_NAME then
      Return(Err("internal interface name exceeds maximum length"))
    else
      match TheSwitch(r.second)
      case None => Return(Err("failed to get Open_vSwitch row"))
      case Some(s) => Send(CreateBridgeOps(cfg, s, bridge, port, interface))
  }

  /** Reads the bridge, then the Open_vSwitch row. */
  function DeleteBridgePlan(r: Reads, name: string): Plan
    requires NamesUnique(r.first)
  {
    match FindBridge(r.first, name)
    case None => Return(Ok(()))
    case Some(b) =>
      match TheSwitch(r.second)
      case None => Return(Err("failed to get Open_vSwitch row"))
      case Some(s) => Send([DropFromBridges(s, {b}), DeleteBridgeRow(b)])
  }

  /** What a plan leaves in the database when it runs on `db`. */
  function Outcome(db: Db, plan: Plan): Db {
    match plan
    case Return(_) => db
    case Send(ops) => if Commit(db, ops).Ok? then Commit(db, ops).value else db
  }

  function ResultOf(db: Db, plan: Plan): Result<()> {
    match plan
    case Return(result) => result
    case Send(ops) => if Commit(db, ops).Ok? then Ok(()) else Err(Commit(db, ops).error)
  }
}
