/** Machines of all users: the five tables that point at each other, and what each request does to them. */
module PlacementModel {
  import opened Tables

  datatype Location = INVENTORY | RACK | WAREHOUSE

  const ALLOWED_TRANSITIONS := [
    (INVENTORY, RACK), (RACK, INVENTORY), (INVENTORY, WAREHOUSE), (RACK, WAREHOUSE), (WAREHOUSE, INVENTORY),
      (WAREHOUSE, RACK)]

  predicate ValidTransition(from: Location, to: Location) {
    from == to || (from, to) in ALLOWED_TRANSITIONS
  }

  /** The part of a machine that travels with it from table to table. */
  datatype Spec = Spec(level: int, hashRate: real, slotSize: int)

  datatype Item = Item(user: nat, spec: Spec, owned: Option<nat>)
  datatype Machine = Machine(user: nat, slot: int, spec: Spec, owned: Option<nat>)
  datatype OwnedRow = OwnedRow(user: nat, location: Location, spec: Spec)
  datatype Room = Room(user: nat, number: nat, pricePaid: real)
  datatype Rack = Rack(user: nat, room: nat, position: nat, host: Option<nat>, blockedBy: Option<nat>)

  /** `prices[n]` is None where the configured price does not parse as a number. */
  datatype Config = Config(racksPerRoom: nat, roomMax: nat, prices: seq<Option<real>>)

  datatype Store = Store(
    cfg: Config,
    inventory: Table<Item>,
    machines: Table<Machine>,
    vault: Table<Item>,
    owned: Table<OwnedRow>,
    rooms: Table<Room>,
    racks: Table<Rack>,
    balance: map<nat, real>)

  datatype Reply =
    | Done
    | InvalidSlot | NotFound | OddSlot
    | MaxRooms | InvalidPrice | UserNotFound | InsufficientBalance
    | RackOccupied | NoSpace | AdjacentRackOccupied | RackEmpty

  const GRID_SLOTS := 80
  const RACK_BASE := 1000

  // ---- Slots ----

  function OrOne(slotSize: int): int {
    if slotSize == 0 then 1 else slotSize
  }

  function RackSlotIndex(cfg: Config, roomNumber: int, position: int): int {
    RACK_BASE + (roomNumber - 1) * cfg.racksPerRoom + position
  }

  /** Machines of `user`, other than `except`, that start on one of the `size` slots from `slot`. */
  function StartingIn(ms: map<nat, Machine>, user: nat, slot: int, size: int, except: Option<nat>): set<nat> {
    set m | m in ms && ms[m].user == user && slot <= ms[m].slot < slot + size && except != Some(m)
  }

  /** The order in which the database returns rows is not specified: any enumeration will do. */
  ghost predicate Enumerates(order: seq<nat>, ids: set<nat>) {
    && (forall i, j | 0 <= i < j < |order| :: order[i] != order[j])
    && (forall m :: m in order <==> m in ids)
  }

  // ---- Row-level effects shared by the requests ----

  function ReleaseRack(r: Rack, machine: nat): Rack {
    r.(host := if r.host == Some(machine) then None else r.host,
       blockedBy := if r.blockedBy == Some(machine) then None else r.blockedBy)
  }

  function Release(racks: Table<Rack>, machine: nat): Table<Rack> {
    Table(map r | r in racks.rows :: ReleaseRack(racks.rows[r], machine), racks.next)
  }

  /** The owned row a machine ends up with when it is moved to `location`: its own, or a new one. */
  function Rehome(owned: Table<OwnedRow>, user: nat, link: Option<nat>, location: Location, spec: Spec)
    : (Table<OwnedRow>, nat)
  {
    match link
    case None => (owned.Insert(OwnedRow(user, location, spec)), owned.next)
    case Some(o) =>
      var owner := if o in owned.rows then owned.rows[o].user else user;
      (owned.Update(o, OwnedRow(owner, location, spec)), o)
  }

  /** A new inventory row with a new owned row. */
  function GrantOne(s: Store, user: nat, spec: Spec): Store {
    s.(owned := s.owned.Insert(OwnedRow(user, INVENTORY, spec)),
       inventory := s.inventory.Insert(Item(user, spec, Some(s.owned.next))))
  }

  function GrantMany(s: Store, user: nat, spec: Spec, quantity: nat): Store {
    if quantity == 0 then s else GrantOne(GrantMany(s, user, spec, quantity - 1), user, spec)
  }

  /** Eviction sends a machine to the inventory under a new owned row; the old owned row stays behind. */
  function Evict(s: Store, machine: nat): (t: Store)
    ensures s.inventory.rows.Keys <= t.inventory.rows.Keys && t.vault == s.vault
  {
    if machine !in s.machines.rows then s
    else
      var m := s.machines.rows[machine];
      var t := GrantOne(s.(racks := Release(s.racks, machine)), m.user, m.spec);
      t.(machines := t.machines.Delete(machine))
  }

  function EvictAll(s: Store, order: seq<nat>): (t: Store)
    ensures s.inventory.rows.Keys <= t.inventory.rows.Keys && t.vault == s.vault
  {
    if order == [] then s
    else Evict(EvictAll(s, order[..|order| - 1]), order[|order| - 1])
  }

  /** Two-slot machines of `user` that start on the slot before the odd slot `slot`. */
  function PreviousDoubles(ms: map<nat, Machine>, user: nat, slot: int, except: Option<nat>): set<nat> {
    if slot % 2 == 1
    then set m | m in StartingIn(ms, user, slot - 1, 1, except) && ms[m].spec.slotSize == 2
    else {}
  }

  /** What is evicted for a machine of `size` slots put at `slot`: overlaps first, then the previous double. */
  function MakeRoom(s: Store, order: seq<nat>, previous: seq<nat>): Store {
    EvictAll(EvictAll(s, order), previous)
  }

  /** Takes an inventory row and makes it an installed machine at `slot`; the new machine's id is `s.machines.next`. */
  function ItemToMachine(s: Store, item: nat, slot: int, spec: Spec): Store
    requires item in s.inventory.rows
  {
    var row := s.inventory.rows[item];
    var (owned, o) := Rehome(s.owned, row.user, row.owned, RACK, row.spec);
    s.(owned := owned,
       machines := s.machines.Insert(Machine(row.user, slot, spec, Some(o))),
       inventory := s.inventory.Delete(item))
  }

  function VaultToMachine(s: Store, item: nat, slot: int, spec: Spec): Store
    requires item in s.vault.rows
  {
    var row := s.vault.rows[item];
    var (owned, o) := Rehome(s.owned, row.user, row.owned, RACK, row.spec);
    s.(owned := owned,
       machines := s.machines.Insert(Machine(row.user, slot, spec, Some(o))),
       vault := s.vault.Delete(item))
  }

  function MachineToInventory(s: Store, machine: nat): Store
    requires machine in s.machines.rows
  {
    var m := s.machines.rows[machine];
    var (owned, o) := Rehome(s.owned, m.user, m.owned, INVENTORY, m.spec);
    s.(racks := Release(s.racks, machine),
       owned := owned,
       inventory := s.inventory.Insert(Item(m.user, m.spec, Some(o))),
       machines := s.machines.Delete(machine))
  }

  function MachineToVault(s: Store, machine: nat): Store
    requires machine in s.machines.rows
  {
    var m := s.machines.rows[machine];
    var (owned, o) := Rehome(s.owned, m.user, m.owned, WAREHOUSE, m.spec);
    s.(racks := Release(s.racks, machine),
       owned := owned,
       vault := s.vault.Insert(Item(m.user, m.spec, Some(o))),
       machines := s.machines.Delete(machine))
  }

  function ItemToVault(s: Store, item: nat): Store
    requires item in s.inventory.rows
  {
    var row := s.inventory.rows[item];
    var (owned, o) := Rehome(s.owned, row.user, row.owned, WAREHOUSE, row.spec);
    s.(owned := owned,
       vault := s.vault.Insert(Item(row.user, row.spec, Some(o))),
       inventory := s.inventory.Delete(item))
  }

  function VaultToItem(s: Store, item: nat): Store
    requires item in s.vault.rows
  {
    var row := s.vault.rows[item];
    var (owned, o) := Rehome(s.owned, row.user, row.owned, INVENTORY, row.spec);
    s.(owned := owned,
       inventory := s.inventory.Insert(Item(row.user, row.spec, Some(o))),
       vault := s.vault.Delete(item))
  }

  // ---- Requests ----

  /** `order` and `previous` are the rows the two overlap queries return, in the order returned. */
  datatype Op =
    | Grant(user: nat, spec: Spec, quantity: nat)
    | Discard(user: nat, item: nat)
    | Install(user: nat, slot: int, item: nat, order: seq<nat>, previous: seq<nat>)
    | Move(user: nat, machine: nat, slot: int, order: seq<nat>, previous: seq<nat>)
    | Remove(user: nat, machine: nat)
    | BuyRoom(user: nat)
    | RoomInstall(user: nat, rack: nat, item: nat)
    | RoomUninstall(user: nat, rack: nat)
    | StoreItem(user: nat, item: nat)
    | StoreMachine(user: nat, machine: nat)
    | RetrieveItem(user: nat, item: nat)
    | RetrieveToRack(user: nat, item: nat, slot: int, order: seq<nat>)

  predicate Owns(rows: map<nat, Item>, user: nat, item: nat) {
    item in rows && rows[item].user == user
  }

  predicate OwnsMachine(ms: map<nat, Machine>, user: nat, machine: nat) {
    machine in ms && ms[machine].user == user
  }

  predicate OnGrid(slot: int) {
    0 <= slot < GRID_SLOTS
  }

  /** A machine bought in an event takes one slot or two; any other catalogue value counts as one. */
  function ClampSpec(spec: Spec): Spec {
    if 1 <= spec.slotSize <= 2 then spec else spec.(slotSize := 1)
  }

  function InstallReply(s: Store, user: nat, slot: int, item: nat): Reply {
    if !OnGrid(slot) then InvalidSlot
    else if !Owns(s.inventory.rows, user, item) then NotFound
    else if OrOne(s.inventory.rows[item].spec.slotSize) == 2 && slot % 2 != 0 then OddSlot
    else Done
  }

  function MoveReply(s: Store, user: nat, machine: nat, slot: int): Reply {
    if !OnGrid(slot) then InvalidSlot
    else if !OwnsMachine(s.machines.rows, user, machine) then NotFound
    else if s.machines.rows[machine].spec.slotSize == 2 && slot % 2 != 0 then OddSlot
    else Done
  }

  function RetrieveToRackReply(s: Store, user: nat, item: nat, slot: int): Reply {
    if !Owns(s.vault.rows, user, item) then NotFound
    else if !OnGrid(slot) then InvalidSlot
    else if OrOne(s.vault.rows[item].spec.slotSize) == 2 && slot % 2 != 0 then OddSlot
    else Done
  }

  function UserRooms(rooms: map<nat, Room>, user: nat): set<nat> {
    set r | r in rooms && rooms[r].user == user
  }

  function RoomPrice(cfg: Config, number: nat): Option<real>
    requires number >= 1
  {
    if number - 1 < |cfg.prices| then cfg.prices[number - 1] else Some(0.0)
  }

  function BuyRoomReply(s: Store, user: nat): Reply {
    var number := |UserRooms(s.rooms.rows, user)| + 1;
    var price := RoomPrice(s.cfg, number);
    if number > s.cfg.roomMax then MaxRooms
    else if price.None? || price.value < 0.0 then InvalidPrice
    else if user !in s.balance then UserNotFound
    else if s.balance[user] < price.value then InsufficientBalance
    else Done
  }

  function AddRacks(racks: Table<Rack>, user: nat, room: nat, count: nat): Table<Rack> {
    if count == 0 then racks
    else AddRacks(racks, user, room, count - 1).Insert(Rack(user, room, count - 1, None, None))
  }

  function AddRoom(s: Store, user: nat, price: real): Store
    requires user in s.balance
  {
    var number := |UserRooms(s.rooms.rows, user)| + 1;
    s.(balance := if price > 0.0 then s.balance[user := s.balance[user] - price] else s.balance,
       rooms := s.rooms.Insert(Room(user, number, price)),
       racks := AddRacks(s.racks, user, s.rooms.next, s.cfg.racksPerRoom))
  }

  predicate Occupied(r: Rack) {
    r.host.Some? || r.blockedBy.Some?
  }

  /** The racks at this position of the room. */
  function RackAt(racks: map<nat, Rack>, room: nat, position: int): set<nat> {
    set r | r in racks && racks[r].room == room && racks[r].position == position
  }

  function RoomInstallReply(s: Store, user: nat, rack: nat, item: nat): Reply {
    if rack !in s.racks.rows || s.racks.rows[rack].user != user then NotFound
    else if Occupied(s.racks.rows[rack]) then RackOccupied
    else if !Owns(s.inventory.rows, user, item) then NotFound
    else
      var size := OrOne(s.inventory.rows[item].spec.slotSize);
      if size >= 2 then
        var next := RackAt(s.racks.rows, s.racks.rows[rack].room, s.racks.rows[rack].position + size - 1);
        if next == {} then NoSpace
        else if exists n :: n in next && Occupied(s.racks.rows[n]) then AdjacentRackOccupied
        else Done
      else Done
  }

  /** Host pointer on `rack`, block pointers on `blocked`. */
  function Occupy(racks: Table<Rack>, rack: nat, blocked: set<nat>, machine: nat): Table<Rack>
  {
    Table(map r | r in racks.rows ::
            racks.rows[r].(host := if r == rack then Some(machine) else racks.rows[r].host,
                           blockedBy := if r in blocked then Some(machine) else racks.rows[r].blockedBy),
          racks.next)
  }

  function BlockedBeside(s: Store, rack: nat, slotSize: int): set<nat>
    requires rack in s.racks.rows
  {
    if OrOne(slotSize) >= 2
    then RackAt(s.racks.rows, s.racks.rows[rack].room, s.racks.rows[rack].position + OrOne(slotSize) - 1)
    else {}
  }

  /** The slot a machine installed on `rack` gets. */
  function SlotOf(cfg: Config, rooms: map<nat, Room>, rack: Rack): int {
    RackSlotIndex(cfg, if rack.room in rooms then rooms[rack.room].number else 0, rack.position)
  }

  function InstallInRoom(s: Store, rack: nat, item: nat): Store
    requires rack in s.racks.rows && item in s.inventory.rows
  {
    var spec := s.inventory.rows[item].spec;
    var t := ItemToMachine(s, item, SlotOf(s.cfg, s.rooms.rows, s.racks.rows[rack]), spec);
    t.(racks := Occupy(s.racks, rack, BlockedBeside(s, rack, spec.slotSize), s.machines.next))
  }

  function RoomUninstallReply(s: Store, user: nat, rack: nat): Reply {
    if rack !in s.racks.rows || s.racks.rows[rack].user != user then NotFound
    else if s.racks.rows[rack].host.None? || s.racks.rows[rack].host.value !in s.machines.rows then RackEmpty
    else Done
  }

  function DiscardItem(s: Store, item: nat): Store
    requires item in s.inventory.rows
  {
    var link := s.inventory.rows[item].owned;
    s.(inventory := s.inventory.Delete(item),
       owned := if link.Some? then s.owned.Delete(link.value) else s.owned)
  }

  function Answer(s: Store, op: Op): Reply {
    match op
    case Grant(user, spec, quantity) => Done
    case Discard(user, item) => if Owns(s.inventory.rows, user, item) then Done else NotFound
    case Install(user, slot, item, order, previous) => InstallReply(s, user, slot, item)
    case Move(user, machine, slot, order, previous) => MoveReply(s, user, machine, slot)
    case Remove(user, machine) => if OwnsMachine(s.machines.rows, user, machine) then Done else NotFound
    case BuyRoom(user) => BuyRoomReply(s, user)
    case RoomInstall(user, rack, item) => RoomInstallReply(s, user, rack, item)
    case RoomUninstall(user, rack) => RoomUninstallReply(s, user, rack)
    case StoreItem(user, item) => if Owns(s.inventory.rows, user, item) then Done else NotFound
    case StoreMachine(user, machine) => if OwnsMachine(s.machines.rows, user, machine) then Done else NotFound
    case RetrieveItem(user, item) => if Owns(s.vault.rows, user, item) then Done else NotFound
    case RetrieveToRack(user, item, slot, order) => RetrieveToRackReply(s, user, item, slot)
  }

  function Effect(s: Store, op: Op): Store
    requires Answer(s, op) == Done
  {
    match op
    case Grant(user, spec, quantity) => GrantMany(s, user, ClampSpec(spec), quantity)
    case Discard(user, item) => DiscardItem(s, item)
    case Install(user, slot, item, order, previous) =>
      var spec := s.inventory.rows[item].spec;
      var t := MakeRoom(s, order, previous);
      ItemToMachine(t, item, slot, spec.(slotSize := OrOne(spec.slotSize)))
    case Move(user, machine, slot, order, previous) =>
      var t := MakeRoom(s, order, previous);
      if machine in t.machines.rows
      then t.(machines := t.machines.Update(machine, t.machines.rows[machine].(slot := slot)))
      else t
    case Remove(user, machine) => MachineToInventory(s, machine)
    case BuyRoom(user) =>
      AddRoom(s, user, RoomPrice(s.cfg, |UserRooms(s.rooms.rows, user)| + 1).value)
    case RoomInstall(user, rack, item) => InstallInRoom(s, rack, item)
    case RoomUninstall(user, rack) => MachineToInventory(s, s.racks.rows[rack].host.value)
    case StoreItem(user, item) => ItemToVault(s, item)
    case StoreMachine(user, machine) => MachineToVault(s, machine)
    case RetrieveItem(user, item) => VaultToItem(s, item)
    case RetrieveToRack(user, item, slot, order) =>
      var spec := s.vault.rows[item].spec;
      var t := EvictAll(s, order);
      VaultToMachine(t, item, slot, spec.(slotSize := OrOne(spec.slotSize)))
  }

  function Apply(s: Store, op: Op): Store {
    if Answer(s, op) == Done then Effect(s, op) else s
  }

  /** The rows named in the request are exactly those the queries would return at this point. */
  ghost predicate Orderly(s: Store, op: Op) {
    Answer(s, op) == Done ==>
      match op
      case Install(user, slot, item, order, previous) =>
        var size := OrOne(s.inventory.rows[item].spec.slotSize);
        && Enumerates(order, StartingIn(s.machines.rows, user, slot, size, None))
        && Enumerates(previous, PreviousDoubles(EvictAll(s, order).machines.rows, user, slot, None))
      case Move(user, machine, slot, order, previous) =>
        var size := s.machines.rows[machine].spec.slotSize;
        && Enumerates(order, StartingIn(s.machines.rows, user, slot, size, Some(machine)))
        && Enumerates(previous, PreviousDoubles(EvictAll(s, order).machines.rows, user, slot, Some(machine)))
      case RetrieveToRack(user, item, slot, order) =>
        var size := OrOne(s.vault.rows[item].spec.slotSize);
        Enumerates(order, StartingIn(s.machines.rows, user, slot, size, None))
      case _ => true
  }

  function Exec(s: Store, ops: seq<Op>): Store
    decreases |ops|
  {
    if ops == [] then s else Exec(Apply(s, ops[0]), ops[1..])
  }

  ghost predicate Legal(s: Store, ops: seq<Op>)
    decreases |ops|
  {
    ops != [] ==> Orderly(s, ops[0]) && Legal(Apply(s, ops[0]), ops[1..])
  }
}
