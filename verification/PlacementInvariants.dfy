/** What every reachable store satisfies. */
module PlacementInvariants {
  import opened Tables
  import opened PlacementModel

  // ---- Slots ----

  ghost predicate SlotsUnique(ms: map<nat, Machine>) {
    forall a, b | a in ms && b in ms && ms[a].user == ms[b].user && ms[a].slot == ms[b].slot :: a == b
  }

  /** A machine is on the grid or on a room slot; a double on the grid starts on an even slot. */
  predicate SlotFits(m: Machine) {
    && (OnGrid(m.slot) || m.slot >= RACK_BASE)
    && (OnGrid(m.slot) && m.spec.slotSize == 2 ==> m.slot % 2 == 0)
  }

  predicate Overlap(a: Machine, b: Machine) {
    a.slot < b.slot + b.spec.slotSize && b.slot < a.slot + a.spec.slotSize
  }

  /** Machines on the grid take pairwise disjoint slot ranges. */
  ghost predicate GridDisjoint(ms: map<nat, Machine>) {
    forall a, b | a in ms && b in ms && a != b && ms[a].user == ms[b].user
      && OnGrid(ms[a].slot) && OnGrid(ms[b].slot) :: !Overlap(ms[a], ms[b])
  }

  /** All installed machines take pairwise disjoint slot ranges. */
  ghost predicate Disjoint(ms: map<nat, Machine>) {
    forall a, b | a in ms && b in ms && a != b && ms[a].user == ms[b].user :: !Overlap(ms[a], ms[b])
  }

  predicate OneOrTwo(spec: Spec) {
    1 <= spec.slotSize <= 2
  }

  ghost predicate SlotsOk(ms: map<nat, Machine>) {
    && SlotsUnique(ms)
    && (forall m | m in ms :: SlotFits(ms[m]) && OneOrTwo(ms[m].spec))
  }

  ghost predicate ItemSizesOk(rows: map<nat, Item>) {
    forall i | i in rows :: OneOrTwo(rows[i].spec)
  }

  // ---- Rooms and racks ----

  /** A user's rooms are numbered 1 up to their count. */
  ghost predicate RoomsOk(rooms: map<nat, Room>) {
    && (forall r | r in rooms :: 1 <= rooms[r].number <= |UserRooms(rooms, rooms[r].user)|)
    && (forall a, b | a in rooms && b in rooms && rooms[a].user == rooms[b].user
          && rooms[a].number == rooms[b].number :: a == b)
  }

  /** Every rack stands in a room of its user, at its own position. */
  ghost predicate RacksPlaced(cfg: Config, rooms: map<nat, Room>, racks: map<nat, Rack>) {
    && (forall r | r in racks ::
          && racks[r].room in rooms
          && racks[r].user == rooms[racks[r].room].user
          && racks[r].position < cfg.racksPerRoom)
    && (forall a, b | a in racks && b in racks && racks[a].room == racks[b].room
          && racks[a].position == racks[b].position :: a == b)
  }

  predicate Beside(a: Rack, b: Rack) {
    a.room == b.room && a.position + 1 == b.position
  }

  ghost predicate BlocksNext(racks: map<nat, Rack>, r: nat, m: nat)
    requires r in racks
  {
    exists b :: b in racks && Beside(racks[r], racks[b]) && racks[b].blockedBy == Some(m)
  }

  ghost predicate HostedBefore(racks: map<nat, Rack>, b: nat, m: nat)
    requires b in racks
  {
    exists r :: r in racks && Beside(racks[r], racks[b]) && racks[r].host == Some(m)
  }

  ghost predicate HostedAtItsSlot(cfg: Config, rooms: map<nat, Room>, racks: map<nat, Rack>, ms: map<nat, Machine>,
                                  m: nat)
    requires m in ms
  {
    exists r :: r in racks && racks[r].host == Some(m) && SlotOf(cfg, rooms, racks[r]) == ms[m].slot
  }

  /** A host pointer names a live machine of the same user, which a double blocks the next rack for. */
  ghost predicate HostOk(cfg: Config, rooms: map<nat, Room>, racks: map<nat, Rack>, ms: map<nat, Machine>, r: nat)
    requires r in racks
  {
    racks[r].host.Some? ==>
      var m := racks[r].host.value;
      && m in ms
      && ms[m].user == racks[r].user
      && racks[r].blockedBy == None
      && (OnGrid(ms[m].slot) || ms[m].slot == SlotOf(cfg, rooms, racks[r]))
      && (ms[m].spec.slotSize == 2 ==> BlocksNext(racks, r, m))
  }

  /** A block pointer names a live double hosted on the rack before. */
  ghost predicate BlockOk(racks: map<nat, Rack>, ms: map<nat, Machine>, b: nat)
    requires b in racks
  {
    racks[b].blockedBy.Some? ==>
      var m := racks[b].blockedBy.value;
      && m in ms
      && ms[m].spec.slotSize == 2
      && HostedBefore(racks, b, m)
  }

  ghost predicate RacksOk(cfg: Config, rooms: map<nat, Room>, racks: map<nat, Rack>, ms: map<nat, Machine>) {
    && (forall r | r in racks :: HostOk(cfg, rooms, racks, ms, r) && BlockOk(racks, ms, r))
    && (forall a, b | a in racks && b in racks && racks[a].host.Some? && racks[a].host == racks[b].host :: a == b)
    && (forall m | m in ms && ms[m].slot >= RACK_BASE :: HostedAtItsSlot(cfg, rooms, racks, ms, m))
  }

  // ---- Owned rows ----

  /** The rows that may carry a link to an owned row. */
  datatype Child = InInventory(id: nat) | InRack(id: nat) | InVault(id: nat)

  predicate Live(s: Store, c: Child) {
    match c
    case InInventory(id) => id in s.inventory.rows
    case InRack(id) => id in s.machines.rows
    case InVault(id) => id in s.vault.rows
  }

  function Link(s: Store, c: Child): Option<nat>
    requires Live(s, c)
  {
    match c
    case InInventory(id) => s.inventory.rows[id].owned
    case InRack(id) => s.machines.rows[id].owned
    case InVault(id) => s.vault.rows[id].owned
  }

  /** The owned row a linked child must have. */
  function Snapshot(s: Store, c: Child): OwnedRow
    requires Live(s, c)
  {
    match c
    case InInventory(id) => OwnedRow(s.inventory.rows[id].user, INVENTORY, s.inventory.rows[id].spec)
    case InRack(id) => OwnedRow(s.machines.rows[id].user, RACK, s.machines.rows[id].spec)
    case InVault(id) => OwnedRow(s.vault.rows[id].user, WAREHOUSE, s.vault.rows[id].spec)
  }

  ghost predicate LinksOk(s: Store) {
    && (forall c: Child | Live(s, c) && Link(s, c).Some? ::
          Link(s, c).value in s.owned.rows && s.owned.rows[Link(s, c).value] == Snapshot(s, c))
    && (forall c: Child, d: Child | Live(s, c) && Live(s, d) && Link(s, c).Some? && Link(s, c) == Link(s, d) :: c == d)
  }

  ghost predicate IdsFresh(s: Store) {
    && s.inventory.Fresh() && s.machines.Fresh() && s.vault.Fresh()
    && s.owned.Fresh() && s.rooms.Fresh() && s.racks.Fresh()
  }

  ghost predicate Inv(s: Store) {
    && IdsFresh(s)
    && SlotsOk(s.machines.rows)
    && ItemSizesOk(s.inventory.rows) && ItemSizesOk(s.vault.rows)
    && RoomsOk(s.rooms.rows)
    && RacksPlaced(s.cfg, s.rooms.rows, s.racks.rows)
    && RacksOk(s.cfg, s.rooms.rows, s.racks.rows, s.machines.rows)
    && LinksOk(s)
  }

  // ---- Counting machines ----

  function ItemsLike(rows: map<nat, Item>, user: nat, spec: Spec): set<nat> {
    set i | i in rows && rows[i].user == user && rows[i].spec == spec
  }

  function MachinesLike(rows: map<nat, Machine>, user: nat, spec: Spec): set<nat> {
    set i | i in rows && rows[i].user == user && rows[i].spec == spec
  }

  /** How many machines of this level, hash rate and size the user has, wherever they are. */
  function Tally(s: Store, user: nat, spec: Spec): nat {
    |ItemsLike(s.inventory.rows, user, spec)| + |MachinesLike(s.machines.rows, user, spec)|
    + |ItemsLike(s.vault.rows, user, spec)|
  }
}
