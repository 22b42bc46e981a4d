/** Every request keeps the invariant, whatever its arguments. */
module PlacementSteps {
  import opened Tables
  import opened PlacementModel
  import opened PlacementInvariants
  import opened PlacementLinks
  import opened PlacementRacks

  // ---- Eviction ----

  lemma {:induction false} GrantOneKeeps(s: Store, user: nat, spec: Spec)
    requires Inv(s) && OneOrTwo(spec)
    ensures Inv(GrantOne(s, user, spec)) && SameOrphans(s, GrantOne(s, user, spec))
  {
    Newcomer(s, GrantOne(s, user, spec), InInventory(s.inventory.next));
  }

  lemma {:induction false} GrantManyKeeps(s: Store, user: nat, spec: Spec, quantity: nat)
    requires Inv(s) && OneOrTwo(spec)
    ensures Inv(GrantMany(s, user, spec, quantity)) && SameOrphans(s, GrantMany(s, user, spec, quantity))
  {
    if quantity > 0 {
      GrantManyKeeps(s, user, spec, quantity - 1);
      GrantOneKeeps(GrantMany(s, user, spec, quantity - 1), user, spec);
    }
  }

  /** A machine that goes leaves its racks free and its owned row childless. */
  lemma {:induction false} EvictKeeps(s: Store, m: nat)
    requires Inv(s)
    ensures Inv(Evict(s, m))
    ensures Evict(s, m).machines.rows == s.machines.rows - {m}
  {
    if m in s.machines.rows {
      var t := s.(racks := Release(s.racks, m), machines := s.machines.Delete(m));
      Departure(s, t, InRack(m));
      ReleaseKeepsRacks(s.cfg, s.rooms.rows, s.racks, s.machines.rows, m);
      assert Inv(t);
      GrantOneKeeps(t, s.machines.rows[m].user, s.machines.rows[m].spec);
      assert Evict(s, m) == GrantOne(t, s.machines.rows[m].user, s.machines.rows[m].spec);
    }
  }

  ghost predicate KeepsItems(s: Store, t: Store) {
    && t.vault == s.vault && t.cfg == s.cfg && t.rooms == s.rooms && t.balance == s.balance
    && t.machines.next == s.machines.next
    && (forall i | i in s.inventory.rows :: i in t.inventory.rows && t.inventory.rows[i] == s.inventory.rows[i])
  }

  lemma {:induction false} EvictAllKeeps(s: Store, order: seq<nat>)
    requires Inv(s)
    ensures Inv(EvictAll(s, order)) && KeepsItems(s, EvictAll(s, order))
  {
    if order != [] {
      EvictAllKeeps(s, order[..|order| - 1]);
      EvictKeeps(EvictAll(s, order[..|order| - 1]), order[|order| - 1]);
    }
  }

  // ---- Onto the grid ----

  ghost predicate SlotFree(ms: map<nat, Machine>, user: nat, slot: int, except: Option<nat>) {
    forall m | m in ms && ms[m].user == user && except != Some(m) :: ms[m].slot != slot
  }

  lemma {:induction false} ItemToGridKeeps(s: Store, item: nat, slot: int, spec: Spec)
    requires Inv(s) && item in s.inventory.rows && spec == s.inventory.rows[item].spec
    requires OnGrid(slot) && (spec.slotSize == 2 ==> slot % 2 == 0)
    requires SlotFree(s.machines.rows, s.inventory.rows[item].user, slot, None)
    ensures Inv(ItemToMachine(s, item, slot, spec))
  {
    var row := ItemToMachine(s, item, slot, spec).machines.rows[s.machines.next];
    ItemToMachineLinks(s, item, slot, spec);
    NewSlotKeeps(s.machines.rows, s.machines.next, row);
    GridKeepsRacks(s.cfg, s.rooms.rows, s.racks.rows, s.machines.rows, s.machines.next, row);
  }

  lemma {:induction false} VaultToGridKeeps(s: Store, item: nat, slot: int, spec: Spec)
    requires Inv(s) && item in s.vault.rows && spec == s.vault.rows[item].spec
    requires OnGrid(slot) && (spec.slotSize == 2 ==> slot % 2 == 0)
    requires SlotFree(s.machines.rows, s.vault.rows[item].user, slot, None)
    ensures Inv(VaultToMachine(s, item, slot, spec))
  {
    var row := VaultToMachine(s, item, slot, spec).machines.rows[s.machines.next];
    VaultToMachineLinks(s, item, slot, spec);
    NewSlotKeeps(s.machines.rows, s.machines.next, row);
    GridKeepsRacks(s.cfg, s.rooms.rows, s.racks.rows, s.machines.rows, s.machines.next, row);
  }

  lemma {:induction false} VaultToMachineLinks(s: Store, item: nat, slot: int, spec: Spec)
    requires IdsFresh(s) && LinksOk(s) && item in s.vault.rows && spec == s.vault.rows[item].spec
    ensures LinksOk(VaultToMachine(s, item, slot, spec)) && IdsFresh(VaultToMachine(s, item, slot, spec)) &&
              SameOrphans(s, VaultToMachine(s, item, slot, spec))
  {
    var t := VaultToMachine(s, item, slot, spec);
    var link := t.machines.rows[s.machines.next].owned.value;
    assert s.vault.rows[item].owned.Some? ==> Live(s, InVault(item)) && link in s.owned.rows;
    Handover(s, t, InVault(item), InRack(s.machines.next), link);
  }

  lemma {:induction false} MoveOnGridKeeps(s: Store, m: nat, slot: int)
    requires Inv(s) && m in s.machines.rows
    requires OnGrid(slot) && (s.machines.rows[m].spec.slotSize == 2 ==> slot % 2 == 0)
    requires SlotFree(s.machines.rows, s.machines.rows[m].user, slot, Some(m))
    ensures Inv(s.(machines := s.machines.Update(m, s.machines.rows[m].(slot := slot))))
  {
    var row := s.machines.rows[m].(slot := slot);
    MoveLinks(s, m, slot);
    MovedSlotKeeps(s.machines.rows, m, row);
    GridKeepsRacks(s.cfg, s.rooms.rows, s.racks.rows, s.machines.rows, m, row);
  }

  lemma {:induction false} MoveLinks(s: Store, m: nat, slot: int)
    requires IdsFresh(s) && LinksOk(s) && m in s.machines.rows
    ensures var t := s.(machines := s.machines.Update(m, s.machines.rows[m].(slot := slot)));
            IdsFresh(t) && LinksOk(t) && SameOrphans(s, t)
  {
    Unlinked(s, s.(machines := s.machines.Update(m, s.machines.rows[m].(slot := slot))));
  }

  lemma {:induction false} MovedSlotKeeps(ms: map<nat, Machine>, m: nat, row: Machine)
    requires SlotsOk(ms) && m in ms && SlotFits(row) && OneOrTwo(row.spec)
    requires SlotFree(ms, row.user, row.slot, Some(m))
    ensures SlotsOk(ms[m := row])
  {
  }

  // ---- Between racks, inventory and vault ----

  lemma {:induction false} MachineToInventoryLinks(s: Store, m: nat)
    requires IdsFresh(s) && LinksOk(s) && m in s.machines.rows
    ensures LinksOk(MachineToInventory(s, m)) && IdsFresh(MachineToInventory(s, m)) &&
              SameOrphans(s, MachineToInventory(s, m))
  {
    var t := MachineToInventory(s, m);
    var link := t.inventory.rows[s.inventory.next].owned.value;
    assert s.machines.rows[m].owned.Some? ==> Live(s, InRack(m)) && link in s.owned.rows;
    Handover(s, t, InRack(m), InInventory(s.inventory.next), link);
  }

  lemma {:induction false} MachineToInventoryKeeps(s: Store, m: nat)
    requires Inv(s) && m in s.machines.rows
    ensures Inv(MachineToInventory(s, m))
  {
    MachineToInventoryLinks(s, m);
    ReleaseKeepsRacks(s.cfg, s.rooms.rows, s.racks, s.machines.rows, m);
  }

  lemma {:induction false} MachineToVaultLinks(s: Store, m: nat)
    requires IdsFresh(s) && LinksOk(s) && m in s.machines.rows
    ensures LinksOk(MachineToVault(s, m)) && IdsFresh(MachineToVault(s, m)) && SameOrphans(s, MachineToVault(s, m))
  {
    var t := MachineToVault(s, m);
    var link := t.vault.rows[s.vault.next].owned.value;
    assert s.machines.rows[m].owned.Some? ==> Live(s, InRack(m)) && link in s.owned.rows;
    Handover(s, t, InRack(m), InVault(s.vault.next), link);
  }

  lemma {:induction false} MachineToVaultKeeps(s: Store, m: nat)
    requires Inv(s) && m in s.machines.rows
    ensures Inv(MachineToVault(s, m))
  {
    MachineToVaultLinks(s, m);
    ReleaseKeepsRacks(s.cfg, s.rooms.rows, s.racks, s.machines.rows, m);
  }

  lemma {:induction false} ItemToVaultLinks(s: Store, item: nat)
    requires IdsFresh(s) && LinksOk(s) && item in s.inventory.rows
    ensures LinksOk(ItemToVault(s, item)) && IdsFresh(ItemToVault(s, item)) && SameOrphans(s, ItemToVault(s, item))
  {
    var t := ItemToVault(s, item);
    var link := t.vault.rows[s.vault.next].owned.value;
    assert s.inventory.rows[item].owned.Some? ==> Live(s, InInventory(item)) && link in s.owned.rows;
    Handover(s, t, InInventory(item), InVault(s.vault.next), link);
  }

  lemma {:induction false} ItemToVaultKeeps(s: Store, item: nat)
    requires Inv(s) && item in s.inventory.rows
    ensures Inv(ItemToVault(s, item))
  {
    ItemToVaultLinks(s, item);
  }

  lemma {:induction false} VaultToItemLinks(s: Store, item: nat)
    requires IdsFresh(s) && LinksOk(s) && item in s.vault.rows
    ensures LinksOk(VaultToItem(s, item)) && IdsFresh(VaultToItem(s, item)) && SameOrphans(s, VaultToItem(s, item))
  {
    var t := VaultToItem(s, item);
    var link := t.inventory.rows[s.inventory.next].owned.value;
    assert s.vault.rows[item].owned.Some? ==> Live(s, InVault(item)) && link in s.owned.rows;
    Handover(s, t, InVault(item), InInventory(s.inventory.next), link);
  }

  lemma {:induction false} VaultToItemKeeps(s: Store, item: nat)
    requires Inv(s) && item in s.vault.rows
    ensures Inv(VaultToItem(s, item))
  {
    VaultToItemLinks(s, item);
  }

  lemma {:induction false} DiscardKeeps(s: Store, item: nat)
    requires Inv(s) && item in s.inventory.rows
    ensures Inv(DiscardItem(s, item))
  {
    assert Live(s, InInventory(item));
    Departure(s, DiscardItem(s, item), InInventory(item));
  }

  // ---- Rooms ----

  /** The rack answered for is free, and so is the one it blocks, which stands beside it. */
  lemma {:induction false} RoomInstallRacks(s: Store, user: nat, rack: nat, item: nat)
    requires Inv(s) && RoomInstallReply(s, user, rack, item) == Done
    ensures var blocked := BlockedBeside(s, rack, s.inventory.rows[item].spec.slotSize);
            && (forall b | b in blocked ::
                  b in s.racks.rows && !Occupied(s.racks.rows[b]) && Beside(s.racks.rows[rack], s.racks.rows[b]))
            && (blocked != {} <==> s.inventory.rows[item].spec.slotSize == 2)
  {
  }

  lemma {:induction false} ItemToMachineLinks(s: Store, item: nat, slot: int, spec: Spec)
    requires IdsFresh(s) && LinksOk(s) && item in s.inventory.rows && spec == s.inventory.rows[item].spec
    ensures LinksOk(ItemToMachine(s, item, slot, spec)) && IdsFresh(ItemToMachine(s, item, slot, spec)) &&
              SameOrphans(s, ItemToMachine(s, item, slot, spec))
  {
    var t := ItemToMachine(s, item, slot, spec);
    var link := t.machines.rows[s.machines.next].owned.value;
    assert s.inventory.rows[item].owned.Some? ==> Live(s, InInventory(item)) && link in s.owned.rows;
    Handover(s, t, InInventory(item), InRack(s.machines.next), link);
  }

  lemma {:induction false} RoomInstallLinks(s: Store, rack: nat, item: nat)
    requires IdsFresh(s) && LinksOk(s) && rack in s.racks.rows && item in s.inventory.rows
    ensures LinksOk(InstallInRoom(s, rack, item)) && IdsFresh(InstallInRoom(s, rack, item)) &&
              SameOrphans(s, InstallInRoom(s, rack, item))
  {
    var spec := s.inventory.rows[item].spec;
    var slot := SlotOf(s.cfg, s.rooms.rows, s.racks.rows[rack]);
    ItemToMachineLinks(s, item, slot, spec);
    Unlinked(ItemToMachine(s, item, slot, spec), InstallInRoom(s, rack, item));
  }

  lemma {:induction false} RoomInstallSlots(s: Store, user: nat, rack: nat, item: nat)
    requires Inv(s) && RoomInstallReply(s, user, rack, item) == Done
    ensures SlotsOk(InstallInRoom(s, rack, item).machines.rows)
  {
    var slot := SlotOf(s.cfg, s.rooms.rows, s.racks.rows[rack]);
    SlotsOfRacks(s.cfg, s.rooms.rows, s.racks.rows, rack, rack);
    forall k | k in s.machines.rows && s.machines.rows[k].user == user ensures s.machines.rows[k].slot != slot {
      FreeRackSlotFree(s, rack, k);
    }
    NewSlotKeeps(s.machines.rows, s.machines.next, Machine(user, slot, s.inventory.rows[item].spec,
      InstallInRoom(s, rack, item).machines.rows[s.machines.next].owned));
  }

  lemma {:induction false} NewSlotKeeps(ms: map<nat, Machine>, m: nat, row: Machine)
    requires SlotsOk(ms) && m !in ms && SlotFits(row) && OneOrTwo(row.spec)
    requires SlotFree(ms, row.user, row.slot, None)
    ensures SlotsOk(ms[m := row])
  {
  }

  lemma {:induction false} InstallInRoomKeeps(s: Store, user: nat, rack: nat, item: nat)
    requires Inv(s) && RoomInstallReply(s, user, rack, item) == Done
    ensures Inv(InstallInRoom(s, rack, item))
  {
    RoomInstallRacks(s, user, rack, item);
    RoomInstallLinks(s, rack, item);
    RoomInstallSlots(s, user, rack, item);
    OccupyKeepsRacks(s.cfg, s.rooms.rows, s.racks, s.machines.rows, rack,
      BlockedBeside(s, rack, s.inventory.rows[item].spec.slotSize),
      s.machines.next, InstallInRoom(s, rack, item).machines.rows[s.machines.next]);
  }

  lemma {:induction false} AddRacksRows(racks: Table<Rack>, user: nat, room: nat, count: nat)
    requires racks.Fresh()
    ensures AddRacks(racks, user, room, count).next == racks.next + count
    ensures AddRacks(racks, user, room, count).Fresh()
    ensures forall r :: r in AddRacks(racks, user, room, count).rows <==>
              r in racks.rows || racks.next <= r < racks.next + count
    ensures forall r | r in racks.rows :: AddRacks(racks, user, room, count).rows[r] == racks.rows[r]
    ensures forall r: nat | racks.next <= r < racks.next + count ::
              AddRacks(racks, user, room, count).rows[r] == Rack(user, room, r - racks.next, None, None)
  {
    if count > 0 {
      AddRacksRows(racks, user, room, count - 1);
    }
  }

  lemma {:induction false} SlotKept(cfg: Config, rooms: map<nat, Room>, room: nat, row: Room, rack: Rack)
    requires room !in rooms && rack.room in rooms
    ensures SlotOf(cfg, rooms[room := row], rack) == SlotOf(cfg, rooms, rack)
  {
  }

  /** Racks that hold nothing may be added. */
  lemma {:induction false} EmptyRacksKeep(cfg: Config, rooms: map<nat, Room>, racks: map<nat, Rack>,
                                          ms: map<nat, Machine>,
                       room: nat, row: Room, racks': map<nat, Rack>)
    requires room !in rooms
    requires RacksPlaced(cfg, rooms, racks) && RacksOk(cfg, rooms, racks, ms)
    requires forall r | r in racks :: r in racks' && racks'[r] == racks[r]
    requires forall r | r in racks' && r !in racks :: !Occupied(racks'[r])
    ensures RacksOk(cfg, rooms[room := row], racks', ms)
  {
    var rooms' := rooms[room := row];
    forall r | r in racks' ensures HostOk(cfg, rooms', racks', ms, r) && BlockOk(racks', ms, r) {
      if r in racks {
        assert HostOk(cfg, rooms, racks, ms, r) && BlockOk(racks, ms, r);
        SlotKept(cfg, rooms, room, row, racks[r]);
        if racks[r].host.Some? && ms[racks[r].host.value].spec.slotSize == 2 {
          assert BlocksNext(racks, r, racks[r].host.value);
          assert BlocksNext(racks', r, racks[r].host.value);
        }
        if racks[r].blockedBy.Some? {
          assert HostedBefore(racks, r, racks[r].blockedBy.value);
          assert HostedBefore(racks', r, racks[r].blockedBy.value);
        }
      }
    }
    forall k | k in ms && ms[k].slot >= RACK_BASE ensures HostedAtItsSlot(cfg, rooms', racks', ms, k) {
      assert HostedAtItsSlot(cfg, rooms, racks, ms, k);
      var r :| r in racks && racks[r].host == Some(k) && SlotOf(cfg, rooms, racks[r]) == ms[k].slot;
      SlotKept(cfg, rooms, room, row, racks[r]);
      assert r in racks' && racks'[r].host == Some(k) && SlotOf(cfg, rooms', racks'[r]) == ms[k].slot;
    }
  }

  lemma {:induction false} AddRacksPlaced(cfg: Config, rooms: map<nat, Room>, racks: Table<Rack>, room: nat, row: Room)
    requires racks.Fresh() && room !in rooms && RacksPlaced(cfg, rooms, racks.rows)
    ensures RacksPlaced(cfg, rooms[room := row], AddRacks(racks, row.user, room, cfg.racksPerRoom).rows)
  {
    AddRacksRows(racks, row.user, room, cfg.racksPerRoom);
  }

  lemma {:induction false} UserRoomsAfter(rooms: map<nat, Room>, room: nat, row: Room, user: nat)
    requires room !in rooms
    ensures |UserRooms(rooms[room := row], user)| == |UserRooms(rooms, user)| + if user == row.user then 1 else 0
  {
    assert UserRooms(rooms[room := row], user) == UserRooms(rooms, user) + if user == row.user then {room} else {};
  }

  lemma {:induction false} NewRoomKeeps(rooms: map<nat, Room>, room: nat, row: Room)
    requires RoomsOk(rooms) && room !in rooms && row.number == |UserRooms(rooms, row.user)| + 1
    ensures RoomsOk(rooms[room := row])
  {
    var rooms' := rooms[room := row];
    forall r | r in rooms' ensures 1 <= rooms'[r].number <= |UserRooms(rooms', rooms'[r].user)| {
      UserRoomsAfter(rooms, room, row, rooms'[r].user);
      if r != room {
        assert rooms[r].number <= |UserRooms(rooms, rooms[r].user)|;
      }
    }
    forall a | a in rooms && rooms[a].user == row.user ensures rooms[a].number != row.number {
      assert rooms[a].number <= |UserRooms(rooms, rooms[a].user)|;
    }
  }

  lemma {:induction false} AddRoomKeeps(s: Store, user: nat, price: real)
    requires Inv(s) && user in s.balance
    ensures Inv(AddRoom(s, user, price))
  {
    var t := AddRoom(s, user, price);
    var row := t.rooms.rows[s.rooms.next];
    NewRoomKeeps(s.rooms.rows, s.rooms.next, row);
    AddRacksPlaced(s.cfg, s.rooms.rows, s.racks, s.rooms.next, row);
    NewRacksKeep(s, user, s.rooms.next, row);
    AddRoomLinks(s, user, price);
  }

  lemma {:induction false} NewRacksKeep(s: Store, user: nat, room: nat, row: Room)
    requires s.racks.Fresh() && room !in s.rooms.rows
    requires RacksPlaced(s.cfg, s.rooms.rows, s.racks.rows) &&
              RacksOk(s.cfg, s.rooms.rows, s.racks.rows, s.machines.rows)
    ensures RacksOk(s.cfg, s.rooms.rows[room := row], AddRacks(s.racks, user, room, s.cfg.racksPerRoom).rows,
                    s.machines.rows)
  {
    AddRacksRows(s.racks, user, room, s.cfg.racksPerRoom);
    EmptyRacksKeep(s.cfg, s.rooms.rows, s.racks.rows, s.machines.rows, room, row,
                   AddRacks(s.racks, user, room, s.cfg.racksPerRoom).rows);
  }

  lemma {:induction false} AddRoomLinks(s: Store, user: nat, price: real)
    requires IdsFresh(s) && LinksOk(s) && user in s.balance
    ensures IdsFresh(AddRoom(s, user, price)) && LinksOk(AddRoom(s, user, price)) &&
              SameOrphans(s, AddRoom(s, user, price))
  {
    AddRacksRows(s.racks, user, s.rooms.next, s.cfg.racksPerRoom);
    Unlinked(s, AddRoom(s, user, price));
  }

  // ---- Requests with eviction ----

  lemma {:induction false} EnumeratedSet(order: seq<nat>, ids: set<nat>)
    requires Enumerates(order, ids)
    ensures (set m | m in order) == ids
  {
  }

  /** The first overlap query's rows start too late to be the previous double. */
  lemma {:induction false} PreviousStays(ms: map<nat, Machine>, user: nat, slot: int, size: int, except: Option<nat>)
    ensures PreviousDoubles(ms - StartingIn(ms, user, slot, size, except), user, slot, except)
         == PreviousDoubles(ms, user, slot, except)
  {
  }

  /** What is left on the floor once the target slots are cleared. */
  function Cleared(ms: map<nat, Machine>, user: nat, slot: int, size: int, except: Option<nat>): map<nat, Machine> {
    ms - StartingIn(ms, user, slot, size, except) - PreviousDoubles(ms, user, slot, except)
  }

  lemma {:induction false} ClearedFree(ms: map<nat, Machine>, user: nat, slot: int, size: int, except: Option<nat>)
    requires size >= 1
    ensures SlotFree(Cleared(ms, user, slot, size, except), user, slot, except)
  {
  }

  lemma {:induction false} EvictAllRows(s: Store, order: seq<nat>)
    ensures EvictAll(s, order).machines.rows == s.machines.rows - (set m | m in order)
  {
    if order != [] {
      EvictAllRows(s, order[..|order| - 1]);
      assert forall m :: m in order <==> m in order[..|order| - 1] || m == order[|order| - 1];
    }
  }

  /** After the two overlap queries' rows are gone, nothing starts on the target slots. */
  lemma {:induction false} MakeRoomClears(s: Store, user: nat, slot: int, size: int, except: Option<nat>,
                                           order: seq<nat>, previous: seq<nat>)
    requires Enumerates(order, StartingIn(s.machines.rows, user, slot, size, except))
    requires Enumerates(previous, PreviousDoubles(EvictAll(s, order).machines.rows, user, slot, except))
    ensures MakeRoom(s, order, previous).machines.rows == Cleared(s.machines.rows, user, slot, size, except)
  {
    EvictAllRows(s, order);
    EnumeratedSet(order, StartingIn(s.machines.rows, user, slot, size, except));
    PreviousStays(s.machines.rows, user, slot, size, except);
    assert EvictAll(s, order).machines.rows == s.machines.rows - StartingIn(s.machines.rows, user, slot, size, except);
    EvictAllRows(EvictAll(s, order), previous);
    EnumeratedSet(previous, PreviousDoubles(s.machines.rows, user, slot, except));
  }

  lemma {:induction false} MakeRoomKeeps(s: Store, order: seq<nat>, previous: seq<nat>)
    requires Inv(s)
    ensures Inv(MakeRoom(s, order, previous)) && KeepsItems(s, MakeRoom(s, order, previous))
  {
    EvictAllKeeps(s, order);
    EvictAllKeeps(EvictAll(s, order), previous);
  }

  lemma {:induction false} InstallKeeps(s: Store, op: Op)
    requires Inv(s) && op.Install? && Orderly(s, op) && Answer(s, op) == Done
    ensures Inv(Effect(s, op))
  {
    var spec := s.inventory.rows[op.item].spec;
    MakeRoomKeeps(s, op.order, op.previous);
    MakeRoomClears(s, op.user, op.slot, OrOne(spec.slotSize), None, op.order, op.previous);
    ClearedFree(s.machines.rows, op.user, op.slot, OrOne(spec.slotSize), None);
    ItemToGridKeeps(MakeRoom(s, op.order, op.previous), op.item, op.slot, spec);
  }

  lemma {:induction false} MoveKeeps(s: Store, op: Op)
    requires Inv(s) && op.Move? && Orderly(s, op) && Answer(s, op) == Done
    ensures Inv(Effect(s, op))
  {
    var size := s.machines.rows[op.machine].spec.slotSize;
    MakeRoomKeeps(s, op.order, op.previous);
    MakeRoomClears(s, op.user, op.slot, size, Some(op.machine), op.order, op.previous);
    ClearedFree(s.machines.rows, op.user, op.slot, size, Some(op.machine));
    MoveOnGridKeeps(MakeRoom(s, op.order, op.previous), op.machine, op.slot);
  }

  lemma {:induction false} RetrieveToRackKeeps(s: Store, op: Op)
    requires Inv(s) && op.RetrieveToRack? && Orderly(s, op) && Answer(s, op) == Done
    ensures Inv(Effect(s, op))
  {
    EvictAllKeeps(s, op.order);
    EvictAllRows(s, op.order);
    VaultToGridKeeps(EvictAll(s, op.order), op.item, op.slot, s.vault.rows[op.item].spec);
  }

  /** Every request keeps the invariant. */
  lemma {:induction false} ApplyKeeps(s: Store, op: Op)
    requires Inv(s) && Orderly(s, op)
    ensures Inv(Apply(s, op))
  {
    if Answer(s, op) == Done {
      match op
      case Grant(user, spec, quantity) => GrantManyKeeps(s, user, ClampSpec(spec), quantity);
      case Discard(user, item) => DiscardKeeps(s, item);
      case Install(_, _, _, _, _) => InstallKeeps(s, op);
      case Move(_, _, _, _, _) => MoveKeeps(s, op);
      case Remove(user, machine) => MachineToInventoryKeeps(s, machine);
      case BuyRoom(user) => AddRoomKeeps(s, user, RoomPrice(s.cfg, |UserRooms(s.rooms.rows, user)| + 1).value);
      case RoomInstall(user, rack, item) => InstallInRoomKeeps(s, user, rack, item);
      case RoomUninstall(user, rack) => MachineToInventoryKeeps(s, s.racks.rows[rack].host.value);
      case StoreItem(user, item) => ItemToVaultKeeps(s, item);
      case StoreMachine(user, machine) => MachineToVaultKeeps(s, machine);
      case RetrieveItem(user, item) => VaultToItemKeeps(s, item);
      case RetrieveToRack(_, _, _, _) => RetrieveToRackKeeps(s, op);
    }
  }
}
