/** The controllers, statement by statement, over the tables of one database. */
module MachineStore {
  import opened Tables
  import opened PlacementModel
  import opened PlacementInvariants
  import opened PlacementLinks
  import opened PlacementRacks
  import opened PlacementSteps
  import opened PlacementTheorems

  lemma {:induction false} NoneFound(ids: set<nat>)
    requires Enumerates([], ids)
    ensures ids == {}
  {
    var none: seq<nat> := [];
    assert forall m | m in ids :: m in none;
  }

  class Database {
    const cfg: Config
    var inventory: Table<Item>
    var machines: Table<Machine>
    var vault: Table<Item>
    var owned: Table<OwnedRow>
    var rooms: Table<Room>
    var racks: Table<Rack>
    var balance: map<nat, real>

    ghost function View(): Store
      reads this
    {
      Store(cfg, inventory, machines, vault, owned, rooms, racks, balance)
    }

    ghost predicate Valid()
      reads this
    {
      Inv(View())
    }

    constructor (cfg: Config, balance: map<nat, real>)
      ensures Valid() && this.cfg == cfg && this.balance == balance
      ensures inventory.rows == map[] && machines.rows == map[] && vault.rows == map[]
      ensures rooms.rows == map[] && racks.rows == map[]
    {
      this.cfg := cfg;
      inventory, machines, vault := Table(map[], 1), Table(map[], 1), Table(map[], 1);
      owned, rooms, racks := Table(map[], 1), Table(map[], 1), Table(map[], 1);
      this.balance := balance;
    }

    // ---- Statements. A precondition is a constraint of the schema: breaking it would abort the transaction. ----

    /** Unique per user and slot; unique owned row. */
    method CreateMachine(row: Machine) returns (id: nat)
      requires forall m | m in machines.rows && machines.rows[m].user == row.user :: machines.rows[m].slot != row.slot
      requires forall m | m in machines.rows && row.owned.Some? :: machines.rows[m].owned != row.owned
      modifies this`machines
      ensures machines == old(machines).Insert(row) && id == old(machines).next
    {
      id := machines.next;
      machines := machines.Insert(row);
    }

    method CreateInventory(row: Item) returns (id: nat)
      requires forall i | i in inventory.rows && row.owned.Some? :: inventory.rows[i].owned != row.owned
      modifies this`inventory
      ensures inventory == old(inventory).Insert(row) && id == old(inventory).next
    {
      id := inventory.next;
      inventory := inventory.Insert(row);
    }

    method CreateVault(row: Item) returns (id: nat)
      requires forall i | i in vault.rows && row.owned.Some? :: vault.rows[i].owned != row.owned
      modifies this`vault
      ensures vault == old(vault).Insert(row) && id == old(vault).next
    {
      id := vault.next;
      vault := vault.Insert(row);
    }

    method CreateOwned(row: OwnedRow) returns (id: nat)
      modifies this`owned
      ensures owned == old(owned).Insert(row) && id == old(owned).next
    {
      id := owned.next;
      owned := owned.Insert(row);
    }

    /** The owned row exists, and no other item has it. */
    method LinkItem(item: nat, o: nat)
      requires item in inventory.rows && o in owned.rows
      requires forall i | i in inventory.rows && i != item :: inventory.rows[i].owned != Some(o)
      modifies this`inventory
      ensures inventory == old(inventory).Update(item, old(inventory).rows[item].(owned := Some(o)))
    {
      inventory := inventory.Update(item, inventory.rows[item].(owned := Some(o)));
    }

    method LinkMachine(m: nat, o: nat)
      requires m in machines.rows && o in owned.rows
      requires forall i | i in machines.rows && i != m :: machines.rows[i].owned != Some(o)
      modifies this`machines
      ensures machines == old(machines).Update(m, old(machines).rows[m].(owned := Some(o)))
    {
      machines := machines.Update(m, machines.rows[m].(owned := Some(o)));
    }

    method LinkVault(item: nat, o: nat)
      requires item in vault.rows && o in owned.rows
      requires forall i | i in vault.rows && i != item :: vault.rows[i].owned != Some(o)
      modifies this`vault
      ensures vault == old(vault).Update(item, old(vault).rows[item].(owned := Some(o)))
    {
      vault := vault.Update(item, vault.rows[item].(owned := Some(o)));
    }

    /** Unique per user and slot. */
    method SetSlot(m: nat, slot: int)
      requires m in machines.rows && SlotFree(machines.rows, machines.rows[m].user, slot, Some(m))
      modifies this`machines
      ensures machines == old(machines).Update(m, old(machines).rows[m].(slot := slot))
    {
      machines := machines.Update(m, machines.rows[m].(slot := slot));
    }

    /** Unique per user and number. */
    method CreateRoom(row: Room) returns (id: nat)
      requires forall r | r in rooms.rows && rooms.rows[r].user == row.user :: rooms.rows[r].number != row.number
      modifies this`rooms
      ensures rooms == old(rooms).Insert(row) && id == old(rooms).next
    {
      id := rooms.next;
      rooms := rooms.Insert(row);
    }

    /** In an existing room; unique per room and position. */
    method CreateRack(row: Rack)
      requires row.room in rooms.rows
      requires forall r | r in racks.rows && racks.rows[r].room == row.room :: racks.rows[r].position != row.position
      modifies this`racks
      ensures racks == old(racks).Insert(row)
    {
      racks := racks.Insert(row);
    }

    /** The host exists, and no other rack has it. */
    method SetHost(rack: nat, m: nat)
      requires rack in racks.rows && m in machines.rows
      requires forall r | r in racks.rows && r != rack :: racks.rows[r].host != Some(m)
      modifies this`racks
      ensures racks == old(racks).Update(rack, old(racks).rows[rack].(host := Some(m)))
    {
      racks := racks.Update(rack, racks.rows[rack].(host := Some(m)));
    }

    /** A row still linked to may not be deleted. */
    method DeleteOwned(id: nat)
      requires id in owned.rows
      requires forall c: Child | Live(View(), c) :: Link(View(), c) != Some(id)
      modifies this`owned
      ensures owned == old(owned).Delete(id)
    {
      owned := owned.Delete(id);
    }

    method SyncOwned(id: nat, location: Location, spec: Spec)
      requires id in owned.rows
      modifies this`owned
      ensures owned == old(owned).Update(id, OwnedRow(old(owned).rows[id].user, location, spec))
    {
      owned := owned.Update(id, owned.rows[id].(location := location, spec := spec));
    }

    // ---- Shared by the controllers ----

    method EnsureOwnedForItem(item: nat) returns (o: nat)
      requires item in inventory.rows && forall i | i in inventory.rows :: inventory.rows[i].owned != Some(owned.next)
      modifies this`owned, this`inventory
      ensures var row := old(inventory).rows[item];
              && o == (if row.owned.Some? then row.owned.value else old(owned).next)
              && owned == (if row.owned.Some? then old(owned)
                   else old(owned).Insert(OwnedRow(row.user, INVENTORY, row.spec)))
              && inventory == old(inventory).Update(item, row.(owned := Some(o)))
    {
      var row := inventory.rows[item];
      if row.owned.Some? {
        o := row.owned.value;
        assert inventory.rows == inventory.rows[item := row.(owned := Some(o))];
        return;
      }
      o := CreateOwned(OwnedRow(row.user, INVENTORY, row.spec));
      LinkItem(item, o);
    }

    method EnsureOwnedForMachine(m: nat) returns (o: nat)
      requires m in machines.rows && forall i | i in machines.rows :: machines.rows[i].owned != Some(owned.next)
      modifies this`owned, this`machines
      ensures var row := old(machines).rows[m];
              && o == (if row.owned.Some? then row.owned.value else old(owned).next)
              && owned == (if row.owned.Some? then old(owned)
                   else old(owned).Insert(OwnedRow(row.user, RACK, row.spec)))
              && machines == old(machines).Update(m, row.(owned := Some(o)))
    {
      var row := machines.rows[m];
      if row.owned.Some? {
        o := row.owned.value;
        assert machines.rows == machines.rows[m := row.(owned := Some(o))];
        return;
      }
      o := CreateOwned(OwnedRow(row.user, RACK, row.spec));
      LinkMachine(m, o);
    }

    method EnsureOwnedForVault(item: nat) returns (o: nat)
      requires item in vault.rows && forall i | i in vault.rows :: vault.rows[i].owned != Some(owned.next)
      modifies this`owned, this`vault
      ensures var row := old(vault).rows[item];
              && o == (if row.owned.Some? then row.owned.value else old(owned).next)
              && owned == (if row.owned.Some? then old(owned)
                   else old(owned).Insert(OwnedRow(row.user, WAREHOUSE, row.spec)))
              && vault == old(vault).Update(item, row.(owned := Some(o)))
    {
      var row := vault.rows[item];
      if row.owned.Some? {
        o := row.owned.value;
        assert vault.rows == vault.rows[item := row.(owned := Some(o))];
        return;
      }
      o := CreateOwned(OwnedRow(row.user, WAREHOUSE, row.spec));
      LinkVault(item, o);
    }

    method CreateInventoryWithOwned(user: nat, spec: Spec)
      requires LinksOk(View()) && owned.Fresh()
      modifies this`owned, this`inventory
      ensures View() == GrantOne(old(View()), user, spec)
    {
      var o := CreateOwned(OwnedRow(user, INVENTORY, spec));
      NextUnlinked(old(View()));
      var _ := CreateInventory(Item(user, spec, Some(o)));
    }

    method ReleaseFromRacks(m: nat)
      modifies this`racks
      ensures racks == Release(old(racks), m)
    {
      racks := Table(map r | r in racks.rows ::
        racks.rows[r].(host := if racks.rows[r].host == Some(m) then None else racks.rows[r].host), racks.next);
      racks := Table(map r | r in racks.rows ::
        racks.rows[r].(blockedBy := if racks.rows[r].blockedBy == Some(m) then None else racks.rows[r].blockedBy),
          racks.next);
      assert racks.rows == Release(old(racks), m).rows;
    }

    /** Ids of `user`'s machines, other than `except`, that start on one of `size` slots from `slot`, in some order. */
    method FindStartingIn(user: nat, slot: int, size: int, except: Option<nat>) returns (found: seq<nat>)
      ensures Enumerates(found, StartingIn(machines.rows, user, slot, size, except))
    {
      found := [];
      var rest := machines.rows.Keys;
      while rest != {}
        invariant rest <= machines.rows.Keys
        invariant forall i, j | 0 <= i < j < |found| :: found[i] != found[j]
        invariant forall m :: m in found <==> m in StartingIn(machines.rows, user, slot, size, except) && m !in rest
        decreases rest
      {
        var m :| m in rest;
        if machines.rows[m].user == user && slot <= machines.rows[m].slot < slot + size && except != Some(m) {
          found := found + [m];
        }
        rest := rest - {m};
      }
    }

    /** Sends the given machines to the inventory, one after the other. */
    method EvictRows(rows: seq<nat>)
      requires Valid()
      requires forall m | m in rows :: m in machines.rows
      requires forall i, j | 0 <= i < j < |rows| :: rows[i] != rows[j]
      modifies this
      ensures View() == EvictAll(old(View()), rows) && Valid()
    {
      for i := 0 to |rows|
        invariant Valid()
        invariant View() == EvictAll(old(View()), rows[..i])
      {
        assert rows[..i + 1][..i] == rows[..i];
        EvictAllRows(old(View()), rows[..i]);
        EvictKeeps(View(), rows[i]);
        EvictRow(rows[i]);
      }
      assert rows[..|rows|] == rows;
    }

    method EvictRow(m: nat)
      requires LinksOk(View()) && owned.Fresh() && m in machines.rows
      modifies this
      ensures View() == Evict(old(View()), m)
    {
      var row := machines.rows[m];
      ReleaseFromRacks(m);
      Unlinked(old(View()), View());
      CreateInventoryWithOwned(row.user, row.spec);
      machines := machines.Delete(m);
    }

    /** The double on the slot before an odd slot, if there is one. */
    method FindPreviousDouble(user: nat, slot: int, except: Option<nat>) returns (found: seq<nat>)
      requires Valid()
      ensures Enumerates(found, PreviousDoubles(machines.rows, user, slot, except))
    {
      found := [];
      if slot % 2 == 1 {
        var before := FindStartingIn(user, slot - 1, 1, except);
        assert |before| > 0 ==> before[0] in before;
        if |before| > 0 && machines.rows[before[0]].spec.slotSize == 2 {
          found := [before[0]];
        }
        forall m | m in PreviousDoubles(machines.rows, user, slot, except) ensures m in found {
          assert m in before && before[0] in StartingIn(machines.rows, user, slot - 1, 1, except);
        }
      }
    }

    /** For a slot below 80 the answer says whether the range is aligned and nobody's machine covers any of it. */
    method CheckSlotAvailability(user: nat, slot: nat, needed: nat) returns (free: bool)
      requires Valid()
      ensures free == SlotAvailable(machines.rows, user, slot, needed)
      ensures slot < GRID_SLOTS && needed >= 1 ==>
                (free <==>
                  && (needed == 2 ==> slot % 2 == 0)
                  && (forall m, k | m in machines.rows && machines.rows[m].user == user && slot <= k < slot + needed ::
                        !Covers(machines.rows[m], k)))
    {
      if slot < GRID_SLOTS && needed >= 1 { SlotAvailableExactly(View(), user, slot, needed); }
      if needed == 2 && slot % 2 != 0 { return false; }
      var found := FindStartingIn(user, slot, needed, None);
      if found != [] {
        assert found[0] in StartingIn(machines.rows, user, slot, needed, None);
        return false;
      }
      NoneFound(StartingIn(machines.rows, user, slot, needed, None));
      var double := FindPreviousDouble(user, slot, None);
      if double != [] {
        assert double[0] in PreviousDoubles(machines.rows, user, slot, None);
        return false;
      }
      NoneFound(PreviousDoubles(machines.rows, user, slot, None));
      return true;
    }

    /** Evicts what starts on the target slots, then a double on the slot before an odd one. */
    method ClearTarget(user: nat, slot: int, size: int, except: Option<nat>)
      returns (order: seq<nat>, previous: seq<nat>)
      requires Valid()
      modifies this
      ensures Enumerates(order, StartingIn(old(machines).rows, user, slot, size, except))
      ensures Enumerates(previous, PreviousDoubles(EvictAll(old(View()), order).machines.rows, user, slot, except))
      ensures View() == MakeRoom(old(View()), order, previous) && Valid()
      ensures machines.rows == Cleared(old(machines).rows, user, slot, size, except)
    {
      order := FindStartingIn(user, slot, size, except);
      EvictRows(order);
      previous := FindPreviousDouble(user, slot, except);
      EvictRows(previous);
      MakeRoomClears(old(View()), user, slot, size, except, order, previous);
    }

    // ---- Controllers ----

    method InstallInventoryItem(user: nat, slot: int, item: nat)
      returns (reply: Reply, ghost order: seq<nat>, ghost previous: seq<nat>)
      requires Valid()
      modifies this
      ensures reply == Answer(old(View()), Install(user, slot, item, order, previous))
      ensures Orderly(old(View()), Install(user, slot, item, order, previous))
      ensures View() == Apply(old(View()), Install(user, slot, item, order, previous)) && Valid()
    {
      order, previous := [], [];
      if !(0 <= slot < GRID_SLOTS) { return InvalidSlot, order, previous; }
      if item !in inventory.rows || inventory.rows[item].user != user { return NotFound, order, previous; }
      var row := inventory.rows[item];
      var slotSize := if row.spec.slotSize == 0 then 1 else row.spec.slotSize;
      if slotSize == 2 && slot % 2 != 0 { return OddSlot, order, previous; }
      ghost var before := View();
      order, previous := ClearTarget(user, slot, slotSize, None);
      ApplyKeeps(before, Install(user, slot, item, order, previous));
      MakeRoomKeeps(before, order, previous);
      ClearedFree(before.machines.rows, user, slot, slotSize, None);
      PlaceItem(item, slot, slotSize);
      reply := Done;
    }

    /** Inventory row to installed machine: link, create, sync, delete. */
    method PlaceItem(item: nat, slot: int, slotSize: int)
      requires LinksOk(View()) && owned.Fresh() && item in inventory.rows
      requires SlotFree(machines.rows, inventory.rows[item].user, slot, None)
      modifies this
      ensures View() == ItemToMachine(old(View()), item, slot, old(inventory).rows[item].spec.(slotSize := slotSize))
    {
      var row := inventory.rows[item];
      LinksApart(View(), InInventory(item));
      MachineLinks(View());
      NextUnlinked(View());
      var o := EnsureOwnedForItem(item);
      var _ := CreateMachine(Machine(row.user, slot, row.spec.(slotSize := slotSize), Some(o)));
      SyncOwned(o, RACK, row.spec);
      RehomedByStatements(old(owned), row.user, row.owned, INVENTORY, RACK, row.spec);
      inventory := inventory.Delete(item);
      assert inventory.rows == old(inventory).rows - {item};
    }

    method PlaceVaultItem(item: nat, slot: int, slotSize: int)
      requires LinksOk(View()) && owned.Fresh() && item in vault.rows
      requires SlotFree(machines.rows, vault.rows[item].user, slot, None)
      modifies this
      ensures View() == VaultToMachine(old(View()), item, slot, old(vault).rows[item].spec.(slotSize := slotSize))
    {
      var row := vault.rows[item];
      LinksApart(View(), InVault(item));
      MachineLinks(View());
      NextUnlinked(View());
      var o := EnsureOwnedForVault(item);
      var _ := CreateMachine(Machine(row.user, slot, row.spec.(slotSize := slotSize), Some(o)));
      SyncOwned(o, RACK, row.spec);
      RehomedByStatements(old(owned), row.user, row.owned, WAREHOUSE, RACK, row.spec);
      vault := vault.Delete(item);
      assert vault.rows == old(vault).rows - {item};
    }

    /** Installed machine to inventory, its racks being free already. */
    method ReturnMachine(m: nat, ghost before: Store)
      requires LinksOk(before) && owned.Fresh() && m in before.machines.rows
      requires View() == before.(racks := Release(before.racks, m))
      modifies this
      ensures View() == MachineToInventory(before, m)
    {
      var row := machines.rows[m];
      LinksApart(before, InRack(m));
      ItemLinks(before);
      NextUnlinked(before);
      var o := EnsureOwnedForMachine(m);
      var _ := CreateInventory(Item(row.user, row.spec, Some(o)));
      SyncOwned(o, INVENTORY, row.spec);
      RehomedByStatements(before.owned, row.user, row.owned, RACK, INVENTORY, row.spec);
      machines := machines.Delete(m);
      assert machines.rows == before.machines.rows - {m};
    }

    method ShelveMachine(m: nat)
      requires LinksOk(View()) && owned.Fresh() && m in machines.rows
      modifies this
      ensures View() == MachineToVault(old(View()), m)
    {
      var row := machines.rows[m];
      LinksApart(View(), InRack(m));
      VaultLinks(View());
      NextUnlinked(View());
      var o := EnsureOwnedForMachine(m);
      ReleaseFromRacks(m);
      var _ := CreateVault(Item(row.user, row.spec, Some(o)));
      SyncOwned(o, WAREHOUSE, row.spec);
      RehomedByStatements(old(owned), row.user, row.owned, RACK, WAREHOUSE, row.spec);
      machines := machines.Delete(m);
      assert machines.rows == old(machines).rows - {m};
    }

    method ShelveItem(item: nat)
      requires LinksOk(View()) && owned.Fresh() && item in inventory.rows
      modifies this
      ensures View() == ItemToVault(old(View()), item)
    {
      var row := inventory.rows[item];
      LinksApart(View(), InInventory(item));
      VaultLinks(View());
      NextUnlinked(View());
      var o := EnsureOwnedForItem(item);
      var _ := CreateVault(Item(row.user, row.spec, Some(o)));
      SyncOwned(o, WAREHOUSE, row.spec);
      RehomedByStatements(old(owned), row.user, row.owned, INVENTORY, WAREHOUSE, row.spec);
      inventory := inventory.Delete(item);
      assert inventory.rows == old(inventory).rows - {item};
    }

    method UnshelveItem(item: nat)
      requires LinksOk(View()) && owned.Fresh() && item in vault.rows
      modifies this
      ensures View() == VaultToItem(old(View()), item)
    {
      var row := vault.rows[item];
      LinksApart(View(), InVault(item));
      ItemLinks(View());
      NextUnlinked(View());
      var o := EnsureOwnedForVault(item);
      var _ := CreateInventory(Item(row.user, row.spec, Some(o)));
      SyncOwned(o, INVENTORY, row.spec);
      RehomedByStatements(old(owned), row.user, row.owned, WAREHOUSE, INVENTORY, row.spec);
      vault := vault.Delete(item);
      assert vault.rows == old(vault).rows - {item};
    }

    method AddRacksToRoom(user: nat, room: nat)
      requires room in rooms.rows && forall r | r in racks.rows :: racks.rows[r].room != room
      modifies this`racks
      ensures racks == AddRacks(old(racks), user, room, cfg.racksPerRoom)
    {
      for i := 0 to cfg.racksPerRoom
        invariant racks == AddRacks(old(racks), user, room, i)
        invariant forall r | r in racks.rows && racks.rows[r].room == room :: racks.rows[r].position < i
      {
        CreateRack(Rack(user, room, i, None, None));
      }
    }

    /** Host pointer, then block pointer. */
    method OccupyRacks(rack: nat, adjacent: Option<nat>, m: nat)
      requires rack in racks.rows && (adjacent.Some? ==> adjacent.value in racks.rows)
      requires m in machines.rows && forall r | r in racks.rows :: racks.rows[r].host != Some(m)
      modifies this`racks
      ensures racks == Occupy(old(racks), rack, if adjacent.Some? then {adjacent.value} else {}, m)
    {
      SetHost(rack, m);
      if adjacent.Some? {
        racks := racks.Update(adjacent.value, racks.rows[adjacent.value].(blockedBy := Some(m)));
      }
      assert racks.rows == Occupy(old(racks), rack, if adjacent.Some? then {adjacent.value} else {}, m).rows;
    }

    /** Only this room's racks are searched for block pointers: by the invariant there are no others. */
    method ReleaseInRoom(rack: nat, m: nat)
      requires rack in racks.rows
      requires forall r | r in racks.rows :: racks.rows[r].host == Some(m) <==> r == rack
      requires forall r | r in racks.rows && racks.rows[r].blockedBy == Some(m) ::
                racks.rows[r].room == racks.rows[rack].room
      modifies this`racks
      ensures racks == Release(old(racks), m)
    {
      var row := racks.rows[rack];
      racks := racks.Update(rack, row.(host := None));
      racks := Table(map r | r in racks.rows ::
        racks.rows[r].(blockedBy :=
          if racks.rows[r].room == row.room && racks.rows[r].blockedBy == Some(m) then None
          else racks.rows[r].blockedBy), racks.next);
      assert racks.rows == Release(old(racks), m).rows;
    }

    method BulkCreateInventoryWithOwned(user: nat, template: Spec, quantity: nat)
      requires Valid()
      modifies this
      ensures View() == Apply(old(View()), Grant(user, template, quantity)) && Valid()
    {
      var spec := if 1 <= template.slotSize <= 2 then template else template.(slotSize := 1);
      for i := 0 to quantity
        invariant Valid() && View() == GrantMany(old(View()), user, spec, i)
      {
        GrantOneKeeps(View(), user, spec);
        CreateInventoryWithOwned(user, spec);
      }
    }

    method RemoveInventoryItem(user: nat, item: nat) returns (reply: Reply)
      requires Valid()
      modifies this
      ensures reply == Answer(old(View()), Discard(user, item))
      ensures View() == Apply(old(View()), Discard(user, item)) && Valid()
    {
      if item !in inventory.rows || inventory.rows[item].user != user { return NotFound; }
      ApplyKeeps(View(), Discard(user, item));
      var link := inventory.rows[item].owned;
      assert Live(View(), InInventory(item));
      inventory := inventory.Delete(item);
      if link.Some? {
        forall c: Child | Live(View(), c) ensures Link(View(), c) != link {
          assert Live(old(View()), c) && Link(old(View()), c) == Link(View(), c);
        }
        DeleteOwned(link.value);
      }
      reply := Done;
    }

    method MoveMachine(user: nat, machine: nat, slot: int)
      returns (reply: Reply, ghost order: seq<nat>, ghost previous: seq<nat>)
      requires Valid()
      modifies this
      ensures reply == Answer(old(View()), Move(user, machine, slot, order, previous))
      ensures Orderly(old(View()), Move(user, machine, slot, order, previous))
      ensures View() == Apply(old(View()), Move(user, machine, slot, order, previous)) && Valid()
    {
      order, previous := [], [];
      if !(0 <= slot < GRID_SLOTS) { return InvalidSlot, order, previous; }
      if machine !in machines.rows || machines.rows[machine].user != user { return NotFound, order, previous; }
      var size := machines.rows[machine].spec.slotSize;
      if size == 2 && slot % 2 != 0 { return OddSlot, order, previous; }
      ghost var before := View();
      order, previous := ClearTarget(user, slot, size, Some(machine));
      ApplyKeeps(before, Move(user, machine, slot, order, previous));
      ClearedFree(before.machines.rows, user, slot, size, Some(machine));
      SetSlot(machine, slot);
      reply := Done;
    }

    method RemoveMachine(user: nat, machine: nat) returns (reply: Reply)
      requires Valid()
      modifies this
      ensures reply == Answer(old(View()), Remove(user, machine))
      ensures View() == Apply(old(View()), Remove(user, machine)) && Valid()
    {
      if machine !in machines.rows || machines.rows[machine].user != user { return NotFound; }
      MachineToInventoryKeeps(View(), machine);
      ReleaseFromRacks(machine);
      ReturnMachine(machine, old(View()));
      reply := Done;
    }

    method BuyNextRoom(user: nat) returns (reply: Reply)
      requires Valid()
      modifies this
      ensures reply == Answer(old(View()), BuyRoom(user))
      ensures View() == Apply(old(View()), BuyRoom(user)) && Valid()
    {
      var existing := set r | r in rooms.rows && rooms.rows[r].user == user;
      var nextRoom := |existing| + 1;
      assert existing == UserRooms(rooms.rows, user);
      if nextRoom > cfg.roomMax { return MaxRooms; }
      var price := if nextRoom - 1 < |cfg.prices| then cfg.prices[nextRoom - 1] else Some(0.0);
      if price.None? || price.value < 0.0 { return InvalidPrice; }
      if user !in balance { return UserNotFound; }
      if balance[user] < price.value { return InsufficientBalance; }
      AddRoomKeeps(View(), user, price.value);
      OpenRoom(user, nextRoom, price.value);
      reply := Done;
    }

    method OpenRoom(user: nat, number: nat, price: real)
      requires user in balance && number == |UserRooms(rooms.rows, user)| + 1
      requires RoomsOk(rooms.rows) && RacksPlaced(cfg, rooms.rows, racks.rows) && rooms.Fresh()
      modifies this
      ensures View() == AddRoom(old(View()), user, price)
    {
      if price > 0.0 {
        balance := balance[user := balance[user] - price];
      }
      var room := CreateRoom(Room(user, number, price));
      AddRacksToRoom(user, room);
    }

    /** The checks of a room install, and the rack beside for a double. */
    method CheckRoomInstall(user: nat, rack: nat, item: nat) returns (reply: Reply, adjacent: Option<nat>)
      requires RacksPlaced(cfg, rooms.rows, racks.rows)
      ensures reply == RoomInstallReply(View(), user, rack, item)
      ensures reply == Done ==>
                (if adjacent.Some? then {adjacent.value} else {}) ==
                  BlockedBeside(View(), rack, inventory.rows[item].spec.slotSize)
    {
      adjacent := None;
      if rack !in racks.rows || racks.rows[rack].user != user { return NotFound, None; }
      var row := racks.rows[rack];
      if row.host.Some? || row.blockedBy.Some? { return RackOccupied, None; }
      if item !in inventory.rows || inventory.rows[item].user != user { return NotFound, None; }
      var spec := inventory.rows[item].spec;
      var slotSize := if spec.slotSize == 0 then 1 else spec.slotSize;
      if slotSize >= 2 {
        var found := set r | r in racks.rows && racks.rows[r].room == row.room &&
          racks.rows[r].position == row.position + (slotSize - 1);
        assert found == RackAt(racks.rows, row.room, row.position + slotSize - 1);
        if found == {} { return NoSpace, None; }
        var a :| a in found;
        assert found == {a};
        if racks.rows[a].host.Some? || racks.rows[a].blockedBy.Some? { return AdjacentRackOccupied, None; }
        adjacent := Some(a);
      }
      reply := Done;
    }

    method InstallMiner(user: nat, rack: nat, item: nat) returns (reply: Reply)
      requires Valid()
      modifies this
      ensures reply == Answer(old(View()), RoomInstall(user, rack, item))
      ensures View() == Apply(old(View()), RoomInstall(user, rack, item)) && Valid()
    {
      var adjacent;
      reply, adjacent := CheckRoomInstall(user, rack, item);
      if reply != Done { return; }
      InstallInRoomKeeps(View(), user, rack, item);
      FillRack(user, rack, item, adjacent);
    }

    method FillRack(user: nat, rack: nat, item: nat, adjacent: Option<nat>)
      requires Valid() && RoomInstallReply(View(), user, rack, item) == Done
      requires (if adjacent.Some? then {adjacent.value} else {}) ==
                BlockedBeside(View(), rack, inventory.rows[item].spec.slotSize)
      modifies this
      ensures View() == InstallInRoom(old(View()), rack, item)
    {
      var slot := RackSlotIndex(cfg, rooms.rows[racks.rows[rack].room].number, racks.rows[rack].position);
      forall m | m in machines.rows && machines.rows[m].user == user ensures machines.rows[m].slot != slot {
        FreeRackSlotFree(View(), rack, m);
      }
      assert adjacent.Some? ==> adjacent.value in BlockedBeside(View(), rack, inventory.rows[item].spec.slotSize);
      var m := machines.next;
      forall r | r in racks.rows ensures racks.rows[r].host != Some(m) {
        NoPointersToNew(View(), r);
      }
      PlaceItem(item, slot, inventory.rows[item].spec.slotSize);
      OccupyRacks(rack, adjacent, m);
    }

    method UninstallMiner(user: nat, rack: nat) returns (reply: Reply)
      requires Valid()
      modifies this
      ensures reply == Answer(old(View()), RoomUninstall(user, rack))
      ensures View() == Apply(old(View()), RoomUninstall(user, rack)) && Valid()
    {
      if rack !in racks.rows || racks.rows[rack].user != user { return NotFound; }
      var row := racks.rows[rack];
      if row.host.None? || row.host.value !in machines.rows { return RackEmpty; }
      var m := row.host.value;
      MachineToInventoryKeeps(View(), m);
      SameRelease(View(), rack);
      ReleaseInRoom(rack, m);
      ReturnMachine(m, old(View()));
      reply := Done;
    }

    method StoreInventoryItem(user: nat, item: nat) returns (reply: Reply)
      requires Valid()
      modifies this
      ensures reply == Answer(old(View()), StoreItem(user, item))
      ensures View() == Apply(old(View()), StoreItem(user, item)) && Valid()
    {
      if item !in inventory.rows || inventory.rows[item].user != user { return NotFound; }
      ItemToVaultKeeps(View(), item);
      ShelveItem(item);
      reply := Done;
    }

    method StoreInstalledMachine(user: nat, machine: nat) returns (reply: Reply)
      requires Valid()
      modifies this
      ensures reply == Answer(old(View()), StoreMachine(user, machine))
      ensures View() == Apply(old(View()), StoreMachine(user, machine)) && Valid()
    {
      if machine !in machines.rows || machines.rows[machine].user != user { return NotFound; }
      MachineToVaultKeeps(View(), machine);
      ShelveMachine(machine);
      reply := Done;
    }

    method RetrieveToInventory(user: nat, item: nat) returns (reply: Reply)
      requires Valid()
      modifies this
      ensures reply == Answer(old(View()), RetrieveItem(user, item))
      ensures View() == Apply(old(View()), RetrieveItem(user, item)) && Valid()
    {
      if item !in vault.rows || vault.rows[item].user != user { return NotFound; }
      VaultToItemKeeps(View(), item);
      UnshelveItem(item);
      reply := Done;
    }

    /** Overlapping machines are evicted; the slot before an odd target is not looked at. */
    method RetrieveToSlot(user: nat, item: nat, slot: int) returns (reply: Reply, ghost order: seq<nat>)
      requires Valid()
      modifies this
      ensures reply == Answer(old(View()), RetrieveToRack(user, item, slot, order))
      ensures Orderly(old(View()), RetrieveToRack(user, item, slot, order))
      ensures View() == Apply(old(View()), RetrieveToRack(user, item, slot, order)) && Valid()
    {
      order := [];
      if item !in vault.rows || vault.rows[item].user != user { return NotFound, order; }
      if !(0 <= slot < GRID_SLOTS) { return InvalidSlot, order; }
      var row := vault.rows[item];
      var slotSize := if row.spec.slotSize == 0 then 1 else row.spec.slotSize;
      if slotSize == 2 && slot % 2 != 0 { return OddSlot, order; }
      var existing := FindStartingIn(user, slot, slotSize, None);
      order := existing;
      ghost var before := View();
      EvictRows(existing);
      EvictAllRows(before, order);
      ApplyKeeps(before, RetrieveToRack(user, item, slot, order));
      PlaceVaultItem(item, slot, slotSize);
      reply := Done;
    }
  }

  // ---- Facts the statements' constraints follow from ----

  lemma {:induction false} LinksApart(s: Store, c: Child)
    requires LinksOk(s) && s.owned.Fresh() && Live(s, c)
    ensures Link(s, c).Some? ==> Link(s, c).value in s.owned.rows
    ensures forall d: Child | Live(s, d) && d != c && Link(s, d).Some? :: Link(s, d) != Link(s, c)
  {
  }

  lemma {:induction false} MachineLinks(s: Store)
    requires LinksOk(s) && s.owned.Fresh()
    ensures forall m | m in s.machines.rows && s.machines.rows[m].owned.Some? ::
              s.machines.rows[m].owned.value < s.owned.next
    ensures forall m, d: Child | m in s.machines.rows && Live(s, d) && d != InRack(m) && Link(s, d).Some? ::
              s.machines.rows[m].owned != Link(s, d)
  {
    forall m | m in s.machines.rows && s.machines.rows[m].owned.Some?
      ensures s.machines.rows[m].owned.value < s.owned.next
    {
      assert Live(s, InRack(m));
    }
    forall m, d: Child | m in s.machines.rows && Live(s, d) && d != InRack(m) && Link(s, d).Some?
      ensures s.machines.rows[m].owned != Link(s, d)
    {
      assert Live(s, InRack(m));
    }
  }

  /** The next owned row's id is not linked to yet. */
  lemma {:induction false} NextUnlinked(s: Store)
    requires LinksOk(s) && s.owned.Fresh()
    ensures forall i | i in s.inventory.rows :: s.inventory.rows[i].owned != Some(s.owned.next)
    ensures forall i | i in s.machines.rows :: s.machines.rows[i].owned != Some(s.owned.next)
    ensures forall i | i in s.vault.rows :: s.vault.rows[i].owned != Some(s.owned.next)
  {
    forall c: Child | Live(s, c) ensures Link(s, c) != Some(s.owned.next) {
      assert s.owned.next !in s.owned.rows;
    }
    forall i | i in s.inventory.rows ensures s.inventory.rows[i].owned != Some(s.owned.next) {
      assert Live(s, InInventory(i));
    }
    forall i | i in s.machines.rows ensures s.machines.rows[i].owned != Some(s.owned.next) {
      assert Live(s, InRack(i));
    }
    forall i | i in s.vault.rows ensures s.vault.rows[i].owned != Some(s.owned.next) {
      assert Live(s, InVault(i));
    }
  }

  lemma {:induction false} ItemLinks(s: Store)
    requires LinksOk(s) && s.owned.Fresh()
    ensures forall i | i in s.inventory.rows && s.inventory.rows[i].owned.Some? ::
              s.inventory.rows[i].owned.value < s.owned.next
    ensures forall i, d: Child | i in s.inventory.rows && Live(s, d) && d != InInventory(i) && Link(s, d).Some? ::
              s.inventory.rows[i].owned != Link(s, d)
  {
    forall i | i in s.inventory.rows && s.inventory.rows[i].owned.Some?
      ensures s.inventory.rows[i].owned.value < s.owned.next
    {
      assert Live(s, InInventory(i));
    }
    forall i, d: Child | i in s.inventory.rows && Live(s, d) && d != InInventory(i) && Link(s, d).Some?
      ensures s.inventory.rows[i].owned != Link(s, d)
    {
      assert Live(s, InInventory(i));
    }
  }

  lemma {:induction false} VaultLinks(s: Store)
    requires LinksOk(s) && s.owned.Fresh()
    ensures forall i | i in s.vault.rows && s.vault.rows[i].owned.Some? :: s.vault.rows[i].owned.value < s.owned.next
    ensures forall i, d: Child | i in s.vault.rows && Live(s, d) && d != InVault(i) && Link(s, d).Some? ::
              s.vault.rows[i].owned != Link(s, d)
  {
    forall i | i in s.vault.rows && s.vault.rows[i].owned.Some? ensures s.vault.rows[i].owned.value < s.owned.next {
      assert Live(s, InVault(i));
    }
    forall i, d: Child | i in s.vault.rows && Live(s, d) && d != InVault(i) && Link(s, d).Some?
      ensures s.vault.rows[i].owned != Link(s, d)
    {
      assert Live(s, InVault(i));
    }
  }

  /** Ensuring a link and then syncing the snapshot gives the owned table `Rehome` describes. */
  lemma {:induction false} RehomedByStatements(owned: Table<OwnedRow>, user: nat, link: Option<nat>, from: Location,
                                               to: Location, spec: Spec)
    requires link.Some? ==> link.value in owned.rows
    ensures var (t, o) := Rehome(owned, user, link, to, spec);
            var ensured := if link.Some? then owned else owned.Insert(OwnedRow(user, from, spec));
            o in ensured.rows && ensured.Update(o, OwnedRow(ensured.rows[o].user, to, spec)) == t
  {
    if link.None? {
      assert owned.rows[owned.next := OwnedRow(user, from, spec)][owned.next := OwnedRow(user, to, spec)]
          == owned.rows[owned.next := OwnedRow(user, to, spec)];
    }
  }

  /** Racks that name a hosted machine are its host and racks of the same room. */
  lemma {:induction false} SameRelease(s: Store, rack: nat)
    requires Inv(s) && rack in s.racks.rows && s.racks.rows[rack].host.Some?
    ensures forall r | r in s.racks.rows && s.racks.rows[r].host == s.racks.rows[rack].host :: r == rack
    ensures forall r | r in s.racks.rows && s.racks.rows[r].blockedBy == s.racks.rows[rack].host ::
              r != rack && s.racks.rows[r].room == s.racks.rows[rack].room
  {
    forall r | r in s.racks.rows && s.racks.rows[r].blockedBy == s.racks.rows[rack].host
      ensures r != rack && s.racks.rows[r].room == s.racks.rows[rack].room
    {
      assert BlockOk(s.racks.rows, s.machines.rows, r);
      assert HostOk(s.cfg, s.rooms.rows, s.racks.rows, s.machines.rows, r);
    }
  }
}
