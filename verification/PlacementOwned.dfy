/** Owned rows: where each request sends one, and which are left without a machine. */
module PlacementOwned {
  import opened Tables
  import opened PlacementModel
  import opened PlacementInvariants
  import opened PlacementLinks
  import opened PlacementRacks
  import opened PlacementSteps

  // ---- Where an owned row goes ----

  /** What a request does to the owned row that `link` names; it does nothing to any other existing one. */
  datatype Travel =
    | Stays
    | Goes(link: Option<nat>, from: Location, to: Location)
    | Gone(link: Option<nat>)

  function TravelOf(s: Store, op: Op): Travel
    requires Answer(s, op) == Done
  {
    match op
    case Grant(_, _, _) => Stays
    case Discard(user, item) => Gone(s.inventory.rows[item].owned)
    case Install(user, slot, item, _, _) => Goes(s.inventory.rows[item].owned, INVENTORY, RACK)
    case Move(_, _, _, _, _) => Stays
    case Remove(user, machine) => Goes(s.machines.rows[machine].owned, RACK, INVENTORY)
    case BuyRoom(_) => Stays
    case RoomInstall(user, rack, item) => Goes(s.inventory.rows[item].owned, INVENTORY, RACK)
    case RoomUninstall(user, rack) => Goes(s.machines.rows[s.racks.rows[rack].host.value].owned, RACK, INVENTORY)
    case StoreItem(user, item) => Goes(s.inventory.rows[item].owned, INVENTORY, WAREHOUSE)
    case StoreMachine(user, machine) => Goes(s.machines.rows[machine].owned, RACK, WAREHOUSE)
    case RetrieveItem(user, item) => Goes(s.vault.rows[item].owned, WAREHOUSE, INVENTORY)
    case RetrieveToRack(user, item, _, _) => Goes(s.vault.rows[item].owned, WAREHOUSE, RACK)
  }

  /** Row `o` is at `from` before and, otherwise unchanged, at `to` after. */
  ghost predicate Moves(before: map<nat, OwnedRow>, after: map<nat, OwnedRow>, o: nat, from: Location, to: Location)
    requires o in before
  {
    before[o].location == from && o in after && after[o] == before[o].(location := to)
  }

  ghost predicate Kept(before: map<nat, OwnedRow>, after: map<nat, OwnedRow>, o: nat)
    requires o in before
  {
    o in after && after[o] == before[o]
  }

  ghost predicate Obeys(before: map<nat, OwnedRow>, after: map<nat, OwnedRow>, t: Travel, o: nat)
    requires o in before
  {
    match t
    case Stays => Kept(before, after, o)
    case Goes(link, from, to) => if link == Some(o) then Moves(before, after, o, from, to) else Kept(before, after, o)
    case Gone(link) => if link == Some(o) then o !in after else Kept(before, after, o)
  }

  ghost predicate Travelled(before: map<nat, OwnedRow>, after: map<nat, OwnedRow>, t: Travel) {
    forall o | o in before :: Obeys(before, after, t, o)
  }

  ghost predicate AllKept(before: Table<OwnedRow>, after: Table<OwnedRow>) {
    after.Fresh() && forall o | o in before.rows :: Kept(before.rows, after.rows, o)
  }

  lemma {:induction false} EvictAllOwned(s: Store, order: seq<nat>)
    requires s.owned.Fresh()
    ensures AllKept(s.owned, EvictAll(s, order).owned)
  {
    if order != [] { EvictAllOwned(s, order[..|order| - 1]); }
  }

  lemma {:induction false} MakeRoomOwned(s: Store, order: seq<nat>, previous: seq<nat>)
    requires s.owned.Fresh()
    ensures AllKept(s.owned, MakeRoom(s, order, previous).owned)
  {
    EvictAllOwned(s, order);
    EvictAllOwned(EvictAll(s, order), previous);
  }

  lemma {:induction false} GrantManyOwned(s: Store, user: nat, spec: Spec, quantity: nat)
    requires s.owned.Fresh()
    ensures AllKept(s.owned, GrantMany(s, user, spec, quantity).owned)
  {
    if quantity > 0 { GrantManyOwned(s, user, spec, quantity - 1); }
  }

  /** Rehoming after other rows were added: the linked row moves, all others are kept. */
  lemma {:induction false} RehomeTravels(before: Table<OwnedRow>, owned: Table<OwnedRow>, user: nat, link: Option<nat>,
                                         from: Location, to: Location, spec: Spec)
    requires AllKept(before, owned)
    requires link.Some? ==> link.value in before.rows && before.rows[link.value] == OwnedRow(user, from, spec)
    ensures Travelled(before.rows, Rehome(owned, user, link, to, spec).0.rows, Goes(link, from, to))
  {
  }

  lemma {:induction false} ChildRow(s: Store, c: Child)
    requires LinksOk(s) && Live(s, c)
    ensures Link(s, c).Some? ==>
              Link(s, c).value in s.owned.rows && s.owned.rows[Link(s, c).value] == Snapshot(s, c)
  {
  }

  lemma {:induction false} ItemTravels(s: Store, t: Store, item: nat, to: Location)
    requires LinksOk(s) && item in s.inventory.rows && AllKept(s.owned, t.owned)
    ensures var row := s.inventory.rows[item];
            Travelled(s.owned.rows, Rehome(t.owned, row.user, row.owned, to, row.spec).0.rows,
                      Goes(row.owned, INVENTORY, to))
  {
    var row := s.inventory.rows[item];
    ChildRow(s, InInventory(item));
    RehomeTravels(s.owned, t.owned, row.user, row.owned, INVENTORY, to, row.spec);
  }

  lemma {:induction false} MachineTravels(s: Store, m: nat, to: Location)
    requires LinksOk(s) && s.owned.Fresh() && m in s.machines.rows
    ensures var row := s.machines.rows[m];
            Travelled(s.owned.rows, Rehome(s.owned, row.user, row.owned, to, row.spec).0.rows,
                      Goes(row.owned, RACK, to))
  {
    var row := s.machines.rows[m];
    ChildRow(s, InRack(m));
    RehomeTravels(s.owned, s.owned, row.user, row.owned, RACK, to, row.spec);
  }

  lemma {:induction false} VaultTravels(s: Store, t: Store, item: nat, to: Location)
    requires LinksOk(s) && item in s.vault.rows && AllKept(s.owned, t.owned)
    ensures var row := s.vault.rows[item];
            Travelled(s.owned.rows, Rehome(t.owned, row.user, row.owned, to, row.spec).0.rows,
                      Goes(row.owned, WAREHOUSE, to))
  {
    var row := s.vault.rows[item];
    ChildRow(s, InVault(item));
    RehomeTravels(s.owned, t.owned, row.user, row.owned, WAREHOUSE, to, row.spec);
  }

  lemma {:induction false} EvictingTravels(s: Store, op: Op)
    requires Inv(s) && Answer(s, op) == Done && (op.Install? || op.Move? || op.RetrieveToRack?)
    ensures Travelled(s.owned.rows, Effect(s, op).owned.rows, TravelOf(s, op))
  {
    match op
    case Install(_, _, item, order, previous) =>
      MakeRoomKeeps(s, order, previous);
      MakeRoomOwned(s, order, previous);
      ItemTravels(s, MakeRoom(s, order, previous), item, RACK);
    case Move(_, _, _, order, previous) => MakeRoomOwned(s, order, previous);
    case RetrieveToRack(_, item, _, order) =>
      EvictAllOwned(s, order);
      VaultTravels(s, EvictAll(s, order), item, RACK);
  }

  /**
   * A request moves the owned row of the machine it moves from the location of the table it leaves to that of
   * the table it enters, deletes the one of an item it discards, and leaves every other existing one as it is.
   */
  lemma {:induction false} OwnedRowsTravel(s: Store, op: Op)
    requires Inv(s) && Answer(s, op) == Done
    ensures Travelled(s.owned.rows, Effect(s, op).owned.rows, TravelOf(s, op))
  {
    match op
    case Grant(user, spec, quantity) => GrantManyOwned(s, user, ClampSpec(spec), quantity);
    case Discard(_, _) =>
    case Install(_, _, _, _, _) => EvictingTravels(s, op);
    case Move(_, _, _, _, _) => EvictingTravels(s, op);
    case Remove(_, machine) => MachineTravels(s, machine, INVENTORY);
    case BuyRoom(_) =>
    case RoomInstall(_, rack, item) => ItemTravels(s, s, item, RACK);
    case RoomUninstall(_, rack) => MachineTravels(s, s.racks.rows[rack].host.value, INVENTORY);
    case StoreItem(_, item) => ItemTravels(s, s, item, WAREHOUSE);
    case StoreMachine(_, machine) => MachineTravels(s, machine, WAREHOUSE);
    case RetrieveItem(_, item) => VaultTravels(s, s, item, INVENTORY);
    case RetrieveToRack(_, _, _, _) => EvictingTravels(s, op);
  }

  // ---- Owned rows without a machine ----

  /** `o` is the owned row of one of these machines. */
  ghost predicate OwnedByOne(ms: map<nat, Machine>, ids: set<nat>, o: nat) {
    exists m :: m in ids && m in ms && ms[m].owned == Some(o)
  }

  /** The machine and its racks' pointers go, and with them the owner of its owned row. */
  lemma {:induction false} MachineGoneOrphans(s: Store, m: nat, o: nat)
    requires Inv(s) && m in s.machines.rows
    ensures var t := s.(racks := Release(s.racks, m), machines := s.machines.Delete(m));
            Inv(t) && (Orphan(t, o) <==> Orphan(s, o) || s.machines.rows[m].owned == Some(o))
  {
    var t := s.(racks := Release(s.racks, m), machines := s.machines.Delete(m));
    assert Live(s, InRack(m)) && Link(s, InRack(m)) == s.machines.rows[m].owned;
    Departure(s, t, InRack(m));
    DepartureOrphans(s, t, InRack(m), o);
    ReleaseKeepsRacks(s.cfg, s.rooms.rows, s.racks, s.machines.rows, m);
  }

  lemma {:induction false} EvictOrphans(s: Store, m: nat, o: nat)
    requires Inv(s)
    ensures Orphan(Evict(s, m), o) <==> Orphan(s, o) || OwnedByOne(s.machines.rows, {m}, o)
  {
    if m in s.machines.rows {
      var t := s.(racks := Release(s.racks, m), machines := s.machines.Delete(m));
      MachineGoneOrphans(s, m, o);
      GrantOneKeeps(t, s.machines.rows[m].user, s.machines.rows[m].spec);
      assert Evict(s, m) == GrantOne(t, s.machines.rows[m].user, s.machines.rows[m].spec);
      assert OwnedByOne(s.machines.rows, {m}, o) <==> s.machines.rows[m].owned == Some(o);
    }
  }

  function ToSet(order: seq<nat>): set<nat> {
    set m | m in order
  }

  lemma {:induction false} EvictAllOrphans(s: Store, order: seq<nat>, o: nat)
    requires Inv(s)
    ensures Orphan(EvictAll(s, order), o) <==> Orphan(s, o) || OwnedByOne(s.machines.rows, ToSet(order), o)
  {
    if order == [] {
    } else {
      var front, last := order[..|order| - 1], order[|order| - 1];
      EvictAllOrphans(s, front, o);
      EvictAllKeeps(s, front);
      EvictAllRows(s, front);
      EvictOrphans(EvictAll(s, front), last, o);
      OneMoreOwner(s.machines.rows, front, last, o);
      assert order == front + [last];
    }
  }

  lemma {:induction false} OneMoreOwner(ms: map<nat, Machine>, front: seq<nat>, last: nat, o: nat)
    ensures OwnedByOne(ms, ToSet(front + [last]), o) <==>
              OwnedByOne(ms, ToSet(front), o) || OwnedByOne(ms - ToSet(front), {last}, o)
  {
    if m :| m in ToSet(front + [last]) && m in ms && ms[m].owned == Some(o) {
      assert m in ToSet(front) || (m == last && m in ms - ToSet(front));
    }
    if m :| m in ToSet(front) && m in ms && ms[m].owned == Some(o) {
      assert m in ToSet(front + [last]);
    }
    if OwnedByOne(ms - ToSet(front), {last}, o) {
      assert last in ToSet(front + [last]);
    }
  }

  /** The machines a request evicts. */
  function Evicted(s: Store, op: Op): set<nat>
    requires Answer(s, op) == Done
  {
    var ms := s.machines.rows;
    match op
    case Install(user, slot, item, _, _) =>
      StartingIn(ms, user, slot, OrOne(s.inventory.rows[item].spec.slotSize), None) +
        PreviousDoubles(ms, user, slot, None)
    case Move(user, machine, slot, _, _) =>
      StartingIn(ms, user, slot, ms[machine].spec.slotSize, Some(machine)) +
        PreviousDoubles(ms, user, slot, Some(machine))
    case RetrieveToRack(user, item, slot, _) =>
      StartingIn(ms, user, slot, OrOne(s.vault.rows[item].spec.slotSize), None)
    case _ => {}
  }

  lemma {:induction false} OwnersSplit(ms: map<nat, Machine>, a: set<nat>, b: set<nat>, o: nat)
    ensures OwnedByOne(ms, a + b, o) <==> OwnedByOne(ms, a, o) || OwnedByOne(ms - a, b, o)
  {
    if m :| m in a + b && m in ms && ms[m].owned == Some(o) {
      assert m in a || (m in b && m in ms - a);
    }
    if m :| m in a && m in ms && ms[m].owned == Some(o) {
      assert m in a + b;
    }
    if m :| m in b && m in ms - a && (ms - a)[m].owned == Some(o) {
      assert m in a + b;
    }
  }

  lemma {:induction false} EvictSetOrphans(s: Store, order: seq<nat>, ids: set<nat>, o: nat)
    requires Inv(s) && Enumerates(order, ids)
    ensures Orphan(EvictAll(s, order), o) <==> Orphan(s, o) || OwnedByOne(s.machines.rows, ids, o)
    ensures Inv(EvictAll(s, order)) && EvictAll(s, order).machines.rows == s.machines.rows - ids
  {
    EvictAllOrphans(s, order, o);
    EvictAllKeeps(s, order);
    EvictAllRows(s, order);
    EnumeratedSet(order, ids);
  }

  lemma {:induction false} MakeRoomOrphans(s: Store, user: nat, slot: int, size: int, except: Option<nat>,
                                           order: seq<nat>, previous: seq<nat>, o: nat)
    requires Inv(s)
    requires Enumerates(order, StartingIn(s.machines.rows, user, slot, size, except))
    requires Enumerates(previous, PreviousDoubles(EvictAll(s, order).machines.rows, user, slot, except))
    ensures var gone := StartingIn(s.machines.rows, user, slot, size, except) +
              PreviousDoubles(s.machines.rows, user, slot, except);
            Orphan(MakeRoom(s, order, previous), o) <==> Orphan(s, o) || OwnedByOne(s.machines.rows, gone, o)
  {
    var ms := s.machines.rows;
    EvictSetOrphans(s, order, StartingIn(ms, user, slot, size, except), o);
    PreviousStays(ms, user, slot, size, except);
    EvictSetOrphans(EvictAll(s, order), previous, PreviousDoubles(ms, user, slot, except), o);
    OwnersSplit(ms, StartingIn(ms, user, slot, size, except), PreviousDoubles(ms, user, slot, except), o);
  }

  lemma {:induction false} InstallOrphans(s: Store, op: Op, o: nat)
    requires Inv(s) && op.Install? && Orderly(s, op) && Answer(s, op) == Done
    ensures Orphan(Effect(s, op), o) <==> Orphan(s, o) || OwnedByOne(s.machines.rows, Evicted(s, op), o)
  {
    var spec := s.inventory.rows[op.item].spec;
    var t := MakeRoom(s, op.order, op.previous);
    MakeRoomOrphans(s, op.user, op.slot, OrOne(spec.slotSize), None, op.order, op.previous, o);
    MakeRoomKeeps(s, op.order, op.previous);
    ItemToMachineLinks(t, op.item, op.slot, spec);
  }

  lemma {:induction false} MoveOrphans(s: Store, op: Op, o: nat)
    requires Inv(s) && op.Move? && Orderly(s, op) && Answer(s, op) == Done
    ensures Orphan(Effect(s, op), o) <==> Orphan(s, o) || OwnedByOne(s.machines.rows, Evicted(s, op), o)
  {
    var t := MakeRoom(s, op.order, op.previous);
    MakeRoomOrphans(s, op.user, op.slot, s.machines.rows[op.machine].spec.slotSize, Some(op.machine), op.order,
                    op.previous, o);
    MakeRoomKeeps(s, op.order, op.previous);
    if op.machine in t.machines.rows { MoveLinks(t, op.machine, op.slot); }
  }

  lemma {:induction false} RetrievalOrphans(s: Store, op: Op, o: nat)
    requires Inv(s) && op.RetrieveToRack? && Orderly(s, op) && Answer(s, op) == Done
    ensures Orphan(Effect(s, op), o) <==> Orphan(s, o) || OwnedByOne(s.machines.rows, Evicted(s, op), o)
  {
    EvictAllOrphans(s, op.order, o);
    EvictAllKeeps(s, op.order);
    EnumeratedSet(op.order,
                  StartingIn(s.machines.rows, op.user, op.slot, OrOne(s.vault.rows[op.item].spec.slotSize), None));
    VaultToMachineLinks(EvictAll(s, op.order), op.item, op.slot, s.vault.rows[op.item].spec);
  }

  lemma {:induction false} DiscardOrphans(s: Store, item: nat, o: nat)
    requires Inv(s) && item in s.inventory.rows
    ensures Orphan(DiscardItem(s, item), o) <==> Orphan(s, o)
  {
    assert Live(s, InInventory(item));
    DepartureOrphans(s, DiscardItem(s, item), InInventory(item), o);
  }

  /** An owned row is without a machine after a request exactly if it was before or its machine was evicted. */
  lemma {:induction false} StepOrphans(s: Store, op: Op, o: nat)
    requires Inv(s) && Orderly(s, op) && Answer(s, op) == Done
    ensures Orphan(Effect(s, op), o) <==> Orphan(s, o) || OwnedByOne(s.machines.rows, Evicted(s, op), o)
  {
    match op
    case Grant(user, spec, quantity) => GrantManyKeeps(s, user, ClampSpec(spec), quantity);
    case Discard(_, item) => DiscardOrphans(s, item, o);
    case Install(_, _, _, _, _) => InstallOrphans(s, op, o);
    case Move(_, _, _, _, _) => MoveOrphans(s, op, o);
    case Remove(_, machine) => MachineToInventoryLinks(s, machine);
    case BuyRoom(user) => AddRoomLinks(s, user, RoomPrice(s.cfg, |UserRooms(s.rooms.rows, user)| + 1).value);
    case RoomInstall(_, rack, item) => RoomInstallLinks(s, rack, item);
    case RoomUninstall(_, rack) => MachineToInventoryLinks(s, s.racks.rows[rack].host.value);
    case StoreItem(_, item) => ItemToVaultLinks(s, item);
    case StoreMachine(_, machine) => MachineToVaultLinks(s, machine);
    case RetrieveItem(_, item) => VaultToItemLinks(s, item);
    case RetrieveToRack(_, _, _, _) => RetrievalOrphans(s, op, o);
  }

  /** Some request of the run evicts the machine that has owned row `o` at that point. */
  ghost predicate EvictedInRun(s: Store, ops: seq<Op>, o: nat)
    decreases |ops|
  {
    ops != [] &&
    ((Answer(s, ops[0]) == Done && OwnedByOne(s.machines.rows, Evicted(s, ops[0]), o))
     || EvictedInRun(Apply(s, ops[0]), ops[1..], o))
  }

  /** Over a whole run the owned rows without a machine are those there were and those of evicted machines. */
  lemma {:induction false} OrphansAreEvictions(s: Store, ops: seq<Op>, o: nat)
    requires Inv(s) && Legal(s, ops)
    ensures Orphan(Exec(s, ops), o) <==> Orphan(s, o) || EvictedInRun(s, ops, o)
    decreases |ops|
  {
    if ops == [] {
    } else {
      ApplyKeeps(s, ops[0]);
      if Answer(s, ops[0]) == Done { StepOrphans(s, ops[0], o); }
      OrphansAreEvictions(Apply(s, ops[0]), ops[1..], o);
    }
  }
}
