/** What holds over every run of requests. */
module PlacementTheorems {
  import opened Tables
  import opened PlacementModel
  import opened PlacementInvariants
  import opened PlacementRacks
  import opened PlacementSteps
  import opened PlacementCounts

  // ---- The invariant and the counts over runs ----

  function EmptyStore(cfg: Config, balance: map<nat, real>): Store {
    Store(cfg, Table(map[], 1), Table(map[], 1), Table(map[], 1), Table(map[], 1), Table(map[], 1), Table(map[], 1),
          balance)
  }

  lemma {:induction false} EmptyStoreOk(cfg: Config, balance: map<nat, real>)
    ensures Inv(EmptyStore(cfg, balance)) && Disjoint(EmptyStore(cfg, balance).machines.rows)
  {
  }

  /**
   * In every run: slots, rooms and racks fit together, no pointer names a deleted machine, and every
   * linked row has its own owned row with the location of its table.
   */
  lemma {:induction false} RunKeepsInvariant(s: Store, ops: seq<Op>)
    requires Inv(s) && Legal(s, ops)
    ensures Inv(Exec(s, ops))
    decreases |ops|
  {
    if ops != [] {
      ApplyKeeps(s, ops[0]);
      RunKeepsInvariant(Apply(s, ops[0]), ops[1..]);
    }
  }

  /** In every run a user's machines of one kind change in number only by grants and discards. */
  lemma {:induction false} RunConserves(s: Store, ops: seq<Op>, user: nat, spec: Spec)
    requires Inv(s) && Legal(s, ops)
    ensures Tally(Exec(s, ops), user, spec) == Tally(s, user, spec) + AddedBy(s, ops, user, spec)
    decreases |ops|
  {
    if ops != [] {
      ApplyKeeps(s, ops[0]);
      ApplyCounts(s, ops[0], user, spec);
      RunConserves(Apply(s, ops[0]), ops[1..], user, spec);
    }
  }

  // ---- Paying for rooms ----

  function BalanceOf(s: Store, user: nat): real {
    if user in s.balance then s.balance[user] else 0.0
  }

  /** What the user's rooms with ids below `n` have cost. */
  function SpentOnRooms(rooms: map<nat, Room>, user: nat, n: nat): real {
    if n == 0 then 0.0
    else
      SpentOnRooms(rooms, user, n - 1)
      + if n - 1 in rooms && rooms[n - 1].user == user then rooms[n - 1].pricePaid else 0.0
  }

  /** Balance and room prices together, for a user whose balance changes for rooms only. */
  function Wealth(s: Store, user: nat): real {
    BalanceOf(s, user) + SpentOnRooms(s.rooms.rows, user, s.rooms.next)
  }

  lemma {:induction false} SpentBelow(rooms: map<nat, Room>, room: nat, row: Room, user: nat, n: nat)
    requires n <= room
    ensures SpentOnRooms(rooms[room := row], user, n) == SpentOnRooms(rooms, user, n)
  {
    if n > 0 { SpentBelow(rooms, room, row, user, n - 1); }
  }

  lemma {:induction false} BuyRoomPaid(s: Store, buyer: nat, user: nat)
    requires Answer(s, BuyRoom(buyer)) == Done
    ensures Wealth(Apply(s, BuyRoom(buyer)), user) == Wealth(s, user)
    ensures BalanceOf(s, user) >= 0.0 ==> BalanceOf(Apply(s, BuyRoom(buyer)), user) >= 0.0
  {
    var t := Apply(s, BuyRoom(buyer));
    var room := s.rooms.next;
    SpentBelow(s.rooms.rows, room, t.rooms.rows[room], user, room);
  }

  ghost predicate SameMoney(s: Store, t: Store) {
    t.rooms == s.rooms && t.balance == s.balance
  }

  lemma {:induction false} GrantManyMoney(s: Store, user: nat, spec: Spec, quantity: nat)
    ensures SameMoney(s, GrantMany(s, user, spec, quantity))
  {
    if quantity > 0 { GrantManyMoney(s, user, spec, quantity - 1); }
  }

  lemma {:induction false} EvictAllMoney(s: Store, order: seq<nat>)
    ensures SameMoney(s, EvictAll(s, order))
  {
    if order != [] { EvictAllMoney(s, order[..|order| - 1]); }
  }

  lemma {:induction false} MakeRoomMoney(s: Store, order: seq<nat>, previous: seq<nat>)
    ensures SameMoney(s, MakeRoom(s, order, previous))
  {
    EvictAllMoney(s, order);
    EvictAllMoney(EvictAll(s, order), previous);
  }

  lemma {:induction false} OtherRequestsFree(s: Store, op: Op)
    requires !op.BuyRoom?
    ensures SameMoney(s, Apply(s, op))
  {
    if Answer(s, op) == Done {
      match op
      case Grant(user, spec, quantity) => GrantManyMoney(s, user, ClampSpec(spec), quantity);
      case Install(_, _, _, order, previous) => MakeRoomMoney(s, order, previous);
      case Move(_, _, _, order, previous) => MakeRoomMoney(s, order, previous);
      case RetrieveToRack(_, _, _, order) => EvictAllMoney(s, order);
      case _ =>
    }
  }

  /** In every run a user's balance falls by exactly what its new rooms cost, and never below zero. */
  lemma {:induction false} RoomsArePaid(s: Store, ops: seq<Op>, user: nat)
    requires Inv(s) && Legal(s, ops)
    ensures Wealth(Exec(s, ops), user) == Wealth(s, user)
    ensures BalanceOf(s, user) >= 0.0 ==> BalanceOf(Exec(s, ops), user) >= 0.0
    decreases |ops|
  {
    if ops != [] {
      ApplyKeeps(s, ops[0]);
      if ops[0].BuyRoom? {
        if Answer(s, ops[0]) == Done { BuyRoomPaid(s, ops[0].user, user); }
      } else {
        OtherRequestsFree(s, ops[0]);
      }
      RoomsArePaid(Apply(s, ops[0]), ops[1..], user);
    }
  }

  // ---- Disjoint slots ----

  /** Machines in rooms never overlap anything, so only the grid has to be looked at. */
  lemma {:induction false} GridEnough(s: Store)
    requires Inv(s)
    ensures Disjoint(s.machines.rows) <==> GridDisjoint(s.machines.rows)
  {
    var ms := s.machines.rows;
    if GridDisjoint(ms) {
      forall a, b | a in ms && b in ms && a != b && ms[a].user == ms[b].user ensures !Overlap(ms[a], ms[b]) {
        assert SlotFits(ms[a]) && SlotFits(ms[b]);
        if ms[a].slot >= RACK_BASE && ms[b].slot >= RACK_BASE {
          if ms[a].slot <= ms[b].slot { RackMachineApart(s, a, b); } else { RackMachineApart(s, b, a); }
        }
      }
    }
  }

  lemma {:induction false} ClearedDisjoint(ms: map<nat, Machine>, user: nat, slot: int, size: int, except: Option<nat>,
                                            m: nat, row: Machine)
    requires SlotsOk(ms) && GridDisjoint(ms)
    requires row.user == user && row.slot == slot && row.spec.slotSize == size && OneOrTwo(row.spec)
    requires OnGrid(slot) && (size == 2 ==> slot % 2 == 0)
    requires except == if m in ms then Some(m) else None
    ensures GridDisjoint(Cleared(ms, user, slot, size, except)[m := row])
  {
    var left := Cleared(ms, user, slot, size, except);
    forall b | b in left && b != m && left[b].user == user && OnGrid(left[b].slot) ensures !Overlap(row, left[b]) {
      assert SlotFits(ms[b]) && OneOrTwo(ms[b].spec);
      assert b !in StartingIn(ms, user, slot, size, except) && b !in PreviousDoubles(ms, user, slot, except);
    }
  }

  /** The guard a vault retrieval lacks: an odd target slot must not be the second half of a double. */
  predicate SafeTarget(ms: map<nat, Machine>, user: nat, slot: int) {
    slot % 2 == 0 || forall m | m in ms && ms[m].user == user && ms[m].slot == slot - 1 :: ms[m].spec.slotSize != 2
  }

  predicate Safe(s: Store, op: Op) {
    op.RetrieveToRack? && Answer(s, op) == Done ==> SafeTarget(s.machines.rows, op.user, op.slot)
  }

  lemma {:induction false} SafeTargetCleared(ms: map<nat, Machine>, user: nat, slot: int, size: int)
    requires SafeTarget(ms, user, slot)
    ensures Cleared(ms, user, slot, size, None) == ms - StartingIn(ms, user, slot, size, None)
  {
    assert PreviousDoubles(ms, user, slot, None) == {};
  }

  /** Putting a machine where an unsafe target lets it overlap. */
  lemma {:induction false} UnsafeOverlaps(ms: map<nat, Machine>, user: nat, slot: int, size: int, m: nat, row: Machine)
    requires SlotsOk(ms) && !SafeTarget(ms, user, slot) && m !in ms && OnGrid(slot)
    requires row.user == user && row.slot == slot && row.spec.slotSize == size && OneOrTwo(row.spec)
    ensures !GridDisjoint((ms - StartingIn(ms, user, slot, size, None))[m := row])
  {
    var after := (ms - StartingIn(ms, user, slot, size, None))[m := row];
    var d :| d in ms && ms[d].user == user && ms[d].slot == slot - 1 && ms[d].spec.slotSize == 2;
    assert SlotFits(ms[d]);
    assert d in after && after[d] == ms[d] && Overlap(after[d], after[m]);
  }

  lemma {:induction false} RetrievedMachines(s: Store, op: Op)
    requires Inv(s) && op.RetrieveToRack? && Orderly(s, op) && Answer(s, op) == Done
    ensures var size := s.vault.rows[op.item].spec.slotSize;
            var after := Apply(s, op).machines.rows;
            var m := s.machines.next;
            && m in after
            && after == (s.machines.rows - StartingIn(s.machines.rows, op.user, op.slot, size, None))[m := after[m]]
            && after[m].user == op.user && after[m].slot == op.slot && after[m].spec == s.vault.rows[op.item].spec
            && OneOrTwo(after[m].spec)
  {
    var size := s.vault.rows[op.item].spec.slotSize;
    EvictAllRows(s, op.order);
    EvictAllKeeps(s, op.order);
    EnumeratedSet(op.order, StartingIn(s.machines.rows, op.user, op.slot, size, None));
  }

  /** A retrieval to a rack keeps the grid apart exactly when its target is safe. */
  lemma {:induction false} RetrievalDisjoint(s: Store, op: Op)
    requires Inv(s) && op.RetrieveToRack? && Orderly(s, op) && Answer(s, op) == Done
    requires GridDisjoint(s.machines.rows)
    ensures GridDisjoint(Apply(s, op).machines.rows) <==> SafeTarget(s.machines.rows, op.user, op.slot)
  {
    var ms, user, slot, m := s.machines.rows, op.user, op.slot, s.machines.next;
    var size := s.vault.rows[op.item].spec.slotSize;
    RetrievedMachines(s, op);
    var row := Apply(s, op).machines.rows[m];
    if SafeTarget(ms, user, slot) {
      SafeTargetCleared(ms, user, slot, size);
      ClearedDisjoint(ms, user, slot, size, None, m, row);
    } else {
      UnsafeOverlaps(ms, user, slot, size, m, row);
    }
  }

  lemma {:induction false} InstallDisjoint(s: Store, op: Op)
    requires Inv(s) && op.Install? && Orderly(s, op) && Answer(s, op) == Done
    requires GridDisjoint(s.machines.rows)
    ensures GridDisjoint(Apply(s, op).machines.rows)
  {
    var size := s.inventory.rows[op.item].spec.slotSize;
    MakeRoomKeeps(s, op.order, op.previous);
    MakeRoomClears(s, op.user, op.slot, size, None, op.order, op.previous);
    var after := Apply(s, op).machines.rows;
    ClearedDisjoint(s.machines.rows, op.user, op.slot, size, None, s.machines.next, after[s.machines.next]);
  }

  lemma {:induction false} MoveDisjoint(s: Store, op: Op)
    requires Inv(s) && op.Move? && Orderly(s, op) && Answer(s, op) == Done
    requires GridDisjoint(s.machines.rows)
    ensures GridDisjoint(Apply(s, op).machines.rows)
  {
    var size := s.machines.rows[op.machine].spec.slotSize;
    MakeRoomKeeps(s, op.order, op.previous);
    MakeRoomClears(s, op.user, op.slot, size, Some(op.machine), op.order, op.previous);
    var after := Apply(s, op).machines.rows;
    ClearedDisjoint(s.machines.rows, op.user, op.slot, size, Some(op.machine), op.machine, after[op.machine]);
  }

  lemma {:induction false} RoomInstallDisjoint(s: Store, op: Op)
    requires Inv(s) && op.RoomInstall? && Answer(s, op) == Done
    requires GridDisjoint(s.machines.rows)
    ensures GridDisjoint(Apply(s, op).machines.rows)
  {
    SlotsOfRacks(s.cfg, s.rooms.rows, s.racks.rows, op.rack, op.rack);
  }

  lemma {:induction false} GrantManyMachines(s: Store, user: nat, spec: Spec, quantity: nat)
    ensures GrantMany(s, user, spec, quantity).machines == s.machines
  {
    if quantity > 0 { GrantManyMachines(s, user, spec, quantity - 1); }
  }

  /** A request keeps installed machines apart exactly when it is not an unsafe vault retrieval. */
  lemma {:induction false} StepDisjoint(s: Store, op: Op)
    requires Inv(s) && Orderly(s, op) && Disjoint(s.machines.rows)
    ensures Disjoint(Apply(s, op).machines.rows) <==> Safe(s, op)
  {
    ApplyKeeps(s, op);
    GridEnough(s);
    GridEnough(Apply(s, op));
    if Answer(s, op) == Done {
      match op
      case Grant(user, spec, quantity) => GrantManyMachines(s, user, ClampSpec(spec), quantity);
      case Install(_, _, _, _, _) => InstallDisjoint(s, op);
      case Move(_, _, _, _, _) => MoveDisjoint(s, op);
      case RoomInstall(_, _, _) => RoomInstallDisjoint(s, op);
      case RetrieveToRack(_, _, _, _) => RetrievalDisjoint(s, op);
      case _ =>
    }
  }

  /** The store is disjoint before and after every request of the run. */
  ghost predicate AlwaysDisjoint(s: Store, ops: seq<Op>)
    decreases |ops|
  {
    Disjoint(s.machines.rows) && (ops != [] ==> AlwaysDisjoint(Apply(s, ops[0]), ops[1..]))
  }

  predicate AllSafe(s: Store, ops: seq<Op>)
    decreases |ops|
  {
    ops != [] ==> Safe(s, ops[0]) && AllSafe(Apply(s, ops[0]), ops[1..])
  }

  /** Over a whole run, machines stay apart exactly when every vault retrieval to a rack is safe. */
  lemma {:induction false} RunDisjoint(s: Store, ops: seq<Op>)
    requires Inv(s) && Legal(s, ops) && Disjoint(s.machines.rows)
    ensures AlwaysDisjoint(s, ops) <==> AllSafe(s, ops)
    decreases |ops|
  {
    if ops != [] {
      var t := Apply(s, ops[0]);
      StepDisjoint(s, ops[0]);
      ApplyKeeps(s, ops[0]);
      if Safe(s, ops[0]) {
        RunDisjoint(t, ops[1..]);
      } else {
        assert !Disjoint(t.machines.rows);
      }
    }
  }

  // ---- Slot availability ----

  /** The availability check: aligned, nothing starts on the slots, no double on the slot before an odd one. */
  predicate SlotAvailable(ms: map<nat, Machine>, user: nat, slot: nat, needed: int) {
    && !(needed == 2 && slot % 2 != 0)
    && StartingIn(ms, user, slot, needed, None) == {}
    && PreviousDoubles(ms, user, slot, None) == {}
  }

  ghost predicate Covers(m: Machine, slot: int) {
    m.slot <= slot < m.slot + m.spec.slotSize
  }

  /** Below slot 80 the check says yes exactly when the range is aligned and no machine covers any of it. */
  lemma {:induction false} SlotAvailableExactly(s: Store, user: nat, slot: nat, needed: int)
    requires Inv(s) && slot < GRID_SLOTS && needed >= 1
    ensures SlotAvailable(s.machines.rows, user, slot, needed) <==>
            && (needed == 2 ==> slot % 2 == 0)
            && (forall m, k | m in s.machines.rows && s.machines.rows[m].user == user && slot <= k < slot + needed ::
                  !Covers(s.machines.rows[m], k))
  {
    var ms := s.machines.rows;
    if m :| m in StartingIn(ms, user, slot, needed, None) {
      assert SlotFits(ms[m]) && OneOrTwo(ms[m].spec) && Covers(ms[m], ms[m].slot);
    }
    if m :| m in PreviousDoubles(ms, user, slot, None) {
      assert Covers(ms[m], slot);
    }
    if SlotAvailable(ms, user, slot, needed) {
      forall m, k | m in ms && ms[m].user == user && slot <= k < slot + needed ensures !Covers(ms[m], k) {
        assert SlotFits(ms[m]) && OneOrTwo(ms[m].spec);
        assert m !in StartingIn(ms, user, slot, needed, None) && m !in PreviousDoubles(ms, user, slot, None);
        assert ms[m].slot == slot - 1 ==> m in StartingIn(ms, user, slot - 1, 1, None);
      }
    }
  }

  // ---- Locations ----

  /** The table of transitions leaves nothing out. */
  lemma {:induction false} EveryTransitionValid(from: Location, to: Location)
    ensures ValidTransition(from, to)
  {
    if from != to {
      var k := match (from, to)
        case (INVENTORY, RACK) => 0
        case (RACK, INVENTORY) => 1
        case (INVENTORY, WAREHOUSE) => 2
        case (RACK, WAREHOUSE) => 3
        case (WAREHOUSE, INVENTORY) => 4
        case _ => 5;
      assert ALLOWED_TRANSITIONS[k] == (from, to);
    }
  }

  // ---- Other users ----

  lemma {:induction false} OthersNotCleared(ms: map<nat, Machine>, user: nat, slot: int, size: int, except: Option<nat>,
                                            m: nat)
    requires m in ms && ms[m].user != user
    ensures m !in StartingIn(ms, user, slot, size, except) && m !in PreviousDoubles(ms, user, slot, except)
  {
  }

  ghost predicate Keeps(ms: map<nat, Machine>, ms': map<nat, Machine>, m: nat) {
    m in ms && m in ms' && ms'[m] == ms[m]
  }

  /** Nothing of another user is evicted. */
  lemma {:induction false} OthersStay(s: Store, user: nat, slot: int, size: int, except: Option<nat>,
                                      order: seq<nat>, previous: seq<nat>, m: nat)
    requires Enumerates(order, StartingIn(s.machines.rows, user, slot, size, except))
    requires Enumerates(previous, PreviousDoubles(EvictAll(s, order).machines.rows, user, slot, except))
    requires m in s.machines.rows && s.machines.rows[m].user != user
    ensures Keeps(s.machines.rows, MakeRoom(s, order, previous).machines.rows, m)
  {
    MakeRoomClears(s, user, slot, size, except, order, previous);
    OthersNotCleared(s.machines.rows, user, slot, size, except, m);
  }

  lemma {:induction false} OthersUntouchedByInstall(s: Store, op: Op, m: nat)
    requires Inv(s) && op.Install? && Orderly(s, op) && Answer(s, op) == Done
    requires m in s.machines.rows && s.machines.rows[m].user != op.user
    ensures Keeps(s.machines.rows, Effect(s, op).machines.rows, m)
  {
    var t := MakeRoom(s, op.order, op.previous);
    assert t.machines.Fresh() by { MakeRoomKeeps(s, op.order, op.previous); }
    OthersStay(s, op.user, op.slot, OrOne(s.inventory.rows[op.item].spec.slotSize), None, op.order, op.previous, m);
  }

  lemma {:induction false} OthersUntouchedByMove(s: Store, op: Op, m: nat)
    requires op.Move? && Orderly(s, op) && Answer(s, op) == Done
    requires m in s.machines.rows && s.machines.rows[m].user != op.user
    ensures Keeps(s.machines.rows, Effect(s, op).machines.rows, m)
  {
    OthersStay(s, op.user, op.slot, s.machines.rows[op.machine].spec.slotSize, Some(op.machine), op.order, op.previous,
               m);
  }

  lemma {:induction false} OthersUntouchedByRetrieval(s: Store, op: Op, m: nat)
    requires Inv(s) && op.RetrieveToRack? && Orderly(s, op) && Answer(s, op) == Done
    requires m in s.machines.rows && s.machines.rows[m].user != op.user
    ensures Keeps(s.machines.rows, Effect(s, op).machines.rows, m)
  {
    RetrievedMachines(s, op);
    OthersNotCleared(s.machines.rows, op.user, op.slot, s.vault.rows[op.item].spec.slotSize, None, m);
  }

  lemma {:induction false} OthersUntouchedByLeaving(s: Store, machine: nat, m: nat)
    requires machine in s.machines.rows && m in s.machines.rows &&
              s.machines.rows[m].user != s.machines.rows[machine].user
    ensures Keeps(s.machines.rows, MachineToInventory(s, machine).machines.rows, m)
    ensures Keeps(s.machines.rows, MachineToVault(s, machine).machines.rows, m)
  {
  }

  lemma {:induction false} HostedMachineIsOwn(s: Store, rack: nat)
    requires Inv(s) && rack in s.racks.rows && s.racks.rows[rack].host.Some?
    ensures var m := s.racks.rows[rack].host.value;
            m in s.machines.rows && s.machines.rows[m].user == s.racks.rows[rack].user
  {
    assert HostOk(s.cfg, s.rooms.rows, s.racks.rows, s.machines.rows, rack);
  }

  /** A request never touches another user's installed machines. */
  lemma {:induction false} OthersUntouched(s: Store, op: Op, m: nat)
    requires Inv(s) && Orderly(s, op)
    requires m in s.machines.rows && s.machines.rows[m].user != op.user
    ensures Keeps(s.machines.rows, Apply(s, op).machines.rows, m)
  {
    if Answer(s, op) == Done {
      match op
      case Grant(user, spec, quantity) => GrantManyMachines(s, user, ClampSpec(spec), quantity);
      case Install(_, _, _, _, _) => OthersUntouchedByInstall(s, op, m);
      case Move(_, _, _, _, _) => OthersUntouchedByMove(s, op, m);
      case RoomUninstall(user, rack) =>
        HostedMachineIsOwn(s, rack);
        OthersUntouchedByLeaving(s, s.racks.rows[rack].host.value, m);
      case RetrieveToRack(_, _, _, _) => OthersUntouchedByRetrieval(s, op, m);
      case Remove(user, machine) => OthersUntouchedByLeaving(s, machine, m);
      case StoreMachine(user, machine) => OthersUntouchedByLeaving(s, machine, m);
      case _ =>
    }
  }

  // ---- Evicted and returned machines ----

  /** An evicted machine's old owned row stays, unchanged, and no row links to it any more. */
  lemma {:induction false} EvictionOrphans(s: Store, m: nat, c: Child)
    requires Inv(s) && m in s.machines.rows && s.machines.rows[m].owned.Some? && Live(Evict(s, m), c)
    ensures var o := s.machines.rows[m].owned.value;
            && o in s.owned.rows && o in Evict(s, m).owned.rows && Evict(s, m).owned.rows[o] == s.owned.rows[o]
            && Link(Evict(s, m), c) != Some(o)
  {
    var o := s.machines.rows[m].owned.value;
    assert Live(s, InRack(m)) && Link(s, InRack(m)) == Some(o);
    if c != InInventory(s.inventory.next) {
      assert Live(s, c) && Link(s, c) == Link(Evict(s, m), c);
    }
  }

  lemma {:induction false} ReleaseUndoesOccupy(racks: Table<Rack>, rack: nat, blocked: set<nat>, m: nat)
    requires forall r | r in racks.rows :: racks.rows[r].host != Some(m) && racks.rows[r].blockedBy != Some(m)
    requires forall r | r in racks.rows && (r == rack || r in blocked) :: !Occupied(racks.rows[r])
    ensures Release(Occupy(racks, rack, blocked, m), m) == racks
  {
    assert Release(Occupy(racks, rack, blocked, m), m).rows == racks.rows;
  }

  lemma {:induction false} NoPointersToNew(s: Store, r: nat)
    requires Inv(s) && r in s.racks.rows
    ensures s.racks.rows[r].host != Some(s.machines.next) && s.racks.rows[r].blockedBy != Some(s.machines.next)
  {
    assert HostOk(s.cfg, s.rooms.rows, s.racks.rows, s.machines.rows, r);
    assert BlockOk(s.racks.rows, s.machines.rows, r);
  }

  /** What a room install followed by an uninstall leaves: only the item's id, and its missing owned row, are new. */
  ghost predicate BackAgain(s: Store, u: Store, item: nat)
    requires item in s.inventory.rows
  {
    var id, row := s.inventory.next, s.inventory.rows[item];
    && u.racks == s.racks && u.machines.rows == s.machines.rows && u.vault == s.vault
    && id in u.inventory.rows
    && u.inventory.rows == (s.inventory.rows - {item})[id := u.inventory.rows[id]]
    && u.inventory.rows[id].user == row.user && u.inventory.rows[id].spec == row.spec
    && (row.owned.Some? ==> u.inventory.rows[id].owned == row.owned && u.owned == s.owned)
  }

  lemma {:induction false} RacksBack(s: Store, user: nat, rack: nat, item: nat)
    requires Inv(s) && RoomInstallReply(s, user, rack, item) == Done
    ensures MachineToInventory(InstallInRoom(s, rack, item), s.machines.next).racks == s.racks
  {
    RoomInstallRacks(s, user, rack, item);
    forall r | r in s.racks.rows
      ensures s.racks.rows[r].host != Some(s.machines.next) && s.racks.rows[r].blockedBy != Some(s.machines.next)
    {
      NoPointersToNew(s, r);
    }
    ReleaseUndoesOccupy(s.racks, rack, BlockedBeside(s, rack, s.inventory.rows[item].spec.slotSize), s.machines.next);
  }

  lemma {:induction false} ItemBack(s: Store, rack: nat, item: nat)
    requires IdsFresh(s) && LinksOk(s) && rack in s.racks.rows && item in s.inventory.rows
    requires MachineToInventory(InstallInRoom(s, rack, item), s.machines.next).racks == s.racks
    ensures BackAgain(s, MachineToInventory(InstallInRoom(s, rack, item), s.machines.next), item)
  {
    var u := MachineToInventory(InstallInRoom(s, rack, item), s.machines.next);
    assert u.machines.rows == s.machines.rows;
    if s.inventory.rows[item].owned.Some? {
      OwnedBack(s, rack, item);
    }
  }

  lemma {:induction false} InstalledIsHosted(s: Store, rack: nat, item: nat)
    requires rack in s.racks.rows && item in s.inventory.rows
    ensures var t := InstallInRoom(s, rack, item);
            && rack in t.racks.rows && t.racks.rows[rack].user == s.racks.rows[rack].user
            && t.racks.rows[rack].host == Some(s.machines.next) && s.machines.next in t.machines.rows
  {
  }

  /** Uninstalling right after installing puts back every pointer, every link and every count. */
  lemma {:induction false} UninstallUndoesInstall(s: Store, user: nat, rack: nat, item: nat)
    requires Inv(s) && Answer(s, RoomInstall(user, rack, item)) == Done
    ensures Answer(Apply(s, RoomInstall(user, rack, item)), RoomUninstall(user, rack)) == Done
    ensures BackAgain(s, Apply(Apply(s, RoomInstall(user, rack, item)), RoomUninstall(user, rack)), item)
  {
    var u := MachineToInventory(InstallInRoom(s, rack, item), s.machines.next);
    assert Apply(Apply(s, RoomInstall(user, rack, item)), RoomUninstall(user, rack)) == u
      by { InThenOut(s, user, rack, item); }
    assert BackAgain(s, u, item) by { AllBack(s, user, rack, item); }
    InThenOut(s, user, rack, item);
  }

  lemma {:induction false} AllBack(s: Store, user: nat, rack: nat, item: nat)
    requires Inv(s) && RoomInstallReply(s, user, rack, item) == Done
    ensures BackAgain(s, MachineToInventory(InstallInRoom(s, rack, item), s.machines.next), item)
  {
    RacksBack(s, user, rack, item);
    ItemBack(s, rack, item);
  }

  lemma {:induction false} InThenOut(s: Store, user: nat, rack: nat, item: nat)
    requires Answer(s, RoomInstall(user, rack, item)) == Done
    ensures Answer(Apply(s, RoomInstall(user, rack, item)), RoomUninstall(user, rack)) == Done
    ensures Apply(Apply(s, RoomInstall(user, rack, item)), RoomUninstall(user, rack))
              == MachineToInventory(InstallInRoom(s, rack, item), s.machines.next)
  {
    InstalledIsHosted(s, rack, item);
    assert Apply(s, RoomInstall(user, rack, item)) == InstallInRoom(s, rack, item);
  }

  lemma {:induction false} OwnedBack(s: Store, rack: nat, item: nat)
    requires IdsFresh(s) && LinksOk(s)
    requires rack in s.racks.rows && item in s.inventory.rows && s.inventory.rows[item].owned.Some?
    ensures MachineToInventory(InstallInRoom(s, rack, item), s.machines.next).owned == s.owned
  {
    var link := s.inventory.rows[item].owned.value;
    assert Live(s, InInventory(item)) && s.owned.rows[link] == Snapshot(s, InInventory(item));
    assert s.owned.rows[link := s.owned.rows[link]] == s.owned.rows;
  }
}
