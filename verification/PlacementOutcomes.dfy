/** What each placement request does to the rows a caller can see. */
module PlacementOutcomes {
  import opened Tables
  import opened PlacementModel
  import opened PlacementInvariants
  import opened PlacementLinks
  import opened PlacementSteps
  import T = PlacementTheorems

  // ---- Rows ----

  /** Row `id` is new. */
  ghost predicate Added<R>(before: map<nat, R>, after: map<nat, R>, id: nat) {
    && id !in before && id in after
    && forall k | k != id :: (k in after <==> k in before) && (k in before ==> after[k] == before[k])
  }

  /** Row `id` is gone. */
  ghost predicate Removed<R>(before: map<nat, R>, after: map<nat, R>, id: nat) {
    && id in before && id !in after
    && forall k | k != id :: (k in after <==> k in before) && (k in before ==> after[k] == before[k])
  }

  /** Everything but machines, items, owned rows and racks is as before. */
  ghost predicate SameRest(s: Store, t: Store) {
    t.cfg == s.cfg && t.rooms == s.rooms && t.balance == s.balance
  }

  /** The racks' pointers to these machines are cleared, and no others. */
  ghost predicate Cleared(before: map<nat, Rack>, after: map<nat, Rack>, gone: set<nat>) {
    && before.Keys == after.Keys
    && forall r | r in before ::
         after[r] == before[r].(
           host := if before[r].host.Some? && before[r].host.value in gone then None else before[r].host,
           blockedBy := if before[r].blockedBy.Some? && before[r].blockedBy.value in gone then None
                        else before[r].blockedBy)
  }

  lemma {:induction false} EvictAllClears(s: Store, order: seq<nat>)
    requires forall i | 0 <= i < |order| :: order[i] in s.machines.rows
    requires forall i, j | 0 <= i < j < |order| :: order[i] != order[j]
    ensures Cleared(s.racks.rows, EvictAll(s, order).racks.rows, set m | m in order)
    ensures EvictAll(s, order).machines.next == s.machines.next
  {
    if order != [] {
      var front, last := order[..|order| - 1], order[|order| - 1];
      assert forall i | 0 <= i < |front| :: front[i] == order[i];
      EvictAllClears(s, front);
      EvictAllRows(s, front);
      assert last in EvictAll(s, front).machines.rows;
      assert forall m :: m in order <==> m in front || m == last;
    }
  }

  lemma {:induction false} ClearedTwice(a: map<nat, Rack>, b: map<nat, Rack>, c: map<nat, Rack>, g: set<nat>,
                                        h: set<nat>)
    requires Cleared(a, b, g) && Cleared(b, c, h)
    ensures Cleared(a, c, g + h)
  {
    forall r | r in a
      ensures c[r] == a[r].(host := if a[r].host.Some? && a[r].host.value in g + h then None else a[r].host,
                            blockedBy := if a[r].blockedBy.Some? && a[r].blockedBy.value in g + h then None
                                         else a[r].blockedBy)
    {
      assert b[r].host == if a[r].host.Some? && a[r].host.value in g then None else a[r].host;
    }
  }

  // ---- Making room ----

  /** The machine starts on one of the target slots. */
  predicate StartsThere(m: Machine, user: nat, slot: int, size: int) {
    m.user == user && slot <= m.slot && m.slot < slot + size
  }

  /** The machine is a double whose second slot is the odd target slot. */
  predicate ReachesInto(m: Machine, user: nat, slot: int) {
    m.user == user && m.spec.slotSize == 2 && m.slot + 1 == slot && slot % 2 == 1
  }

  /** Machines in the way of `size` slots from `slot`, with the previous double or without. */
  function InTheWay(ms: map<nat, Machine>, user: nat, slot: int, size: int, except: Option<nat>, double: bool)
    : set<nat>
  {
    set m |
      && m in ms && except != Some(m)
      && (StartsThere(ms[m], user, slot, size) || (double && ReachesInto(ms[m], user, slot)))
  }

  /** The machines `gone` are evicted: off the floor and off the racks, with every item kept. */
  ghost predicate EvictedExactly(s: Store, t: Store, gone: set<nat>) {
    && SameRest(s, t) && t.vault == s.vault && t.machines.next == s.machines.next
    && t.machines.rows == s.machines.rows - gone && Cleared(s.racks.rows, t.racks.rows, gone)
    && forall i | i in s.inventory.rows :: i in t.inventory.rows && t.inventory.rows[i] == s.inventory.rows[i]
  }

  lemma {:induction false} EvictSetExactly(s: Store, order: seq<nat>, gone: set<nat>)
    requires Inv(s) && Enumerates(order, gone) && gone <= s.machines.rows.Keys
    ensures EvictedExactly(s, EvictAll(s, order), gone) && Inv(EvictAll(s, order))
  {
    EvictAllKeeps(s, order);
    EvictAllRows(s, order);
    EnumeratedSet(order, gone);
    EvictAllClears(s, order);
  }

  lemma {:induction false} MakeRoomExactly(s: Store, user: nat, slot: int, size: int, except: Option<nat>,
                                           order: seq<nat>, previous: seq<nat>)
    requires Inv(s)
    requires Enumerates(order, StartingIn(s.machines.rows, user, slot, size, except))
    requires Enumerates(previous, PreviousDoubles(EvictAll(s, order).machines.rows, user, slot, except))
    ensures EvictedExactly(s, MakeRoom(s, order, previous), InTheWay(s.machines.rows, user, slot, size, except, true))
    ensures Inv(MakeRoom(s, order, previous))
  {
    var ms := s.machines.rows;
    var first, t := StartingIn(ms, user, slot, size, except), EvictAll(s, order);
    var second := PreviousDoubles(t.machines.rows, user, slot, except);
    EvictSetExactly(s, order, first);
    EvictSetExactly(t, previous, second);
    BothInTheWay(ms, user, slot, size, except);
    EvictedTwice(s, t, EvictAll(t, previous), first, second);
  }

  lemma {:induction false} BothInTheWay(ms: map<nat, Machine>, user: nat, slot: int, size: int, except: Option<nat>)
    ensures var first := StartingIn(ms, user, slot, size, except);
            InTheWay(ms, user, slot, size, except, true) == first + PreviousDoubles(ms - first, user, slot, except)
  {
    PreviousStays(ms, user, slot, size, except);
    forall m
      ensures m in StartingIn(ms, user, slot, size, except) <==>
                m in ms && except != Some(m) && StartsThere(ms[m], user, slot, size)
      ensures m in PreviousDoubles(ms, user, slot, except) <==>
                m in ms && except != Some(m) && ReachesInto(ms[m], user, slot)
    {
    }
  }

  lemma {:induction false} EvictedTwice(s: Store, t: Store, u: Store, first: set<nat>, second: set<nat>)
    requires EvictedExactly(s, t, first) && EvictedExactly(t, u, second)
    ensures EvictedExactly(s, u, first + second)
  {
    ClearedTwice(s.racks.rows, t.racks.rows, u.racks.rows, first, second);
    assert s.machines.rows - first - second == s.machines.rows - (first + second);
  }

  // ---- Onto the grid ----

  /** A machine of this user and kind is new at this slot, under the next id, and what was in the way is not. */
  ghost predicate LandsAt(s: Store, t: Store, user: nat, slot: int, spec: Spec, gone: set<nat>) {
    && Added(s.machines.rows - gone, t.machines.rows, s.machines.next)
    && t.machines.rows[s.machines.next].user == user && t.machines.rows[s.machines.next].slot == slot
    && t.machines.rows[s.machines.next].spec == spec
    && Cleared(s.racks.rows, t.racks.rows, gone)
  }

  /** Item `item` has left the inventory; all others are still there. */
  ghost predicate LeavesInventory(s: Store, t: Store, item: nat) {
    && item !in t.inventory.rows
    && forall i | i in s.inventory.rows && i != item ::
         i in t.inventory.rows && t.inventory.rows[i] == s.inventory.rows[i]
  }

  /** An install puts the item's machine at the slot asked for and evicts exactly what was in the way. */
  lemma {:induction false} InstallOutcome(s: Store, op: Op)
    requires Inv(s) && op.Install? && Orderly(s, op) && Answer(s, op) == Done
    ensures var t, spec := Apply(s, op), s.inventory.rows[op.item].spec;
            && LandsAt(s, t, op.user, op.slot, spec,
                       InTheWay(s.machines.rows, op.user, op.slot, spec.slotSize, None, true))
            && LeavesInventory(s, t, op.item) && t.vault == s.vault && SameRest(s, t)
  {
    MakeRoomExactly(s, op.user, op.slot, s.inventory.rows[op.item].spec.slotSize, None, op.order, op.previous);
  }

  /** A retrieval to the grid does the same for a vault item, but leaves a previous double where it is. */
  lemma {:induction false} RetrieveToRackOutcome(s: Store, op: Op)
    requires Inv(s) && op.RetrieveToRack? && Orderly(s, op) && Answer(s, op) == Done
    ensures var t, spec := Apply(s, op), s.vault.rows[op.item].spec;
            && LandsAt(s, t, op.user, op.slot, spec,
                       InTheWay(s.machines.rows, op.user, op.slot, spec.slotSize, None, false))
            && Removed(s.vault.rows, t.vault.rows, op.item) && SameRest(s, t)
            && (forall i | i in s.inventory.rows :: i in t.inventory.rows && t.inventory.rows[i] == s.inventory.rows[i])
  {
    var size := s.vault.rows[op.item].spec.slotSize;
    var gone := StartingIn(s.machines.rows, op.user, op.slot, size, None);
    EvictSetExactly(s, op.order, gone);
    assert InTheWay(s.machines.rows, op.user, op.slot, size, None, false) == gone;
  }

  /** A move changes the slot of its machine and evicts exactly what was in the way. */
  lemma {:induction false} MoveOutcome(s: Store, op: Op)
    requires Inv(s) && op.Move? && Orderly(s, op) && Answer(s, op) == Done
    ensures var t, m := Apply(s, op), s.machines.rows[op.machine];
            var gone := InTheWay(s.machines.rows, op.user, op.slot, m.spec.slotSize, Some(op.machine), true);
            && t.machines.rows == (s.machines.rows - gone)[op.machine := m.(slot := op.slot)]
            && Cleared(s.racks.rows, t.racks.rows, gone) && t.vault == s.vault && SameRest(s, t)
            && (forall i | i in s.inventory.rows :: i in t.inventory.rows && t.inventory.rows[i] == s.inventory.rows[i])
  {
    var size := s.machines.rows[op.machine].spec.slotSize;
    MakeRoomExactly(s, op.user, op.slot, size, Some(op.machine), op.order, op.previous);
  }

  // ---- Off the floor ----

  /** The machine has gone, with every rack's pointer to it. */
  ghost predicate Taken(s: Store, t: Store, machine: nat) {
    && Removed(s.machines.rows, t.machines.rows, machine) && Cleared(s.racks.rows, t.racks.rows, {machine})
    && SameRest(s, t)
  }

  /** A row of this user and kind is new under the next id. */
  ghost predicate Arrives(before: Table<Item>, after: Table<Item>, user: nat, spec: Spec) {
    && Added(before.rows, after.rows, before.next)
    && after.rows[before.next].user == user && after.rows[before.next].spec == spec
  }

  lemma {:induction false} ReleaseClears(racks: Table<Rack>, machine: nat)
    ensures Cleared(racks.rows, Release(racks, machine).rows, {machine})
  {
  }

  lemma {:induction false} RemoveOutcome(s: Store, user: nat, machine: nat)
    requires IdsFresh(s) && Answer(s, Remove(user, machine)) == Done
    ensures var t, m := Apply(s, Remove(user, machine)), s.machines.rows[machine];
            Taken(s, t, machine) && Arrives(s.inventory, t.inventory, m.user, m.spec) && t.vault == s.vault
  {
    ReleaseClears(s.racks, machine);
  }

  lemma {:induction false} RoomUninstallOutcome(s: Store, user: nat, rack: nat)
    requires IdsFresh(s) && Answer(s, RoomUninstall(user, rack)) == Done
    ensures var t, machine := Apply(s, RoomUninstall(user, rack)), s.racks.rows[rack].host.value;
            && machine in s.machines.rows && Taken(s, t, machine) && t.vault == s.vault
            && Arrives(s.inventory, t.inventory, s.machines.rows[machine].user, s.machines.rows[machine].spec)
  {
    ReleaseClears(s.racks, s.racks.rows[rack].host.value);
  }

  lemma {:induction false} StoreMachineOutcome(s: Store, user: nat, machine: nat)
    requires IdsFresh(s) && Answer(s, StoreMachine(user, machine)) == Done
    ensures var t, m := Apply(s, StoreMachine(user, machine)), s.machines.rows[machine];
            Taken(s, t, machine) && Arrives(s.vault, t.vault, m.user, m.spec) && t.inventory == s.inventory
  {
    ReleaseClears(s.racks, machine);
  }

  // ---- Between inventory and vault ----

  lemma {:induction false} StoreItemOutcome(s: Store, user: nat, item: nat)
    requires IdsFresh(s) && Answer(s, StoreItem(user, item)) == Done
    ensures var t, row := Apply(s, StoreItem(user, item)), s.inventory.rows[item];
            && Removed(s.inventory.rows, t.inventory.rows, item) && Arrives(s.vault, t.vault, row.user, row.spec)
            && t.machines == s.machines && t.racks == s.racks && SameRest(s, t)
  {
  }

  lemma {:induction false} RetrieveItemOutcome(s: Store, user: nat, item: nat)
    requires IdsFresh(s) && Answer(s, RetrieveItem(user, item)) == Done
    ensures var t, row := Apply(s, RetrieveItem(user, item)), s.vault.rows[item];
            && Removed(s.vault.rows, t.vault.rows, item) && Arrives(s.inventory, t.inventory, row.user, row.spec)
            && t.machines == s.machines && t.racks == s.racks && SameRest(s, t)
  {
  }

  /** A discarded item is gone with its owned row, and nothing else. */
  lemma {:induction false} DiscardOutcome(s: Store, user: nat, item: nat)
    requires Inv(s) && Answer(s, Discard(user, item)) == Done
    ensures var t, link := Apply(s, Discard(user, item)), s.inventory.rows[item].owned;
            && Removed(s.inventory.rows, t.inventory.rows, item)
            && (if link.Some? then Removed(s.owned.rows, t.owned.rows, link.value) else t.owned == s.owned)
            && t.machines == s.machines && t.vault == s.vault && t.racks == s.racks && SameRest(s, t)
  {
    assert Live(s, InInventory(item));
  }

  /** Item `k` is one of the new ones, with an owned row that is new too. */
  ghost predicate GrantedAt(s: Store, t: Store, user: nat, kind: Spec, k: nat) {
    k >= s.inventory.next && var o := s.owned.next + (k - s.inventory.next);
    && k in t.inventory.rows && t.inventory.rows[k] == Item(user, kind, Some(o))
    && o in t.owned.rows && t.owned.rows[o] == OwnedRow(user, INVENTORY, kind)
  }

  /** A grant adds so many items of the user, each with an owned row of its own; a size that is not 1 or 2 becomes 1. */
  lemma {:induction false} GrantOutcome(s: Store, user: nat, spec: Spec, quantity: nat)
    requires IdsFresh(s)
    ensures var t := Apply(s, Grant(user, spec, quantity));
            var kind := spec.(slotSize := if spec.slotSize == 1 || spec.slotSize == 2 then spec.slotSize else 1);
            && t.inventory.next == s.inventory.next + quantity && t.owned.next == s.owned.next + quantity
            && (forall k :: k in t.inventory.rows <==>
                  k in s.inventory.rows || s.inventory.next <= k < t.inventory.next)
            && (forall k | k in s.inventory.rows :: t.inventory.rows[k] == s.inventory.rows[k])
            && (forall k | s.inventory.next <= k < t.inventory.next :: GrantedAt(s, t, user, kind, k))
            && t.machines == s.machines && t.vault == s.vault && t.racks == s.racks && SameRest(s, t)
  {
    ManyGranted(s, user, ClampSpec(spec), quantity);
  }

  lemma {:induction false} ManyGranted(s: Store, user: nat, kind: Spec, quantity: nat)
    requires IdsFresh(s)
    ensures var t := GrantMany(s, user, kind, quantity);
            && t.inventory.next == s.inventory.next + quantity && t.owned.next == s.owned.next + quantity
            && (forall k :: k in t.inventory.rows <==>
                  k in s.inventory.rows || s.inventory.next <= k < t.inventory.next)
            && (forall k | k in s.inventory.rows :: t.inventory.rows[k] == s.inventory.rows[k])
            && (forall k | s.inventory.next <= k < t.inventory.next :: GrantedAt(s, t, user, kind, k))
            && t.machines == s.machines && t.vault == s.vault && t.racks == s.racks && SameRest(s, t)
  {
    if quantity > 0 {
      ManyGranted(s, user, kind, quantity - 1);
      var before, t := GrantMany(s, user, kind, quantity - 1), GrantMany(s, user, kind, quantity);
      forall k | s.inventory.next <= k < t.inventory.next ensures GrantedAt(s, t, user, kind, k) {
        if k < before.inventory.next { assert GrantedAt(s, before, user, kind, k); }
      }
    }
  }

  // ---- Rooms ----

  /** The slot of a rack: a thousand, a room's worth for each room before, and the position. */
  function RackSlot(s: Store, rack: nat): int
    requires rack in s.racks.rows && s.racks.rows[rack].room in s.rooms.rows
  {
    1000 + (s.rooms.rows[s.racks.rows[rack].room].number - 1) * s.cfg.racksPerRoom + s.racks.rows[rack].position
  }

  /** The rack after `rack` in its room. */
  predicate NextTo(racks: map<nat, Rack>, rack: nat, r: nat)
    requires rack in racks && r in racks
  {
    racks[r].room == racks[rack].room && racks[r].position == racks[rack].position + 1
  }

  /** Machine `m` is hosted by `rack`, and a double also blocks the next rack. */
  ghost predicate Occupies(before: map<nat, Rack>, after: map<nat, Rack>, rack: nat, m: nat, double: bool)
    requires rack in before
  {
    && after.Keys == before.Keys
    && forall r | r in before ::
         after[r] == before[r].(
           host := if r == rack then Some(m) else before[r].host,
           blockedBy := if double && NextTo(before, rack, r) then Some(m) else before[r].blockedBy)
  }

  lemma {:induction false} OccupyExactly(s: Store, rack: nat, size: int, m: nat)
    requires rack in s.racks.rows && 1 <= size <= 2
    ensures Occupies(s.racks.rows, Occupy(s.racks, rack, BlockedBeside(s, rack, size), m).rows, rack, m, size == 2)
  {
  }

  /** A room install puts the machine at its rack's slot; a double also blocks the next rack. */
  lemma {:induction false} RoomInstallOutcome(s: Store, user: nat, rack: nat, item: nat)
    requires Inv(s) && Answer(s, RoomInstall(user, rack, item)) == Done
    ensures s.racks.rows[rack].room in s.rooms.rows
    ensures var t, spec := Apply(s, RoomInstall(user, rack, item)), s.inventory.rows[item].spec;
            var m := s.machines.next;
            && Added(s.machines.rows, t.machines.rows, m) && t.machines.rows[m].user == user
            && t.machines.rows[m].slot == RackSlot(s, rack) && t.machines.rows[m].spec == spec
            && Occupies(s.racks.rows, t.racks.rows, rack, m, spec.slotSize == 2)
            && Removed(s.inventory.rows, t.inventory.rows, item) && t.vault == s.vault && SameRest(s, t)
  {
    assert OneOrTwo(s.inventory.rows[item].spec);
    OccupyExactly(s, rack, s.inventory.rows[item].spec.slotSize, s.machines.next);
  }

  /** The user's rooms. */
  function Rooms(s: Store, user: nat): set<nat> {
    set r | r in s.rooms.rows && s.rooms.rows[r].user == user
  }

  /** The configured price of the user's next room: nothing beyond the list, and none if it is not a number. */
  function NextPrice(s: Store, user: nat): Option<real> {
    var n := |Rooms(s, user)|;
    if n < |s.cfg.prices| then s.cfg.prices[n] else Some(0.0)
  }

  /** Which refusal a purchase of a room meets. */
  lemma {:induction false} BuyRoomReplies(s: Store, user: nat)
    ensures Answer(s, BuyRoom(user)) ==
              if |Rooms(s, user)| >= s.cfg.roomMax then MaxRooms
              else if NextPrice(s, user).None? || NextPrice(s, user).value < 0.0 then InvalidPrice
              else if user !in s.balance then UserNotFound
              else if s.balance[user] < NextPrice(s, user).value then InsufficientBalance
              else Done
  {
    assert Rooms(s, user) == UserRooms(s.rooms.rows, user);
  }

  /** The racks of the new room: one empty rack for each position, under the next ids. */
  ghost predicate NewRacks(before: Table<Rack>, after: Table<Rack>, user: nat, room: nat, count: nat) {
    && after.next == before.next + count
    && (forall r :: r in after.rows <==> r in before.rows || before.next <= r < after.next)
    && (forall r | r in before.rows :: after.rows[r] == before.rows[r])
    && (forall r: nat | before.next <= r < after.next ::
          after.rows[r] == Rack(user, room, r - before.next, None, None))
  }

  /** The user pays the configured price and gets the next room, with all its racks empty. */
  lemma {:induction false} BuyRoomOutcome(s: Store, user: nat)
    requires IdsFresh(s) && Answer(s, BuyRoom(user)) == Done
    ensures user in s.balance && NextPrice(s, user).Some?
    ensures var t, price := Apply(s, BuyRoom(user)), NextPrice(s, user).value;
            && t.balance == s.balance[user := s.balance[user] - price]
            && Added(s.rooms.rows, t.rooms.rows, s.rooms.next)
            && t.rooms.rows[s.rooms.next] == Room(user, |Rooms(s, user)| + 1, price)
            && NewRacks(s.racks, t.racks, user, s.rooms.next, s.cfg.racksPerRoom)
            && t.machines == s.machines && t.inventory == s.inventory && t.vault == s.vault && t.owned == s.owned
  {
    assert Rooms(s, user) == UserRooms(s.rooms.rows, user);
    AddRacksRows(s.racks, user, s.rooms.next, s.cfg.racksPerRoom);
    assert s.balance[user := s.balance[user]] == s.balance;
  }

  // ---- Replies ----

  predicate HasItem(rows: map<nat, Item>, user: nat, item: nat) {
    item in rows && rows[item].user == user
  }

  predicate HasMachine(rows: map<nat, Machine>, user: nat, machine: nat) {
    machine in rows && rows[machine].user == user
  }

  /** A double starts on even slots only. */
  predicate Misaligned(spec: Spec, slot: int) {
    spec.slotSize == 2 && slot % 2 == 1
  }

  lemma {:induction false} GridReplies(s: Store, op: Op)
    requires op.Install? || op.Move? || op.RetrieveToRack?
    ensures var outside := op.slot < 0 || op.slot >= 80;
            match op
            case Install(user, slot, item, _, _) =>
              Answer(s, op) == if outside then InvalidSlot
                               else if !HasItem(s.inventory.rows, user, item) then NotFound
                               else if Misaligned(s.inventory.rows[item].spec, slot) then OddSlot
                               else Done
            case Move(user, machine, slot, _, _) =>
              Answer(s, op) == if outside then InvalidSlot
                               else if !HasMachine(s.machines.rows, user, machine) then NotFound
                               else if Misaligned(s.machines.rows[machine].spec, slot) then OddSlot
                               else Done
            case RetrieveToRack(user, item, slot, _) =>
              Answer(s, op) == if !HasItem(s.vault.rows, user, item) then NotFound
                               else if outside then InvalidSlot
                               else if Misaligned(s.vault.rows[item].spec, slot) then OddSlot
                               else Done
            case _ => true
  {
  }

  predicate InUse(r: Rack) {
    r.host != None || r.blockedBy != None
  }

  /** A rack in use takes nothing, and a double needs a next rack that is free. */
  lemma {:induction false} RoomInstallReplies(s: Store, user: nat, rack: nat, item: nat)
    requires ItemSizesOk(s.inventory.rows)
    ensures var racks := s.racks.rows;
            Answer(s, RoomInstall(user, rack, item)) ==
              if rack !in racks || racks[rack].user != user then NotFound
              else if InUse(racks[rack]) then RackOccupied
              else if !HasItem(s.inventory.rows, user, item) then NotFound
              else if s.inventory.rows[item].spec.slotSize == 1 then Done
              else if forall r | r in racks :: !NextTo(racks, rack, r) then NoSpace
              else if exists r :: r in racks && NextTo(racks, rack, r) && InUse(racks[r]) then AdjacentRackOccupied
              else Done
  {
    var racks := s.racks.rows;
    if rack in racks && HasItem(s.inventory.rows, user, item) && s.inventory.rows[item].spec.slotSize == 2 {
      var next := RackAt(racks, racks[rack].room, racks[rack].position + 1);
      assert forall r | r in racks :: r in next <==> NextTo(racks, rack, r);
      if forall r | r in racks :: !NextTo(racks, rack, r) { assert next == {}; }
    }
  }

  /** The other requests find the row they name with its user, or answer not found. */
  lemma {:induction false} OtherReplies(s: Store, op: Op)
    ensures match op
            case Grant(_, _, _) => Answer(s, op) == Done
            case Discard(user, item) =>
              Answer(s, op) == if HasItem(s.inventory.rows, user, item) then Done else NotFound
            case StoreItem(user, item) =>
              Answer(s, op) == if HasItem(s.inventory.rows, user, item) then Done else NotFound
            case RetrieveItem(user, item) =>
              Answer(s, op) == if HasItem(s.vault.rows, user, item) then Done else NotFound
            case Remove(user, machine) =>
              Answer(s, op) == if HasMachine(s.machines.rows, user, machine) then Done else NotFound
            case StoreMachine(user, machine) =>
              Answer(s, op) == if HasMachine(s.machines.rows, user, machine) then Done else NotFound
            case RoomUninstall(user, rack) =>
              Answer(s, op) == if rack !in s.racks.rows || s.racks.rows[rack].user != user then NotFound
                               else if s.racks.rows[rack].host.Some? && s.racks.rows[rack].host.value in s.machines.rows
                               then Done else RackEmpty
            case _ => true
  {
  }

  /** A refused request changes nothing. */
  lemma {:induction false} RefusedOutcome(s: Store, op: Op)
    requires Answer(s, op) != Done
    ensures Apply(s, op) == s
  {
  }
}
