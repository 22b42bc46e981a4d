/** No machine is made or lost by being moved: counts per user, level, hash rate and size. */
module PlacementCounts {
  import opened Tables
  import opened PlacementModel
  import opened PlacementInvariants
  import opened PlacementSteps

  function One(matches: bool): int {
    if matches then 1 else 0
  }

  lemma {:induction false} ItemIn(rows: map<nat, Item>, id: nat, row: Item, user: nat, spec: Spec)
    requires id !in rows
    ensures |ItemsLike(rows[id := row], user, spec)|
         == |ItemsLike(rows, user, spec)| + One(row.user == user && row.spec == spec)
  {
    assert ItemsLike(rows[id := row], user, spec)
        == ItemsLike(rows, user, spec) + if row.user == user && row.spec == spec then {id} else {};
  }

  lemma {:induction false} ItemOut(rows: map<nat, Item>, id: nat, user: nat, spec: Spec)
    requires id in rows
    ensures |ItemsLike(rows - {id}, user, spec)|
         == |ItemsLike(rows, user, spec)| - One(rows[id].user == user && rows[id].spec == spec)
  {
    assert ItemsLike(rows - {id}, user, spec) == ItemsLike(rows, user, spec) - {id};
    assert id in ItemsLike(rows, user, spec) <==> rows[id].user == user && rows[id].spec == spec;
  }

  lemma {:induction false} MachineIn(rows: map<nat, Machine>, id: nat, row: Machine, user: nat, spec: Spec)
    requires id !in rows
    ensures |MachinesLike(rows[id := row], user, spec)|
         == |MachinesLike(rows, user, spec)| + One(row.user == user && row.spec == spec)
  {
    assert MachinesLike(rows[id := row], user, spec)
        == MachinesLike(rows, user, spec) + if row.user == user && row.spec == spec then {id} else {};
  }

  lemma {:induction false} MachineOut(rows: map<nat, Machine>, id: nat, user: nat, spec: Spec)
    requires id in rows
    ensures |MachinesLike(rows - {id}, user, spec)|
         == |MachinesLike(rows, user, spec)| - One(rows[id].user == user && rows[id].spec == spec)
  {
    assert MachinesLike(rows - {id}, user, spec) == MachinesLike(rows, user, spec) - {id};
    assert id in MachinesLike(rows, user, spec) <==> rows[id].user == user && rows[id].spec == spec;
  }

  lemma {:induction false} GrantOneCounts(s: Store, owner: nat, granted: Spec, user: nat, spec: Spec)
    requires s.inventory.Fresh()
    ensures Tally(GrantOne(s, owner, granted), user, spec)
         == Tally(s, user, spec) + One(owner == user && granted == spec)
  {
    ItemIn(s.inventory.rows, s.inventory.next, Item(owner, granted, Some(s.owned.next)), user, spec);
  }

  lemma {:induction false} GrantManyFresh(s: Store, owner: nat, granted: Spec, quantity: nat)
    requires s.inventory.Fresh()
    ensures GrantMany(s, owner, granted, quantity).inventory.Fresh()
  {
    if quantity > 0 { GrantManyFresh(s, owner, granted, quantity - 1); }
  }

  lemma {:induction false} GrantManyCounts(s: Store, owner: nat, granted: Spec, quantity: nat, user: nat, spec: Spec)
    requires s.inventory.Fresh()
    ensures Tally(GrantMany(s, owner, granted, quantity), user, spec)
         == Tally(s, user, spec) + if owner == user && granted == spec then quantity else 0
  {
    if quantity > 0 {
      GrantManyCounts(s, owner, granted, quantity - 1, user, spec);
      GrantManyFresh(s, owner, granted, quantity - 1);
      GrantOneCounts(GrantMany(s, owner, granted, quantity - 1), owner, granted, user, spec);
    }
  }

  lemma {:induction false} EvictCounts(s: Store, m: nat, user: nat, spec: Spec)
    requires s.inventory.Fresh()
    ensures Tally(Evict(s, m), user, spec) == Tally(s, user, spec)
  {
    if m in s.machines.rows {
      var row := s.machines.rows[m];
      ItemIn(s.inventory.rows, s.inventory.next, Item(row.user, row.spec, Some(s.owned.next)), user, spec);
      MachineOut(s.machines.rows, m, user, spec);
    }
  }

  lemma {:induction false} EvictAllCounts(s: Store, order: seq<nat>, user: nat, spec: Spec)
    requires Inv(s)
    ensures Tally(EvictAll(s, order), user, spec) == Tally(s, user, spec)
  {
    if order != [] {
      EvictAllCounts(s, order[..|order| - 1], user, spec);
      EvictAllKeeps(s, order[..|order| - 1]);
      EvictCounts(EvictAll(s, order[..|order| - 1]), order[|order| - 1], user, spec);
    }
  }

  lemma {:induction false} ItemToMachineCounts(s: Store, item: nat, slot: int, user: nat, spec: Spec)
    requires item in s.inventory.rows && s.machines.Fresh()
    ensures Tally(ItemToMachine(s, item, slot, s.inventory.rows[item].spec), user, spec) == Tally(s, user, spec)
  {
    var t := ItemToMachine(s, item, slot, s.inventory.rows[item].spec);
    ItemOut(s.inventory.rows, item, user, spec);
    MachineIn(s.machines.rows, s.machines.next, t.machines.rows[s.machines.next], user, spec);
  }

  lemma {:induction false} VaultToMachineCounts(s: Store, item: nat, slot: int, user: nat, spec: Spec)
    requires item in s.vault.rows && s.machines.Fresh()
    ensures Tally(VaultToMachine(s, item, slot, s.vault.rows[item].spec), user, spec) == Tally(s, user, spec)
  {
    var t := VaultToMachine(s, item, slot, s.vault.rows[item].spec);
    ItemOut(s.vault.rows, item, user, spec);
    MachineIn(s.machines.rows, s.machines.next, t.machines.rows[s.machines.next], user, spec);
  }

  lemma {:induction false} MachineToInventoryCounts(s: Store, m: nat, user: nat, spec: Spec)
    requires m in s.machines.rows && s.inventory.Fresh()
    ensures Tally(MachineToInventory(s, m), user, spec) == Tally(s, user, spec)
  {
    var t := MachineToInventory(s, m);
    MachineOut(s.machines.rows, m, user, spec);
    ItemIn(s.inventory.rows, s.inventory.next, t.inventory.rows[s.inventory.next], user, spec);
  }

  lemma {:induction false} MachineToVaultCounts(s: Store, m: nat, user: nat, spec: Spec)
    requires m in s.machines.rows && s.vault.Fresh()
    ensures Tally(MachineToVault(s, m), user, spec) == Tally(s, user, spec)
  {
    var t := MachineToVault(s, m);
    MachineOut(s.machines.rows, m, user, spec);
    ItemIn(s.vault.rows, s.vault.next, t.vault.rows[s.vault.next], user, spec);
  }

  lemma {:induction false} ItemToVaultCounts(s: Store, item: nat, user: nat, spec: Spec)
    requires item in s.inventory.rows && s.vault.Fresh()
    ensures Tally(ItemToVault(s, item), user, spec) == Tally(s, user, spec)
  {
    var t := ItemToVault(s, item);
    ItemOut(s.inventory.rows, item, user, spec);
    ItemIn(s.vault.rows, s.vault.next, t.vault.rows[s.vault.next], user, spec);
  }

  lemma {:induction false} VaultToItemCounts(s: Store, item: nat, user: nat, spec: Spec)
    requires item in s.vault.rows && s.inventory.Fresh()
    ensures Tally(VaultToItem(s, item), user, spec) == Tally(s, user, spec)
  {
    var t := VaultToItem(s, item);
    ItemOut(s.vault.rows, item, user, spec);
    ItemIn(s.inventory.rows, s.inventory.next, t.inventory.rows[s.inventory.next], user, spec);
  }

  lemma {:induction false} MoveCounts(s: Store, m: nat, slot: int, user: nat, spec: Spec)
    requires m in s.machines.rows
    ensures Tally(s.(machines := s.machines.Update(m, s.machines.rows[m].(slot := slot))), user, spec) ==
              Tally(s, user, spec)
  {
    assert MachinesLike(s.machines.rows[m := s.machines.rows[m].(slot := slot)], user, spec)
        == MachinesLike(s.machines.rows, user, spec);
  }

  /** What a request adds to the count: grants add, discards subtract, every move adds nothing. */
  function Added(s: Store, op: Op, user: nat, spec: Spec): int {
    if Answer(s, op) != Done then 0 else
    match op
    case Grant(owner, granted, quantity) => if owner == user && ClampSpec(granted) == spec then quantity else 0
    case Discard(owner, item) => -One(owner == user && s.inventory.rows[item].spec == spec)
    case _ => 0
  }

  lemma {:induction false} MakeRoomCounts(s: Store, order: seq<nat>, previous: seq<nat>, user: nat, spec: Spec)
    requires Inv(s)
    ensures Tally(MakeRoom(s, order, previous), user, spec) == Tally(s, user, spec)
  {
    EvictAllKeeps(s, order);
    EvictAllCounts(s, order, user, spec);
    EvictAllCounts(EvictAll(s, order), previous, user, spec);
  }

  lemma {:induction false} InstallCounts(s: Store, op: Op, user: nat, spec: Spec)
    requires Inv(s) && op.Install? && Answer(s, op) == Done
    ensures Tally(Effect(s, op), user, spec) == Tally(s, user, spec)
  {
    MakeRoomKeeps(s, op.order, op.previous);
    MakeRoomCounts(s, op.order, op.previous, user, spec);
    ItemToMachineCounts(MakeRoom(s, op.order, op.previous), op.item, op.slot, user, spec);
  }

  lemma {:induction false} MoveMachineCounts(s: Store, op: Op, user: nat, spec: Spec)
    requires Inv(s) && op.Move? && Answer(s, op) == Done
    ensures Tally(Effect(s, op), user, spec) == Tally(s, user, spec)
  {
    MakeRoomCounts(s, op.order, op.previous, user, spec);
    var t := MakeRoom(s, op.order, op.previous);
    if op.machine in t.machines.rows { MoveCounts(t, op.machine, op.slot, user, spec); }
  }

  lemma {:induction false} RetrieveToRackCounts(s: Store, op: Op, user: nat, spec: Spec)
    requires Inv(s) && op.RetrieveToRack? && Answer(s, op) == Done
    ensures Tally(Effect(s, op), user, spec) == Tally(s, user, spec)
  {
    EvictAllKeeps(s, op.order);
    EvictAllCounts(s, op.order, user, spec);
    VaultToMachineCounts(EvictAll(s, op.order), op.item, op.slot, user, spec);
  }

  lemma {:induction false} RoomInstallCounts(s: Store, op: Op, user: nat, spec: Spec)
    requires Inv(s) && op.RoomInstall? && Answer(s, op) == Done
    ensures Tally(Effect(s, op), user, spec) == Tally(s, user, spec)
  {
    ItemToMachineCounts(s, op.item, SlotOf(s.cfg, s.rooms.rows, s.racks.rows[op.rack]), user, spec);
  }

  lemma {:induction false} ApplyCounts(s: Store, op: Op, user: nat, spec: Spec)
    requires Inv(s)
    ensures Tally(Apply(s, op), user, spec) == Tally(s, user, spec) + Added(s, op, user, spec)
  {
    if Answer(s, op) == Done {
      match op
      case Grant(owner, granted, quantity) => GrantManyCounts(s, owner, ClampSpec(granted), quantity, user, spec);
      case Discard(owner, item) => ItemOut(s.inventory.rows, item, user, spec);
      case Install(_, _, _, _, _) => InstallCounts(s, op, user, spec);
      case Move(_, _, _, _, _) => MoveMachineCounts(s, op, user, spec);
      case Remove(owner, machine) => MachineToInventoryCounts(s, machine, user, spec);
      case BuyRoom(owner) =>
      case RoomInstall(_, _, _) => RoomInstallCounts(s, op, user, spec);
      case RoomUninstall(owner, rack) => MachineToInventoryCounts(s, s.racks.rows[rack].host.value, user, spec);
      case StoreItem(owner, item) => ItemToVaultCounts(s, item, user, spec);
      case StoreMachine(owner, machine) => MachineToVaultCounts(s, machine, user, spec);
      case RetrieveItem(owner, item) => VaultToItemCounts(s, item, user, spec);
      case RetrieveToRack(_, _, _, _) => RetrieveToRackCounts(s, op, user, spec);
    }
  }

  function AddedBy(s: Store, ops: seq<Op>, user: nat, spec: Spec): int
    decreases |ops|
  {
    if ops == [] then 0 else Added(s, ops[0], user, spec) + AddedBy(Apply(s, ops[0]), ops[1..], user, spec)
  }
}
