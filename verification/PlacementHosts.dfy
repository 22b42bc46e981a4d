/** Racks and the machines they host: when a hosted machine is at its rack's slot. */
module PlacementHosts {
  import opened Tables
  import opened PlacementModel
  import opened PlacementInvariants
  import opened PlacementRacks
  import opened PlacementSteps

  /** Every host pointer names a machine at the slot of its rack. */
  ghost predicate HostsAtSlots(s: Store) {
    forall r | r in s.racks.rows && s.racks.rows[r].host.Some? ::
      var m := s.racks.rows[r].host.value;
      m in s.machines.rows && s.machines.rows[m].slot == SlotOf(s.cfg, s.rooms.rows, s.racks.rows[r])
  }

  predicate Hosts(racks: map<nat, Rack>, r: nat, m: nat) {
    r in racks && racks[r].host == Some(m)
  }

  ghost predicate Hosted(racks: map<nat, Rack>, m: nat) {
    exists r :: Hosts(racks, r, m)
  }

  /** No hosted machine is on the grid. */
  ghost predicate Seated(racks: map<nat, Rack>, ms: map<nat, Machine>) {
    forall r, m | Hosts(racks, r, m) :: m in ms && !OnGrid(ms[m].slot)
  }

  /** A hosted machine is either at its rack's slot or on the grid, and never both. */
  lemma {:induction false} SeatedExactly(s: Store)
    requires Inv(s)
    ensures HostsAtSlots(s) <==> Seated(s.racks.rows, s.machines.rows)
  {
    forall r, m | Hosts(s.racks.rows, r, m)
      ensures m in s.machines.rows
      ensures !OnGrid(s.machines.rows[m].slot) <==>
                s.machines.rows[m].slot == SlotOf(s.cfg, s.rooms.rows, s.racks.rows[r])
    {
      assert HostOk(s.cfg, s.rooms.rows, s.racks.rows, s.machines.rows, r);
      SlotsOfRacks(s.cfg, s.rooms.rows, s.racks.rows, r, r);
    }
    if HostsAtSlots(s) {
      forall r, m | Hosts(s.racks.rows, r, m) ensures m in s.machines.rows && !OnGrid(s.machines.rows[m].slot) {
        assert s.racks.rows[r].host.Some?;
      }
    }
    if Seated(s.racks.rows, s.machines.rows) {
      forall r | r in s.racks.rows && s.racks.rows[r].host.Some?
        ensures var m := s.racks.rows[r].host.value;
                m in s.machines.rows && s.machines.rows[m].slot == SlotOf(s.cfg, s.rooms.rows, s.racks.rows[r])
      {
        assert Hosts(s.racks.rows, r, s.racks.rows[r].host.value);
      }
    }
  }

  // ---- Row-level effects ----

  lemma {:induction false} ReleaseSeats(racks: Table<Rack>, ms: map<nat, Machine>, m: nat)
    requires Seated(racks.rows, ms)
    ensures Seated(Release(racks, m).rows, ms - {m})
  {
    forall r, k | Hosts(Release(racks, m).rows, r, k) ensures k in ms - {m} && !OnGrid((ms - {m})[k].slot) {
      assert Hosts(racks.rows, r, k);
    }
  }

  /** A machine that no rack hosts may be anywhere. */
  lemma {:induction false} UnhostedSeats(racks: map<nat, Rack>, ms: map<nat, Machine>, m: nat, row: Machine)
    requires Seated(racks, ms) && !Hosted(racks, m)
    ensures Seated(racks, ms[m := row])
  {
    forall r, k | Hosts(racks, r, k) ensures k in ms[m := row] && !OnGrid(ms[m := row][k].slot) {
      assert k != m;
    }
  }

  lemma {:induction false} EvictAllSeats(s: Store, order: seq<nat>)
    requires Seated(s.racks.rows, s.machines.rows)
    ensures Seated(EvictAll(s, order).racks.rows, EvictAll(s, order).machines.rows)
  {
    if order != [] {
      var front, m := EvictAll(s, order[..|order| - 1]), order[|order| - 1];
      EvictAllSeats(s, order[..|order| - 1]);
      if m in front.machines.rows { ReleaseSeats(front.racks, front.machines.rows, m); }
    }
  }

  /** Evictions leave exactly the host pointers to other machines. */
  lemma {:induction false} EvictAllHosts(s: Store, order: seq<nat>, r: nat, m: nat)
    requires m !in order
    ensures Hosts(EvictAll(s, order).racks.rows, r, m) <==> Hosts(s.racks.rows, r, m)
  {
    if order != [] { EvictAllHosts(s, order[..|order| - 1], r, m); }
  }

  lemma {:induction false} NextUnhosted(racks: map<nat, Rack>, ms: Table<Machine>)
    requires Seated(racks, ms.rows) && ms.Fresh()
    ensures !Hosted(racks, ms.next)
  {
    assert ms.next !in ms.rows;
  }

  lemma {:induction false} AddRacksSeats(racks: Table<Rack>, ms: map<nat, Machine>, user: nat, room: nat, count: nat)
    requires Seated(racks.rows, ms)
    ensures Seated(AddRacks(racks, user, room, count).rows, ms)
  {
    if count > 0 {
      AddRacksSeats(racks, ms, user, room, count - 1);
      var before, after := AddRacks(racks, user, room, count - 1).rows, AddRacks(racks, user, room, count).rows;
      forall r, m | Hosts(after, r, m) ensures m in ms && !OnGrid(ms[m].slot) {
        assert Hosts(before, r, m);
      }
    }
  }

  lemma {:induction false} GrantManyRows(s: Store, user: nat, spec: Spec, quantity: nat)
    ensures GrantMany(s, user, spec, quantity).racks == s.racks &&
              GrantMany(s, user, spec, quantity).machines == s.machines
  {
    if quantity > 0 { GrantManyRows(s, user, spec, quantity - 1); }
  }

  // ---- One request ----

  /** A move that succeeds and whose machine some rack hosts. */
  ghost predicate MovesHosted(s: Store, op: Op) {
    op.Move? && Answer(s, op) == Done && Hosted(s.racks.rows, op.machine)
  }

  lemma {:induction false} MoveEvictsOthers(s: Store, op: Op)
    requires op.Move? && Orderly(s, op) && Answer(s, op) == Done
    ensures op.machine !in op.order && op.machine !in op.previous
    ensures op.machine in MakeRoom(s, op.order, op.previous).machines.rows
  {
    var size := s.machines.rows[op.machine].spec.slotSize;
    MakeRoomClears(s, op.user, op.slot, size, Some(op.machine), op.order, op.previous);
  }

  /** A move leaves every host pointer of its machine, while the machine goes to a grid slot. */
  lemma {:induction false} MoveKeepsHost(s: Store, op: Op, rack: nat)
    requires op.Move? && Orderly(s, op) && Answer(s, op) == Done
    ensures var t := Apply(s, op);
            && (Hosts(t.racks.rows, rack, op.machine) <==> Hosts(s.racks.rows, rack, op.machine))
            && op.machine in t.machines.rows && t.machines.rows[op.machine].slot == op.slot && OnGrid(op.slot)
  {
    MoveEvictsOthers(s, op);
    EvictAllHosts(s, op.order, rack, op.machine);
    EvictAllHosts(EvictAll(s, op.order), op.previous, rack, op.machine);
  }

  lemma {:induction false} MoveSeatsExactly(s: Store, op: Op)
    requires Seated(s.racks.rows, s.machines.rows) && op.Move? && Orderly(s, op) && Answer(s, op) == Done
    ensures Seated(Apply(s, op).racks.rows, Apply(s, op).machines.rows) <==> !Hosted(s.racks.rows, op.machine)
  {
    var early := EvictAll(s, op.order);
    var room, t := MakeRoom(s, op.order, op.previous), Apply(s, op);
    MoveEvictsOthers(s, op);
    EvictAllSeats(s, op.order);
    EvictAllSeats(early, op.previous);
    forall r ensures Hosts(t.racks.rows, r, op.machine) <==> Hosts(s.racks.rows, r, op.machine) {
      MoveKeepsHost(s, op, r);
    }
    if r :| Hosts(s.racks.rows, r, op.machine) {
      MoveKeepsHost(s, op, r);
    } else {
      assert t.racks == room.racks;
      assert !Hosted(room.racks.rows, op.machine);
      UnhostedSeats(room.racks.rows, room.machines.rows, op.machine, room.machines.rows[op.machine].(slot := op.slot));
    }
  }

  lemma {:induction false} InstallSeats(s: Store, op: Op)
    requires Inv(s) && Seated(s.racks.rows, s.machines.rows) && op.Install? && Answer(s, op) == Done
    ensures Seated(Effect(s, op).racks.rows, Effect(s, op).machines.rows)
  {
    var spec := s.inventory.rows[op.item].spec;
    var t := MakeRoom(s, op.order, op.previous);
    MakeRoomKeeps(s, op.order, op.previous);
    EvictAllSeats(s, op.order);
    EvictAllSeats(EvictAll(s, op.order), op.previous);
    NextUnhosted(t.racks.rows, t.machines);
    UnhostedSeats(t.racks.rows, t.machines.rows, t.machines.next, Effect(s, op).machines.rows[t.machines.next]);
  }

  lemma {:induction false} RetrievalSeats(s: Store, op: Op)
    requires Inv(s) && Seated(s.racks.rows, s.machines.rows) && op.RetrieveToRack? && Answer(s, op) == Done
    ensures Seated(Effect(s, op).racks.rows, Effect(s, op).machines.rows)
  {
    var t := EvictAll(s, op.order);
    EvictAllKeeps(s, op.order);
    EvictAllSeats(s, op.order);
    NextUnhosted(t.racks.rows, t.machines);
    UnhostedSeats(t.racks.rows, t.machines.rows, t.machines.next, Effect(s, op).machines.rows[t.machines.next]);
  }

  lemma {:induction false} RoomInstallSeats(s: Store, rack: nat, item: nat)
    requires Inv(s) && Seated(s.racks.rows, s.machines.rows) && rack in s.racks.rows && item in s.inventory.rows
    ensures Seated(InstallInRoom(s, rack, item).racks.rows, InstallInRoom(s, rack, item).machines.rows)
  {
    var t := InstallInRoom(s, rack, item);
    NextUnhosted(s.racks.rows, s.machines);
    SlotsOfRacks(s.cfg, s.rooms.rows, s.racks.rows, rack, rack);
    forall r, m | Hosts(t.racks.rows, r, m) ensures m in t.machines.rows && !OnGrid(t.machines.rows[m].slot) {
      if r != rack { assert Hosts(s.racks.rows, r, m); }
    }
  }

  lemma {:induction false} OtherSeats(s: Store, op: Op)
    requires Inv(s) && Seated(s.racks.rows, s.machines.rows) && Answer(s, op) == Done && !op.Move?
    ensures Seated(Effect(s, op).racks.rows, Effect(s, op).machines.rows)
  {
    match op
    case Grant(user, spec, quantity) => GrantManyRows(s, user, ClampSpec(spec), quantity);
    case Discard(_, _) =>
    case Install(_, _, _, _, _) => InstallSeats(s, op);
    case Remove(_, machine) => ReleaseSeats(s.racks, s.machines.rows, machine);
    case BuyRoom(user) => AddRacksSeats(s.racks, s.machines.rows, user, s.rooms.next, s.cfg.racksPerRoom);
    case RoomInstall(_, rack, item) => RoomInstallSeats(s, rack, item);
    case RoomUninstall(_, rack) => ReleaseSeats(s.racks, s.machines.rows, s.racks.rows[rack].host.value);
    case StoreItem(_, _) =>
    case StoreMachine(_, machine) => ReleaseSeats(s.racks, s.machines.rows, machine);
    case RetrieveItem(_, _) =>
    case RetrieveToRack(_, _, _, _) => RetrievalSeats(s, op);
  }

  lemma {:induction false} StepHosts(s: Store, op: Op)
    requires Inv(s) && HostsAtSlots(s) && Orderly(s, op)
    ensures HostsAtSlots(Apply(s, op)) <==> !MovesHosted(s, op)
  {
    SeatedExactly(s);
    if Answer(s, op) == Done {
      ApplyKeeps(s, op);
      SeatedExactly(Apply(s, op));
      if op.Move? { MoveSeatsExactly(s, op); } else { OtherSeats(s, op); }
    }
  }

  // ---- Runs ----

  ghost predicate AlwaysHostsAtSlots(s: Store, ops: seq<Op>)
    decreases |ops|
  {
    HostsAtSlots(s) && (ops != [] ==> AlwaysHostsAtSlots(Apply(s, ops[0]), ops[1..]))
  }

  ghost predicate NeverMovesHosted(s: Store, ops: seq<Op>)
    decreases |ops|
  {
    ops != [] ==> !MovesHosted(s, ops[0]) && NeverMovesHosted(Apply(s, ops[0]), ops[1..])
  }

  /**
   * Hosted machines are at their racks' slots throughout a run if and only if no move of the run that succeeds is of
   * a machine that a rack hosts.
   */
  lemma {:induction false} HostsStayExactly(s: Store, ops: seq<Op>)
    requires Inv(s) && Legal(s, ops) && HostsAtSlots(s)
    ensures AlwaysHostsAtSlots(s, ops) <==> NeverMovesHosted(s, ops)
    decreases |ops|
  {
    if ops != [] {
      var t := Apply(s, ops[0]);
      ApplyKeeps(s, ops[0]);
      StepHosts(s, ops[0]);
      if HostsAtSlots(t) { HostsStayExactly(t, ops[1..]); }
    }
  }
}
