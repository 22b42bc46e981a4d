/** Racks: how releasing, moving and installing a machine affects host and block pointers. */
module PlacementRacks {
  import opened Tables
  import opened PlacementModel
  import opened PlacementInvariants

  lemma {:induction false} Grows(d: int, k: nat)
    requires d >= 1
    ensures d * k >= k
  {
  }

  /** Room numbers and positions can be read back from the slot. */
  lemma {:induction false} RackSlotInjective(cfg: Config, n1: nat, p1: nat, n2: nat, p2: nat)
    requires p1 < cfg.racksPerRoom && p2 < cfg.racksPerRoom
    requires RackSlotIndex(cfg, n1, p1) == RackSlotIndex(cfg, n2, p2)
    ensures n1 == n2 && p1 == p2
  {
    var k := cfg.racksPerRoom;
    assert (n1 - n2) * k == p2 - p1 && (n2 - n1) * k == p1 - p2;
    if n1 > n2 {
      Grows(n1 - n2, k);
      assert false;
    } else if n1 < n2 {
      Grows(n2 - n1, k);
      assert false;
    }
  }

  lemma {:induction false} RackSlotFromBase(cfg: Config, n: nat, p: nat)
    requires n >= 1
    ensures RackSlotIndex(cfg, n, p) >= RACK_BASE
  {
    assert (n - 1) * cfg.racksPerRoom >= 0;
  }

  /** Racks of one user on different rooms or positions have different slots, all from 1000 up. */
  lemma {:induction false} SlotsOfRacks(cfg: Config, rooms: map<nat, Room>, racks: map<nat, Rack>, a: nat, b: nat)
    requires RoomsOk(rooms) && RacksPlaced(cfg, rooms, racks)
    requires a in racks && b in racks && racks[a].user == racks[b].user
    ensures SlotOf(cfg, rooms, racks[a]) >= RACK_BASE
    ensures SlotOf(cfg, rooms, racks[a]) == SlotOf(cfg, rooms, racks[b]) ==> a == b
  {
    var ra, rb := racks[a], racks[b];
    var na, nb := rooms[ra.room].number, rooms[rb.room].number;
    RackSlotFromBase(cfg, na, ra.position);
    if RackSlotIndex(cfg, na, ra.position) == RackSlotIndex(cfg, nb, rb.position) {
      RackSlotInjective(cfg, na, ra.position, nb, rb.position);
      assert ra.room == rb.room;
    }
  }

  lemma {:induction false} SlotBeside(cfg: Config, rooms: map<nat, Room>, a: Rack, b: Rack)
    requires Beside(a, b)
    ensures SlotOf(cfg, rooms, b) == SlotOf(cfg, rooms, a) + 1
  {
  }

  /** A host's block pointer on the next rack outlives any change that keeps the pointers of this machine. */
  lemma {:induction false} BlocksNextStays(racks: map<nat, Rack>, racks': map<nat, Rack>, r: nat, h: nat)
    requires r in racks && r in racks' && BlocksNext(racks, r, h)
    requires forall q | q in racks ::
              q in racks' && racks'[q].room == racks[q].room && racks'[q].position == racks[q].position
    requires forall q | q in racks && racks[q].blockedBy == Some(h) :: racks'[q].blockedBy == Some(h)
    ensures BlocksNext(racks', r, h)
  {
    var b :| b in racks && Beside(racks[r], racks[b]) && racks[b].blockedBy == Some(h);
    assert b in racks' && Beside(racks'[r], racks'[b]) && racks'[b].blockedBy == Some(h);
  }

  lemma {:induction false} HostedBeforeStays(racks: map<nat, Rack>, racks': map<nat, Rack>, b: nat, h: nat)
    requires b in racks && b in racks' && HostedBefore(racks, b, h)
    requires forall q | q in racks ::
              q in racks' && racks'[q].room == racks[q].room && racks'[q].position == racks[q].position
    requires forall q | q in racks && racks[q].host == Some(h) :: racks'[q].host == Some(h)
    ensures HostedBefore(racks', b, h)
  {
    var r :| r in racks && Beside(racks[r], racks[b]) && racks[r].host == Some(h);
    assert r in racks' && Beside(racks'[r], racks'[b]) && racks'[r].host == Some(h);
  }

  lemma {:induction false} HostedAtItsSlotStays(cfg: Config, rooms: map<nat, Room>, racks: map<nat, Rack>,
                                                racks': map<nat, Rack>,
                                                ms: map<nat, Machine>, ms': map<nat, Machine>, k: nat)
    requires k in ms && k in ms' && ms'[k].slot == ms[k].slot && HostedAtItsSlot(cfg, rooms, racks, ms, k)
    requires forall q | q in racks && racks[q].host == Some(k) ::
               q in racks' && racks'[q].host == Some(k) && racks'[q].room == racks[q].room &&
                 racks'[q].position == racks[q].position
    ensures HostedAtItsSlot(cfg, rooms, racks', ms', k)
  {
    var r :| r in racks && racks[r].host == Some(k) && SlotOf(cfg, rooms, racks[r]) == ms[k].slot;
    assert racks'[r].host == Some(k) && SlotOf(cfg, rooms, racks'[r]) == ms'[k].slot;
  }

  lemma {:induction false} ReleaseKeepsRack(cfg: Config, rooms: map<nat, Room>, racks: Table<Rack>,
                                            ms: map<nat, Machine>, m: nat, r: nat)
    requires RacksOk(cfg, rooms, racks.rows, ms) && r in racks.rows
    ensures HostOk(cfg, rooms, Release(racks, m).rows, ms - {m}, r) && BlockOk(Release(racks, m).rows, ms - {m}, r)
  {
    var old', new', left := racks.rows, Release(racks, m).rows, ms - {m};
    assert HostOk(cfg, rooms, old', ms, r) && BlockOk(old', ms, r);
    if new'[r].host.Some? && left[new'[r].host.value].spec.slotSize == 2 {
      BlocksNextStays(old', new', r, new'[r].host.value);
    }
    if new'[r].blockedBy.Some? {
      HostedBeforeStays(old', new', r, new'[r].blockedBy.value);
    }
  }

  /** A deleted machine is cleared from every rack, and the other pointers stay in order. */
  lemma {:induction false} ReleaseKeepsRacks(cfg: Config, rooms: map<nat, Room>, racks: Table<Rack>,
                                             ms: map<nat, Machine>, m: nat)
    requires RacksPlaced(cfg, rooms, racks.rows) && RacksOk(cfg, rooms, racks.rows, ms)
    ensures RacksPlaced(cfg, rooms, Release(racks, m).rows)
    ensures RacksOk(cfg, rooms, Release(racks, m).rows, ms - {m})
  {
    var old', new', left := racks.rows, Release(racks, m).rows, ms - {m};
    forall r | r in new' ensures HostOk(cfg, rooms, new', left, r) && BlockOk(new', left, r) {
      ReleaseKeepsRack(cfg, rooms, racks, ms, m, r);
    }
    forall k | k in left && left[k].slot >= RACK_BASE ensures HostedAtItsSlot(cfg, rooms, new', left, k) {
      assert HostedAtItsSlot(cfg, rooms, old', ms, k);
      HostedAtItsSlotStays(cfg, rooms, old', new', ms, left, k);
    }
  }

  /** Putting a machine on the grid, new or moved there, leaves the racks in order. */
  lemma {:induction false} GridKeepsRacks(cfg: Config, rooms: map<nat, Room>, racks: map<nat, Rack>,
                                          ms: map<nat, Machine>,
                                         m: nat, row: Machine)
    requires RacksOk(cfg, rooms, racks, ms)
    requires OnGrid(row.slot)
    requires m in ms ==> ms[m].user == row.user && ms[m].spec == row.spec
    ensures RacksOk(cfg, rooms, racks, ms[m := row])
  {
    var ms' := ms[m := row];
    forall r | r in racks ensures HostOk(cfg, rooms, racks, ms', r) && BlockOk(racks, ms', r) {
      assert HostOk(cfg, rooms, racks, ms, r) && BlockOk(racks, ms, r);
    }
    forall k | k in ms' && ms'[k].slot >= RACK_BASE ensures HostedAtItsSlot(cfg, rooms, racks, ms', k) {
      assert HostedAtItsSlot(cfg, rooms, racks, ms, k);
      var r :| r in racks && racks[r].host == Some(k) && SlotOf(cfg, rooms, racks[r]) == ms[k].slot;
      assert racks[r].host == Some(k) && SlotOf(cfg, rooms, racks[r]) == ms'[k].slot;
    }
  }

  /** A new machine on a free rack, with free racks beside it to block. */
  ghost predicate Installable(cfg: Config, rooms: map<nat, Room>, racks: Table<Rack>, ms: map<nat, Machine>,
                              rack: nat, blocked: set<nat>, m: nat, row: Machine)
  {
    && RacksPlaced(cfg, rooms, racks.rows) && RacksOk(cfg, rooms, racks.rows, ms)
    && rack in racks.rows && !Occupied(racks.rows[rack]) && m !in ms
    && row.user == racks.rows[rack].user && row.slot == SlotOf(cfg, rooms, racks.rows[rack])
    && (forall b | b in blocked ::
          b in racks.rows && !Occupied(racks.rows[b]) && Beside(racks.rows[rack], racks.rows[b]))
    && (blocked != {} <==> row.spec.slotSize == 2)
  }

  lemma {:induction false} OccupyKeepsHost(cfg: Config, rooms: map<nat, Room>, racks: Table<Rack>,
                                           ms: map<nat, Machine>,
                                           rack: nat, blocked: set<nat>, m: nat, row: Machine, r: nat)
    requires Installable(cfg, rooms, racks, ms, rack, blocked, m, row) && r in racks.rows
    ensures HostOk(cfg, rooms, Occupy(racks, rack, blocked, m).rows, ms[m := row], r)
  {
    var old', new', ms' := racks.rows, Occupy(racks, rack, blocked, m).rows, ms[m := row];
    assert rack !in blocked;
    assert HostOk(cfg, rooms, old', ms, r);
    if r == rack {
      if row.spec.slotSize == 2 {
        var b :| b in blocked;
        assert b in new' && Beside(new'[r], new'[b]) && new'[b].blockedBy == Some(m);
      }
    } else if new'[r].host.Some? && ms'[new'[r].host.value].spec.slotSize == 2 {
      BlocksNextStays(old', new', r, new'[r].host.value);
    }
  }

  lemma {:induction false} OccupyKeepsBlock(cfg: Config, rooms: map<nat, Room>, racks: Table<Rack>,
                                            ms: map<nat, Machine>,
                                            rack: nat, blocked: set<nat>, m: nat, row: Machine, r: nat)
    requires Installable(cfg, rooms, racks, ms, rack, blocked, m, row) && r in racks.rows
    ensures BlockOk(Occupy(racks, rack, blocked, m).rows, ms[m := row], r)
  {
    var old', new' := racks.rows, Occupy(racks, rack, blocked, m).rows;
    assert BlockOk(old', ms, r);
    if r in blocked {
      assert rack in new' && Beside(new'[rack], new'[r]) && new'[rack].host == Some(m);
    } else if new'[r].blockedBy.Some? {
      HostedBeforeStays(old', new', r, new'[r].blockedBy.value);
    }
  }

  /** Installing a new machine on a free rack, blocking the next one for a double. */
  lemma {:induction false} OccupyKeepsRacks(cfg: Config, rooms: map<nat, Room>, racks: Table<Rack>,
                                            ms: map<nat, Machine>,
                                            rack: nat, blocked: set<nat>, m: nat, row: Machine)
    requires Installable(cfg, rooms, racks, ms, rack, blocked, m, row)
    ensures RacksPlaced(cfg, rooms, Occupy(racks, rack, blocked, m).rows)
    ensures RacksOk(cfg, rooms, Occupy(racks, rack, blocked, m).rows, ms[m := row])
  {
    var old', new', ms' := racks.rows, Occupy(racks, rack, blocked, m).rows, ms[m := row];
    forall r | r in new' ensures HostOk(cfg, rooms, new', ms', r) && BlockOk(new', ms', r) {
      OccupyKeepsHost(cfg, rooms, racks, ms, rack, blocked, m, row, r);
      OccupyKeepsBlock(cfg, rooms, racks, ms, rack, blocked, m, row, r);
    }
    forall a, b | a in new' && b in new' && new'[a].host.Some? && new'[a].host == new'[b].host ensures a == b {
      assert HostOk(cfg, rooms, old', ms, a) && HostOk(cfg, rooms, old', ms, b);
    }
    forall k | k in ms' && ms'[k].slot >= RACK_BASE ensures HostedAtItsSlot(cfg, rooms, new', ms', k) {
      if k == m {
        assert rack in new' && new'[rack].host == Some(m) && SlotOf(cfg, rooms, new'[rack]) == row.slot;
      } else {
        assert HostedAtItsSlot(cfg, rooms, old', ms, k);
        HostedAtItsSlotStays(cfg, rooms, old', new', ms, ms', k);
      }
    }
  }

  /** No machine sits on the slot of a rack that hosts nothing. */
  lemma {:induction false} FreeRackSlotFree(s: Store, rack: nat, m: nat)
    requires Inv(s) && rack in s.racks.rows && s.racks.rows[rack].host == None
    requires m in s.machines.rows && s.machines.rows[m].user == s.racks.rows[rack].user
    ensures s.machines.rows[m].slot != SlotOf(s.cfg, s.rooms.rows, s.racks.rows[rack])
  {
    var racks, ms := s.racks.rows, s.machines.rows;
    if ms[m].slot == SlotOf(s.cfg, s.rooms.rows, racks[rack]) {
      SlotsOfRacks(s.cfg, s.rooms.rows, racks, rack, rack);
      assert HostedAtItsSlot(s.cfg, s.rooms.rows, racks, ms, m);
      var r :| r in racks && racks[r].host == Some(m) && SlotOf(s.cfg, s.rooms.rows, racks[r]) == ms[m].slot;
      assert HostOk(s.cfg, s.rooms.rows, racks, ms, r);
      SlotsOfRacks(s.cfg, s.rooms.rows, racks, r, rack);
    }
  }

  /** Machines on rack slots never overlap anything: a double's second slot belongs to a blocked rack. */
  lemma {:induction false} RackMachineApart(s: Store, a: nat, b: nat)
    requires Inv(s)
    requires a in s.machines.rows && b in s.machines.rows && a != b
    requires s.machines.rows[a].user == s.machines.rows[b].user
    requires s.machines.rows[a].slot >= RACK_BASE && s.machines.rows[b].slot >= s.machines.rows[a].slot
    ensures !Overlap(s.machines.rows[a], s.machines.rows[b])
  {
    var racks, ms, rooms, cfg := s.racks.rows, s.machines.rows, s.rooms.rows, s.cfg;
    assert HostedAtItsSlot(cfg, rooms, racks, ms, a) && HostedAtItsSlot(cfg, rooms, racks, ms, b);
    var ra :| ra in racks && racks[ra].host == Some(a) && SlotOf(cfg, rooms, racks[ra]) == ms[a].slot;
    var rb :| rb in racks && racks[rb].host == Some(b) && SlotOf(cfg, rooms, racks[rb]) == ms[b].slot;
    assert HostOk(cfg, rooms, racks, ms, ra) && HostOk(cfg, rooms, racks, ms, rb);
    if ms[a].spec.slotSize == 2 {
      assert BlocksNext(racks, ra, a);
      var n :| n in racks && Beside(racks[ra], racks[n]) && racks[n].blockedBy == Some(a);
      BlockedRackApart(cfg, rooms, racks, ra, n, rb);
    }
    if ms[b].slot == ms[a].slot {
      SlotsOfRacks(cfg, rooms, racks, ra, rb);
    }
  }

  lemma {:induction false} BlockedRackApart(cfg: Config, rooms: map<nat, Room>, racks: map<nat, Rack>, a: nat, n: nat,
                                            b: nat)
    requires RoomsOk(rooms) && RacksPlaced(cfg, rooms, racks)
    requires a in racks && b in racks && n in racks && racks[a].user == racks[b].user
    requires Beside(racks[a], racks[n]) && n != b
    ensures SlotOf(cfg, rooms, racks[b]) != SlotOf(cfg, rooms, racks[a]) + 1
  {
    SlotBeside(cfg, rooms, racks[a], racks[n]);
    SlotsOfRacks(cfg, rooms, racks, n, b);
  }
}
