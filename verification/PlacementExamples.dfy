/** Runs from the empty store in which the missing guards matter. */
module PlacementExamples {
  import opened Tables
  import opened PlacementModel
  import opened PlacementInvariants
  import opened PlacementRacks
  import opened PlacementSteps
  import opened PlacementTheorems

  const SINGLE := Spec(1, 1.0, 1)
  const DOUBLE := Spec(1, 1.0, 2)

  /** Every request of the run is answered with success. */
  predicate Succeeds(s: Store, ops: seq<Op>)
    decreases |ops|
  {
    ops == [] || (Answer(s, ops[0]) == Done && Succeeds(Apply(s, ops[0]), ops[1..]))
  }

  lemma {:induction false} FirstStep(s: Store, op: Op, rest: seq<Op>)
    ensures Exec(s, [op] + rest) == Exec(Apply(s, op), rest)
    ensures Legal(s, [op] + rest) <==> Orderly(s, op) && Legal(Apply(s, op), rest)
    ensures Succeeds(s, [op] + rest) <==> Answer(s, op) == Done && Succeeds(Apply(s, op), rest)
  {
    assert ([op] + rest)[1..] == rest;
  }

  // ---- A vault retrieval next to a double ----

  /** A double goes to slot 0, a single through the vault to slot 1. */
  const UNSAFE: seq<Op> :=
    [Grant(1, DOUBLE, 1)] + ([Grant(1, SINGLE, 1)] + ([Install(1, 0, 1, [], [])]
    + ([StoreItem(1, 2)] + ([RetrieveToRack(1, 1, 1, [])] + []))))

  function Granted(cfg: Config): Store {
    EmptyStore(cfg, map[]).(
      inventory := Table(map[1 := Item(1, DOUBLE, Some(1)), 2 := Item(1, SINGLE, Some(2))], 3),
      owned := Table(map[1 := OwnedRow(1, INVENTORY, DOUBLE), 2 := OwnedRow(1, INVENTORY, SINGLE)], 3))
  }

  function Installed(cfg: Config): Store {
    EmptyStore(cfg, map[]).(
      inventory := Table(map[2 := Item(1, SINGLE, Some(2))], 3),
      machines := Table(map[1 := Machine(1, 0, DOUBLE, Some(1))], 2),
      owned := Table(map[1 := OwnedRow(1, RACK, DOUBLE), 2 := OwnedRow(1, INVENTORY, SINGLE)], 3))
  }

  function Stored(cfg: Config): Store {
    EmptyStore(cfg, map[]).(
      inventory := Table(map[], 3),
      machines := Table(map[1 := Machine(1, 0, DOUBLE, Some(1))], 2),
      vault := Table(map[1 := Item(1, SINGLE, Some(2))], 2),
      owned := Table(map[1 := OwnedRow(1, RACK, DOUBLE), 2 := OwnedRow(1, WAREHOUSE, SINGLE)], 3))
  }

  lemma {:induction false} BothGranted(cfg: Config)
    ensures Apply(Apply(EmptyStore(cfg, map[]), Grant(1, DOUBLE, 1)), Grant(1, SINGLE, 1)) == Granted(cfg)
  {
    var s := EmptyStore(cfg, map[]);
    var t := GrantOne(s, 1, DOUBLE);
    assert GrantMany(s, 1, DOUBLE, 1) == GrantOne(GrantMany(s, 1, DOUBLE, 0), 1, DOUBLE);
    assert GrantMany(t, 1, SINGLE, 1) == GrantOne(GrantMany(t, 1, SINGLE, 0), 1, SINGLE);
    assert GrantOne(t, 1, SINGLE) == Granted(cfg);
  }

  lemma {:induction false} DoubleInstalled(cfg: Config)
    ensures Orderly(Granted(cfg), Install(1, 0, 1, [], []))
    ensures Apply(Granted(cfg), Install(1, 0, 1, [], [])) == Installed(cfg)
  {
    var s := Granted(cfg);
    assert StartingIn(s.machines.rows, 1, 0, 2, None) == {};
    assert PreviousDoubles(EvictAll(s, []).machines.rows, 1, 0, None) == {};
    assert MakeRoom(s, [], []) == s;
    assert ItemToMachine(s, 1, 0, DOUBLE) == Installed(cfg);
  }

  lemma {:induction false} SingleStored(cfg: Config)
    ensures Apply(Installed(cfg), StoreItem(1, 2)) == Stored(cfg)
  {
    assert ItemToVault(Installed(cfg), 2) == Stored(cfg);
  }

  lemma {:induction false} SingleRetrieved(cfg: Config)
    ensures var op := RetrieveToRack(1, 1, 1, []);
            && Orderly(Stored(cfg), op) && Answer(Stored(cfg), op) == Done
            && !Disjoint(Apply(Stored(cfg), op).machines.rows)
  {
    var s := Stored(cfg);
    assert StartingIn(s.machines.rows, 1, 1, 1, None) == {};
    var t := VaultToMachine(s, 1, 1, SINGLE);
    assert EvictAll(s, []) == s;
    assert Apply(s, RetrieveToRack(1, 1, 1, [])) == t;
    assert t.machines.rows[1] == Machine(1, 0, DOUBLE, Some(1)) && t.machines.rows[2].slot == 1;
    assert Overlap(t.machines.rows[1], t.machines.rows[2]);
  }

  const RETRIEVAL := RetrieveToRack(1, 1, 1, [])

  lemma {:induction false} UnsafeTail(cfg: Config)
    ensures var rest: seq<Op> := [Install(1, 0, 1, [], [])] + ([StoreItem(1, 2)] + ([RETRIEVAL] + []));
            Legal(Granted(cfg), rest) && Succeeds(Granted(cfg), rest) &&
              Exec(Granted(cfg), rest) == Apply(Stored(cfg), RETRIEVAL)
  {
    var last: seq<Op> := [RETRIEVAL] + [];
    DoubleInstalled(cfg);
    SingleStored(cfg);
    SingleRetrieved(cfg);
    FirstStep(Granted(cfg), Install(1, 0, 1, [], []), [StoreItem(1, 2)] + last);
    FirstStep(Installed(cfg), StoreItem(1, 2), last);
    FirstStep(Stored(cfg), RETRIEVAL, []);
  }

  lemma {:induction false} UnsafeRun(cfg: Config)
    ensures Legal(EmptyStore(cfg, map[]), UNSAFE) && Succeeds(EmptyStore(cfg, map[]), UNSAFE)
    ensures Exec(EmptyStore(cfg, map[]), UNSAFE) == Apply(Stored(cfg), RETRIEVAL)
  {
    var s := EmptyStore(cfg, map[]);
    var rest: seq<Op> := [Install(1, 0, 1, [], [])] + ([StoreItem(1, 2)] + ([RETRIEVAL] + []));
    BothGranted(cfg);
    UnsafeTail(cfg);
    FirstStep(s, Grant(1, DOUBLE, 1), [Grant(1, SINGLE, 1)] + rest);
    FirstStep(Apply(s, Grant(1, DOUBLE, 1)), Grant(1, SINGLE, 1), rest);
  }

  /**
   * The missing guard matters: a run from the empty store in which every request is answered with success
   * ends with a retrieved machine on the second slot of a double.
   */
  lemma {:induction false} UnsafeRetrieval(cfg: Config)
    ensures Legal(EmptyStore(cfg, map[]), UNSAFE) && Succeeds(EmptyStore(cfg, map[]), UNSAFE)
    ensures Inv(Exec(EmptyStore(cfg, map[]), UNSAFE)) && !Disjoint(Exec(EmptyStore(cfg, map[]), UNSAFE).machines.rows)
  {
    UnsafeRun(cfg);
    SingleRetrieved(cfg);
    EmptyStoreOk(cfg, map[]);
    RunKeepsInvariant(EmptyStore(cfg, map[]), UNSAFE);
  }

  // ---- A room machine moved to the grid ----

  /** One room with one rack, free of charge. */
  const SMALL := Config(1, 1, [])

  const MOVED: seq<Op> :=
    [BuyRoom(1)] + ([Grant(1, SINGLE, 1)] + ([RoomInstall(1, 1, 1)] + ([TO_GRID] + [])))

  function WithRoom(): Store {
    EmptyStore(SMALL, map[1 := 0.0]).(
      rooms := Table(map[1 := Room(1, 1, 0.0)], 2),
      racks := Table(map[1 := Rack(1, 1, 0, None, None)], 2))
  }

  function WithItem(): Store {
    WithRoom().(
      inventory := Table(map[1 := Item(1, SINGLE, Some(1))], 2),
      owned := Table(map[1 := OwnedRow(1, INVENTORY, SINGLE)], 2))
  }

  function InRoom(): Store {
    WithRoom().(
      inventory := Table(map[], 2),
      machines := Table(map[1 := Machine(1, 1000, SINGLE, Some(1))], 2),
      racks := Table(map[1 := Rack(1, 1, 0, Some(1), None)], 2),
      owned := Table(map[1 := OwnedRow(1, RACK, SINGLE)], 2))
  }

  lemma {:induction false} RoomBought()
    ensures Apply(EmptyStore(SMALL, map[1 := 0.0]), BuyRoom(1)) == WithRoom()
  {
    var s := EmptyStore(SMALL, map[1 := 0.0]);
    assert UserRooms(s.rooms.rows, 1) == {};
    assert AddRacks(s.racks, 1, 1, 1) == AddRacks(s.racks, 1, 1, 0).Insert(Rack(1, 1, 0, None, None));
    assert AddRoom(s, 1, 0.0) == WithRoom();
  }

  lemma {:induction false} ItemGranted()
    ensures Apply(WithRoom(), Grant(1, SINGLE, 1)) == WithItem()
  {
    assert GrantMany(WithRoom(), 1, SINGLE, 1) == GrantOne(GrantMany(WithRoom(), 1, SINGLE, 0), 1, SINGLE);
    assert GrantOne(WithRoom(), 1, SINGLE) == WithItem();
  }

  lemma {:induction false} ItemInRoom()
    ensures Apply(WithItem(), RoomInstall(1, 1, 1)) == InRoom()
  {
    var s := WithItem();
    assert SlotOf(SMALL, s.rooms.rows, s.racks.rows[1]) == 1000;
    assert BlockedBeside(s, 1, 1) == {};
    assert Occupy(s.racks, 1, {}, 1).rows == InRoom().racks.rows;
    assert InstallInRoom(s, 1, 1) == InRoom();
  }

  const TO_GRID := Move(1, 1, 3, [], [])

  lemma {:induction false} MovedToGrid()
    ensures Orderly(InRoom(), TO_GRID) && Answer(InRoom(), TO_GRID) == Done
    ensures Apply(InRoom(), TO_GRID) == InRoom().(machines := Table(map[1 := Machine(1, 3, SINGLE, Some(1))], 2))
  {
    assert StartingIn(InRoom().machines.rows, 1, 3, 1, Some(1)) == {};
    assert PreviousDoubles(EvictAll(InRoom(), []).machines.rows, 1, 3, Some(1)) == {};
    assert MakeRoom(InRoom(), [], []) == InRoom();
  }

  /** After the run the machine is on grid slot 3, and its rack still counts as occupied by it. */
  lemma {:induction false} RackStaysOccupied()
    ensures var s := EmptyStore(SMALL, map[1 := 0.0]);
            var t := Exec(s, MOVED);
            && Legal(s, MOVED) && Succeeds(s, MOVED)
            && 1 in t.machines.rows && t.machines.rows[1].slot == 3
            && 1 in t.racks.rows && t.racks.rows[1].host == Some(1)
            && forall item :: Answer(t, RoomInstall(1, 1, item)) == RackOccupied
  {
    var s := EmptyStore(SMALL, map[1 := 0.0]);
    var last: seq<Op> := [TO_GRID] + [];
    RoomBought();
    ItemGranted();
    ItemInRoom();
    MovedToGrid();
    FirstStep(s, BuyRoom(1), [Grant(1, SINGLE, 1)] + ([RoomInstall(1, 1, 1)] + last));
    FirstStep(WithRoom(), Grant(1, SINGLE, 1), [RoomInstall(1, 1, 1)] + last);
    FirstStep(WithItem(), RoomInstall(1, 1, 1), last);
    FirstStep(InRoom(), TO_GRID, []);
  }
}
