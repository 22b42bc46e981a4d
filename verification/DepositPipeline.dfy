/** Block scanner, wallet and wallet links together: which deposit events get a row. */
module DepositPipeline {
  import opened Tables
  import S = BlockScanner
  import W = WalletModel
  import WalletService

  /** A DepositReceived event for the owner of `address`. */
  datatype Event = Event(block: int, address: nat, hash: nat)

  /** `links` maps a user to the address of its verified wallet. */
  datatype System = System(scanner: S.Scanner, wallet: W.Wallet, links: map<nat, nat>)

  /** One log of a poll: the user its lookup returns, and whether an insert of its row goes through. */
  datatype Look = Look(user: Option<nat>, stored: bool)

  /** `looks` are the logs that a poll gets through, event by event: all if it completes, some if it fails. */
  datatype Op =
    | Scan(poll: S.Op, looks: seq<Look>)
    | Request(request: W.Op)
    | Link(user: nat, address: nat)

  predicate Linked(links: map<nat, nat>, address: nat) {
    exists u :: u in links && links[u] == address
  }

  /** A lookup finds one of the users with the address, if there is one. */
  predicate Finds(links: map<nat, nat>, address: nat, found: Option<nat>) {
    match found
    case None => !Linked(links, address)
    case Some(u) => u in links && links[u] == address
  }

  /** Registers the events of blocks `from` to `to`, in the order of the chain; a failing insert is passed over. */
  function Register(w: W.Wallet, chain: seq<Event>, looks: seq<Look>, from: int, to: int, cfg: W.Config): W.Wallet
    requires |looks| == |chain|
  {
    if chain == [] then w
    else
      var n := |chain| - 1;
      var front := Register(w, chain[..n], looks[..n], from, to, cfg);
      if from <= chain[n].block <= to && looks[n].stored
      then W.Step(front, W.ChainSync(looks[n].user, chain[n].hash), cfg)
      else front
  }

  /** The step ends a poll that was waiting for its logs: it completes, or it fails on the way. */
  predicate Ends(s: System, op: Op) {
    op.Scan? && !op.poll.Begin? && S.Waiting(s.scanner, op.poll.poll)
  }

  /** The lookups of a poll go by the links of that moment; only polls sync from the chain. */
  ghost predicate Honest(s: System, op: Op, chain: seq<Event>) {
    && (op.Request? ==> !op.request.ChainSync?)
    && (Ends(s, op) ==>
          && |op.looks| <= |chain| && (op.poll.Complete? ==> |op.looks| == |chain|)
          && forall i | 0 <= i < |op.looks| :: Finds(s.links, chain[i].address, op.looks[i].user))
  }

  function Step(s: System, op: Op, chain: seq<Event>, first: Option<nat>, cfg: W.Config): System {
    match op
    case Link(user, address) => s.(links := s.links[user := address])
    case Request(r) => s.(wallet := W.Step(s.wallet, r, cfg))
    case Scan(c, looks) =>
      var scanner := S.Step(s.scanner, c, first);
      if Ends(s, op) && |looks| <= |chain|
      then
        var poll := s.scanner.polls[c.poll];
        s.(scanner := scanner, wallet := Register(s.wallet, chain[..|looks|], looks, poll.from, poll.to, cfg))
      else s.(scanner := scanner)
  }

  function Exec(s: System, ops: seq<Op>, chain: seq<Event>, first: Option<nat>, cfg: W.Config): System {
    if ops == [] then s else Step(Exec(s, ops[..|ops| - 1], chain, first, cfg), ops[|ops| - 1], chain, first, cfg)
  }

  ghost predicate Legal(s: System, ops: seq<Op>, chain: seq<Event>, first: Option<nat>, cfg: W.Config) {
    ops != [] ==>
      var front := ops[..|ops| - 1];
      Legal(s, front, chain, first, cfg) && Honest(Exec(s, front, chain, first, cfg), ops[|ops| - 1], chain)
  }

  // ---- The loop over the logs ----

  method FindLinkedUser(links: map<nat, nat>, address: nat) returns (found: Option<nat>)
    ensures Finds(links, address, found)
  {
    var rest := links.Keys;
    while rest != {}
      invariant rest <= links.Keys
      invariant forall u | u in links && u !in rest :: links[u] != address
      decreases rest
    {
      var u :| u in rest;
      if links[u] == address { return Some(u); }
      rest := rest - {u};
    }
    return None;
  }

  /** The loop over a poll's logs, up to the one whose lookup fails; `inserts` tells which inserts go through. */
  method RegisterLogs(service: WalletService.Service, links: map<nat, nat>, chain: seq<Event>, from: int, to: int,
                      failsAt: nat, inserts: seq<bool>)
    returns (ghost looks: seq<Look>)
    requires failsAt <= |chain| == |inserts|
    modifies service
    ensures |looks| == failsAt
    ensures forall i | 0 <= i < failsAt ::
              Finds(links, chain[i].address, looks[i].user) && looks[i].stored == inserts[i]
    ensures service.View() == Register(old(service.View()), chain[..failsAt], looks, from, to, service.cfg)
  {
    looks := [];
    for i := 0 to failsAt
      invariant |looks| == i
      invariant forall k | 0 <= k < i :: Finds(links, chain[k].address, looks[k].user) && looks[k].stored == inserts[k]
      invariant service.View() == Register(old(service.View()), chain[..i], looks, from, to, service.cfg)
    {
      TakeOneMore(chain, i);
      var user := FindLinkedUser(links, chain[i].address);
      assert (looks + [Look(user, inserts[i])])[..i] == looks;
      looks := looks + [Look(user, inserts[i])];
      if from <= chain[i].block <= to && inserts[i] { service.RegisterChainDeposit(user, chain[i].hash); }
    }
  }

  // ---- Which events get a row ----

  /** The step completes a poll that fetched the event's block. */
  predicate Fetches(s: System, op: Op, e: Event) {
    Ends(s, op) && op.poll.Complete? &&
      s.scanner.polls[op.poll.poll].from <= e.block <= s.scanner.polls[op.poll.poll].to
  }

  /** The step ends a poll that got to event `i` of its blocks, with its wallet linked, and could store a row for it. */
  predicate Registers(s: System, op: Op, chain: seq<Event>, i: nat)
    requires i < |chain|
  {
    && Ends(s, op) && i < |op.looks|
    && s.scanner.polls[op.poll.poll].from <= chain[i].block <= s.scanner.polls[op.poll.poll].to
    && Linked(s.links, chain[i].address) && op.looks[i].stored
  }

  /** The step accepts a user's own submission of the hash. */
  predicate Submits(s: System, op: Op, hash: nat, cfg: W.Config) {
    op.Request? && op.request.Submit? && op.request.hash == hash && W.Answer(s.wallet, op.request, cfg) == W.Done
  }

  lemma {:induction false} RequestRows(w: W.Wallet, r: W.Op, hash: nat, cfg: W.Config)
    ensures W.HasDeposit(W.Step(w, r, cfg).rows, hash) <==>
              || W.HasDeposit(w.rows, hash)
              || (r.Submit? && r.hash == hash && W.Answer(w, r, cfg) == W.Done)
              || (r.ChainSync? && r.hash == hash && r.beneficiary.Some?)
  {
    var t := W.Step(w, r, cfg);
    if i :| 0 <= i < |w.rows| && w.rows[i].Deposit? && w.rows[i].hash == hash {
      assert t.rows[i].Deposit? && t.rows[i].hash == hash;
    }
    if i :| 0 <= i < |t.rows| && t.rows[i].Deposit? && t.rows[i].hash == hash {
      if i < |w.rows| {
        assert w.rows[i].Deposit? && w.rows[i].hash == hash;
      }
    }
    if |t.rows| > |w.rows| { assert t.rows[|w.rows|] == t.rows[|t.rows| - 1]; }
  }

  /** Event `i` is in the blocks, has the hash, found a user, and its insert goes through. */
  predicate FoundAt(chain: seq<Event>, looks: seq<Look>, from: int, to: int, hash: nat, i: nat)
    requires i < |looks| == |chain|
  {
    from <= chain[i].block <= to && chain[i].hash == hash && looks[i].user.Some? && looks[i].stored
  }

  ghost predicate SomeFound(chain: seq<Event>, looks: seq<Look>, from: int, to: int, hash: nat)
    requires |looks| == |chain|
  {
    exists i :: 0 <= i < |chain| && FoundAt(chain, looks, from, to, hash, i)
  }

  lemma {:induction false} SomeFoundLast(chain: seq<Event>, looks: seq<Look>, from: int, to: int, hash: nat)
    requires |looks| == |chain| > 0
    ensures var n := |chain| - 1;
            SomeFound(chain, looks, from, to, hash) <==>
              SomeFound(chain[..n], looks[..n], from, to, hash) || FoundAt(chain, looks, from, to, hash, n)
  {
    var n := |chain| - 1;
    if i :| 0 <= i < n && FoundAt(chain[..n], looks[..n], from, to, hash, i) {
      assert FoundAt(chain, looks, from, to, hash, i);
    }
    if i :| 0 <= i < |chain| && FoundAt(chain, looks, from, to, hash, i) {
      if i < n { assert FoundAt(chain[..n], looks[..n], from, to, hash, i); }
    }
  }

  lemma {:induction false} RegisterRows(w: W.Wallet, chain: seq<Event>, looks: seq<Look>, from: int, to: int, hash: nat,
                                        cfg: W.Config)
    requires |looks| == |chain|
    ensures W.HasDeposit(Register(w, chain, looks, from, to, cfg).rows, hash) <==>
              W.HasDeposit(w.rows, hash) || SomeFound(chain, looks, from, to, hash)
  {
    if chain == [] {
    } else {
      var n := |chain| - 1;
      RegisterRows(w, chain[..n], looks[..n], from, to, hash, cfg);
      SomeFoundLast(chain, looks, from, to, hash);
      RequestRows(Register(w, chain[..n], looks[..n], from, to, cfg), W.ChainSync(looks[n].user, chain[n].hash), hash,
                  cfg);
    }
  }

  /** The step registers some event with the hash. */
  ghost predicate RegistersHash(s: System, op: Op, chain: seq<Event>, hash: nat) {
    exists i :: 0 <= i < |chain| && chain[i].hash == hash && Registers(s, op, chain, i)
  }

  lemma {:induction false} FoundIsLinked(s: System, op: Op, chain: seq<Event>, hash: nat)
    requires Honest(s, op, chain) && Ends(s, op)
    ensures var poll := s.scanner.polls[op.poll.poll];
            SomeFound(chain[..|op.looks|], op.looks, poll.from, poll.to, hash) <==> RegistersHash(s, op, chain, hash)
  {
    var poll, some := s.scanner.polls[op.poll.poll], chain[..|op.looks|];
    forall i | 0 <= i < |op.looks|
      ensures FoundAt(some, op.looks, poll.from, poll.to, hash, i) <==>
                chain[i].hash == hash && Registers(s, op, chain, i)
    {
      assert Finds(s.links, chain[i].address, op.looks[i].user);
    }
  }

  /** Exactly what makes a step leave a row for a hash. */
  lemma {:induction false} StepRows(s: System, op: Op, chain: seq<Event>, hash: nat, first: Option<nat>, cfg: W.Config)
    requires Honest(s, op, chain)
    ensures W.HasDeposit(Step(s, op, chain, first, cfg).wallet.rows, hash) <==>
              W.HasDeposit(s.wallet.rows, hash) || RegistersHash(s, op, chain, hash) || Submits(s, op, hash, cfg)
  {
    match op
    case Link(user, address) =>
    case Request(r) => RequestRows(s.wallet, r, hash, cfg);
    case Scan(c, looks) =>
      if Ends(s, op) {
        var poll := s.scanner.polls[c.poll];
        RegisterRows(s.wallet, chain[..|looks|], looks, poll.from, poll.to, hash, cfg);
        FoundIsLinked(s, op, chain, hash);
      }
  }

  /** Some poll of the run, completed or not, got to an event with the hash that was linked and stored its row. */
  ghost predicate EverRegistered(s: System, ops: seq<Op>, chain: seq<Event>, hash: nat, first: Option<nat>,
                                 cfg: W.Config) {
    ops != [] &&
      var front := ops[..|ops| - 1];
      || EverRegistered(s, front, chain, hash, first, cfg)
      || RegistersHash(Exec(s, front, chain, first, cfg), ops[|ops| - 1], chain, hash)
  }

  ghost predicate EverSubmitted(s: System, ops: seq<Op>, chain: seq<Event>, hash: nat, first: Option<nat>,
                                cfg: W.Config) {
    ops != [] &&
      var front := ops[..|ops| - 1];
      || EverSubmitted(s, front, chain, hash, first, cfg)
      || Submits(Exec(s, front, chain, first, cfg), ops[|ops| - 1], hash, cfg)
  }

  /**
   * Over a whole run a transaction hash has a deposit row exactly if it had one before, a user submitted it, or a
   * poll, even one that failed later, got to an event with it while the event's wallet was linked, and the insert
   * of its row did not fail.
   */
  lemma {:induction false} RowExactly(s: System, ops: seq<Op>, chain: seq<Event>, hash: nat, first: Option<nat>,
                                      cfg: W.Config)
    requires Legal(s, ops, chain, first, cfg)
    ensures W.HasDeposit(Exec(s, ops, chain, first, cfg).wallet.rows, hash) <==>
              || W.HasDeposit(s.wallet.rows, hash)
              || EverRegistered(s, ops, chain, hash, first, cfg)
              || EverSubmitted(s, ops, chain, hash, first, cfg)
    decreases |ops|
  {
    if ops == [] {
    } else {
      var front := ops[..|ops| - 1];
      RowExactly(s, front, chain, hash, first, cfg);
      StepRows(Exec(s, front, chain, first, cfg), ops[|ops| - 1], chain, hash, first, cfg);
    }
  }

  // ---- The scanned range ----

  /** The scanner's part of the run. */
  function Scans(ops: seq<Op>): seq<S.Op> {
    if ops == [] then []
    else Scans(ops[..|ops| - 1]) + if ops[|ops| - 1].Scan? then [ops[|ops| - 1].poll] else []
  }

  lemma {:induction false} RunScans(s: System, ops: seq<Op>, chain: seq<Event>, first: Option<nat>, cfg: W.Config)
    ensures Exec(s, ops, chain, first, cfg).scanner == S.Exec(s.scanner, Scans(ops), first)
    decreases |ops|
  {
    if ops != [] {
      var front, op := ops[..|ops| - 1], ops[|ops| - 1];
      RunScans(s, front, chain, first, cfg);
      StepScans(Exec(s, front, chain, first, cfg), op, chain, first, cfg);
      if op.Scan? {
        S.LastStep(s.scanner, Scans(front), op.poll, first);
      } else {
        assert Scans(ops) == Scans(front);
      }
    }
  }

  lemma {:induction false} StepScans(s: System, op: Op, chain: seq<Event>, first: Option<nat>, cfg: W.Config)
    ensures Step(s, op, chain, first, cfg).scanner == if op.Scan? then S.Step(s.scanner, op.poll, first) else s.scanner
  {
  }

  /** Every poll that fetched event `i` and completed found its wallet linked, and could store a row for it. */
  ghost predicate KeptWhenFetched(s: System, ops: seq<Op>, chain: seq<Event>, i: nat, first: Option<nat>, cfg: W.Config)
    requires i < |chain|
  {
    ops != [] ==>
      var front, op := ops[..|ops| - 1], ops[|ops| - 1];
      && KeptWhenFetched(s, front, chain, i, first, cfg)
      && (Fetches(Exec(s, front, chain, first, cfg), op, chain[i]) ==>
            Linked(Exec(s, front, chain, first, cfg).links, chain[i].address) && i < |op.looks| && op.looks[i].stored)
  }

  lemma {:induction false} FetchedIsRegistered(s: System, ops: seq<Op>, chain: seq<Event>, i: nat, first: Option<nat>,
                                               cfg: W.Config)
    requires i < |chain| && s.scanner == S.START && KeptWhenFetched(s, ops, chain, i, first, cfg)
    requires chain[i].block in Exec(s, ops, chain, first, cfg).scanner.fetched
    ensures EverRegistered(s, ops, chain, chain[i].hash, first, cfg)
    decreases |ops|
  {
    var front, op := ops[..|ops| - 1], ops[|ops| - 1];
    var before := Exec(s, front, chain, first, cfg);
    if chain[i].block in before.scanner.fetched {
      FetchedIsRegistered(s, front, chain, i, first, cfg);
    } else {
      StepScans(before, op, chain, first, cfg);
      assert Fetches(before, op, chain[i]);
      assert Registers(before, op, chain, i);
    }
  }

  /**
   * In every run of polls, requests and links whose polls leave no gap, an event between the start of a completed
   * first poll and the last scanned block has a deposit row if, whenever its block was fetched, its wallet was linked
   * and the insert of its row did not fail.
   */
  lemma {:induction false} NoEventMissed(s: System, ops: seq<Op>, chain: seq<Event>, first: Option<nat>, cfg: W.Config,
                                         i: nat, f: int)
    requires s.scanner == S.START && Legal(s, ops, chain, first, cfg)
    requires first.Some? || S.Near(S.FirstLatests(Scans(ops), first))
    requires i < |chain| && KeptWhenFetched(s, ops, chain, i, first, cfg)
    requires var t := Exec(s, ops, chain, first, cfg).scanner;
             f in t.starts && t.last.Some? && f <= chain[i].block <= t.last.value
    ensures W.HasDeposit(Exec(s, ops, chain, first, cfg).wallet.rows, chain[i].hash)
  {
    RunScans(s, ops, chain, first, cfg);
    S.NoGap(Scans(ops), first);
    assert S.Covered(Exec(s, ops, chain, first, cfg).scanner, f, Exec(s, ops, chain, first, cfg).scanner.last.value);
    FetchedIsRegistered(s, ops, chain, i, first, cfg);
    RowExactly(s, ops, chain, chain[i].hash, first, cfg);
  }

  // ---- An event that is missed ----

  /** Deposit in block 10, scan up to block 20, and then link the wallet. */
  function LateLink(user: nat, address: nat): seq<Op> {
    [Scan(S.Begin(20), []), Scan(S.Complete(0), [Look(None, true)]), Link(user, address)]
  }

  lemma {:induction false} ThreeSteps(s: System, a: Op, b: Op, c: Op, chain: seq<Event>, first: Option<nat>,
                                      cfg: W.Config)
    ensures Exec(s, [a, b, c], chain, first, cfg)
              == Step(Step(Step(s, a, chain, first, cfg), b, chain, first, cfg), c, chain, first, cfg)
    ensures Legal(s, [a, b, c], chain, first, cfg) <==>
              && Honest(s, a, chain)
              && Honest(Step(s, a, chain, first, cfg), b, chain)
              && Honest(Step(Step(s, a, chain, first, cfg), b, chain, first, cfg), c, chain)
  {
    assert [a][..0] == [] && [a, b][..1] == [a] && [a, b, c][..2] == [a, b];
    assert Exec(s, [a], chain, first, cfg) == Step(s, a, chain, first, cfg);
    assert Exec(s, [a, b], chain, first, cfg) == Step(Step(s, a, chain, first, cfg), b, chain, first, cfg);
    assert Legal(s, [a], chain, first, cfg) <==> Honest(s, a, chain);
  }

  /** The wallet is linked, its event is in the scanned range, there is no row, and the next poll starts behind it. */
  lemma {:induction false} LateLinkMisses(user: nat, address: nat, hash: nat, cfg: W.Config)
    ensures var chain := [Event(10, address, hash)];
            var s := System(S.START, W.Wallet([], map[]), map[]);
            var t := Exec(s, LateLink(user, address), chain, Some(0), cfg);
            && Legal(s, LateLink(user, address), chain, Some(0), cfg)
            && Linked(t.links, address) && t.scanner.last == Some(20) && 0 in t.scanner.starts
            && !W.HasDeposit(t.wallet.rows, hash)
            && S.FromBlock(t.scanner, 30, Some(0)) == 21
  {
    var chain := [Event(10, address, hash)];
    var s := System(S.START, W.Wallet([], map[]), map[]);
    var ops := LateLink(user, address);
    ThreeSteps(s, ops[0], ops[1], ops[2], chain, Some(0), cfg);
    var a := Step(s, ops[0], chain, Some(0), cfg);
    assert a.scanner == S.Scanner(None, [S.Fetching(0, 20, true)], {}, {});
    assert Honest(a, ops[1], chain);
    var b := Step(a, ops[1], chain, Some(0), cfg);
    StepRows(a, ops[1], chain, hash, Some(0), cfg);
    var t := Step(b, ops[2], chain, Some(0), cfg);
    assert user in t.links && t.links[user] == address;
  }
}
