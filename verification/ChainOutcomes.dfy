/** What a poll asks the chain for, what is known to be scanned, and who gets the deposit rows of its events. */
module ChainOutcomes {
  import opened Tables
  import S = BlockScanner
  import W = WalletModel
  import opened DepositPipeline

  // ---- Polls ----

  /** Where a poll starts: behind the last scanned block, or at the configured one, or 5000 blocks up to the latest. */
  function StartOf(last: Option<int>, configured: Option<nat>, latest: nat): int {
    match (last, configured)
    case (Some(b), _) => b + 1
    case (None, Some(b)) => b
    case (None, None) => if latest <= 5000 then 0 else latest - 4999
  }

  /** A poll asks for every block from there up to the latest; with none to ask for it takes the latest as scanned. */
  lemma {:induction false} BeginOutcome(s: S.Scanner, latest: nat, configured: Option<nat>)
    ensures var t, from := S.Step(s, S.Begin(latest), configured), StartOf(s.last, configured, latest);
            && t.fetched == s.fetched && t.starts == s.starts
            && (if from <= latest
                then t.last == s.last && t.polls == s.polls + [S.Fetching(from, latest, s.last.None?)]
                else t.last == Some(latest) && t.polls == s.polls + [S.Over])
  {
  }

  /** A completed poll has scanned exactly its blocks, and its last counts as the last scanned; a failed one none. */
  lemma {:induction false} EndOutcome(s: S.Scanner, p: nat, configured: Option<nat>)
    requires p < |s.polls| && s.polls[p].Fetching?
    ensures var t, poll := S.Step(s, S.Complete(p), configured), s.polls[p];
            && t.last == Some(poll.to) && t.polls == s.polls[p := S.Over]
            && forall b :: b in t.fetched <==> b in s.fetched || poll.from <= b <= poll.to
    ensures S.Step(s, S.Fail(p), configured) == S.Scanner(s.last, s.polls[p := S.Over], s.fetched, s.starts)
  {
  }

  /** Some poll of the run saw the chain as far as block `b`. */
  ghost predicate Seen(ops: seq<S.Op>, b: int) {
    exists i :: 0 <= i < |ops| && ops[i].Begin? && b <= ops[i].latest
  }

  ghost predicate NothingAhead(s: S.Scanner, ops: seq<S.Op>) {
    && (s.last.Some? ==> Seen(ops, s.last.value))
    && (forall b | b in s.fetched :: Seen(ops, b))
    && (forall p | 0 <= p < |s.polls| && s.polls[p].Fetching? :: Seen(ops, s.polls[p].to))
  }

  lemma {:induction false} SeenLonger(s: S.Scanner, ops: seq<S.Op>, op: S.Op)
    requires NothingAhead(s, ops)
    ensures NothingAhead(s, ops + [op])
  {
    forall b | Seen(ops, b) ensures Seen(ops + [op], b) {
      var i :| 0 <= i < |ops| && ops[i].Begin? && b <= ops[i].latest;
      assert (ops + [op])[i] == ops[i];
    }
  }

  lemma {:induction false} StepAhead(s: S.Scanner, ops: seq<S.Op>, op: S.Op, configured: Option<nat>)
    requires NothingAhead(s, ops + [op])
    ensures NothingAhead(S.Step(s, op, configured), ops + [op])
  {
    var t, all := S.Step(s, op, configured), ops + [op];
    match op
    case Begin(latest) => assert all[|ops|] == op;
    case Complete(p) =>
      if S.Waiting(s, p) {
        assert Seen(all, s.polls[p].to);
        forall b | b in t.fetched ensures Seen(all, b) {
          if b !in s.fetched { SeenBelow(all, b, s.polls[p].to); }
        }
      }
    case Fail(p) =>
  }

  lemma {:induction false} SeenBelow(ops: seq<S.Op>, b: int, c: int)
    requires b <= c && Seen(ops, c)
    ensures Seen(ops, b)
  {
  }

  /** No block counts as scanned that the chain did not have: an event that arrives later is not passed over. */
  lemma {:induction false} NeverAhead(ops: seq<S.Op>, configured: Option<nat>)
    ensures NothingAhead(S.Exec(S.START, ops, configured), ops)
    decreases |ops|
  {
    if ops != [] {
      var front, op := ops[..|ops| - 1], ops[|ops| - 1];
      NeverAhead(front, configured);
      SeenLonger(S.Exec(S.START, front, configured), front, op);
      assert front + [op] == ops;
      StepAhead(S.Exec(S.START, front, configured), front, op, configured);
    }
  }

  // ---- Rows ----

  /** The step ends a poll that got to an event with the hash, of the address that is linked to the user. */
  ghost predicate OwnEvent(s: System, op: Op, chain: seq<Event>, user: nat, hash: nat) {
    Ends(s, op) && exists i :: 0 <= i < |chain| && chain[i].hash == hash && OwnAt(s, op, chain[i], user)
  }

  ghost predicate OwnAt(s: System, op: Op, e: Event, user: nat)
    requires Ends(s, op)
  {
    && user in s.links && s.links[user] == e.address
    && s.scanner.polls[op.poll.poll].from <= e.block <= s.scanner.polls[op.poll.poll].to
  }

  /** The user's own submission of the hash, accepted. */
  ghost predicate OwnSubmission(s: System, op: Op, user: nat, hash: nat, cfg: W.Config) {
    && op.Request? && op.request.Submit? && op.request.user == user && op.request.hash == hash
    && W.Answer(s.wallet, op.request, cfg) == W.Done
  }

  /** Some step of the run gave the user a claim on the hash. */
  ghost predicate EverOwn(s: System, ops: seq<Op>, chain: seq<Event>, user: nat, hash: nat, first: Option<nat>,
                          cfg: W.Config) {
    ops != [] &&
      var front, op := ops[..|ops| - 1], ops[|ops| - 1];
      || EverOwn(s, front, chain, user, hash, first, cfg)
      || OwnEvent(Exec(s, front, chain, first, cfg), op, chain, user, hash)
      || OwnSubmission(Exec(s, front, chain, first, cfg), op, user, hash, cfg)
  }

  /** The first rows keep kind, user and hash. */
  ghost predicate RowsStay(rows: seq<W.Row>, after: seq<W.Row>) {
    && |rows| <= |after|
    && forall i | 0 <= i < |rows| ::
         && after[i].Deposit? == rows[i].Deposit? && after[i].user == rows[i].user
         && (rows[i].Deposit? ==> after[i].hash == rows[i].hash)
  }

  lemma {:induction false} RequestStays(w: W.Wallet, r: W.Op, cfg: W.Config)
    ensures RowsStay(w.rows, W.Step(w, r, cfg).rows)
    ensures var t := W.Step(w, r, cfg);
            forall i | |w.rows| <= i < |t.rows| && t.rows[i].Deposit? ::
              || (r.Submit? && t.rows[i].user == r.user && t.rows[i].hash == r.hash && W.Answer(w, r, cfg) == W.Done)
              || (r.ChainSync? && Some(t.rows[i].user) == r.beneficiary && t.rows[i].hash == r.hash)
  {
  }

  /** Row `r` is the row of one of these events that found its user. */
  ghost predicate RowOf(r: W.Row, chain: seq<Event>, looks: seq<Look>, from: int, to: int)
    requires |looks| == |chain| && r.Deposit?
  {
    exists i :: 0 <= i < |chain| && chain[i].hash == r.hash && from <= chain[i].block <= to &&
      looks[i].user == Some(r.user)
  }

  lemma {:induction false} RowOfMore(r: W.Row, chain: seq<Event>, looks: seq<Look>, from: int, to: int)
    requires |looks| == |chain| > 0 && r.Deposit? && RowOf(r, chain[..|chain| - 1], looks[..|chain| - 1], from, to)
    ensures RowOf(r, chain, looks, from, to)
  {
    var n := |chain| - 1;
    var i :| 0 <= i < n && chain[..n][i].hash == r.hash && from <= chain[..n][i].block <= to &&
      looks[..n][i].user == Some(r.user);
    assert chain[i] == chain[..n][i] && looks[i] == looks[..n][i];
  }

  lemma {:induction false} RegisterStays(w: W.Wallet, chain: seq<Event>, looks: seq<Look>, from: int, to: int,
                                         cfg: W.Config)
    requires |looks| == |chain|
    ensures var t := Register(w, chain, looks, from, to, cfg);
            && RowsStay(w.rows, t.rows)
            && forall i | |w.rows| <= i < |t.rows| && t.rows[i].Deposit? :: RowOf(t.rows[i], chain, looks, from, to)
  {
    if chain != [] {
      var n := |chain| - 1;
      var front, t := Register(w, chain[..n], looks[..n], from, to, cfg), Register(w, chain, looks, from, to, cfg);
      RegisterStays(w, chain[..n], looks[..n], from, to, cfg);
      RequestStays(front, W.ChainSync(looks[n].user, chain[n].hash), cfg);
      forall i | |w.rows| <= i < |t.rows| && t.rows[i].Deposit? ensures RowOf(t.rows[i], chain, looks, from, to) {
        if i < |front.rows| {
          RowOfMore(front.rows[i], chain, looks, from, to);
          assert RowOf(front.rows[i], chain, looks, from, to);
        }
      }
    }
  }

  /** Exactly what kind of step can give somebody a row. */
  lemma {:induction false} StepOwn(s: System, op: Op, chain: seq<Event>, first: Option<nat>, cfg: W.Config)
    requires Honest(s, op, chain)
    ensures var t := Step(s, op, chain, first, cfg);
            && RowsStay(s.wallet.rows, t.wallet.rows)
            && forall i | |s.wallet.rows| <= i < |t.wallet.rows| && t.wallet.rows[i].Deposit? ::
                 || OwnEvent(s, op, chain, t.wallet.rows[i].user, t.wallet.rows[i].hash)
                 || OwnSubmission(s, op, t.wallet.rows[i].user, t.wallet.rows[i].hash, cfg)
  {
    var t := Step(s, op, chain, first, cfg);
    match op
    case Link(user, address) =>
    case Request(r) => RequestStays(s.wallet, r, cfg);
    case Scan(c, looks) =>
      if Ends(s, op) {
        var poll, some := s.scanner.polls[c.poll], chain[..|looks|];
        RegisterStays(s.wallet, some, looks, poll.from, poll.to, cfg);
        forall i | |s.wallet.rows| <= i < |t.wallet.rows| && t.wallet.rows[i].Deposit?
          ensures OwnEvent(s, op, chain, t.wallet.rows[i].user, t.wallet.rows[i].hash)
        {
          var r := t.wallet.rows[i];
          assert RowOf(r, some, looks, poll.from, poll.to);
          var k :| 0 <= k < |some| && some[k].hash == r.hash && poll.from <= some[k].block <= poll.to &&
            looks[k].user == Some(r.user);
          assert Finds(s.links, chain[k].address, looks[k].user);
          assert chain[k].hash == r.hash && OwnAt(s, op, chain[k], r.user);
        }
      }
  }

  /**
   * A deposit row that a run adds belongs to a user who submitted the hash, or whose linked wallet is the address
   * of an event with it, when a poll got to that event.
   */
  lemma {:induction false} RowsAreOwn(s: System, ops: seq<Op>, chain: seq<Event>, first: Option<nat>, cfg: W.Config)
    requires Legal(s, ops, chain, first, cfg)
    ensures var t := Exec(s, ops, chain, first, cfg);
            && RowsStay(s.wallet.rows, t.wallet.rows)
            && forall i | |s.wallet.rows| <= i < |t.wallet.rows| && t.wallet.rows[i].Deposit? ::
                 EverOwn(s, ops, chain, t.wallet.rows[i].user, t.wallet.rows[i].hash, first, cfg)
    decreases |ops|
  {
    if ops != [] {
      var front, op := ops[..|ops| - 1], ops[|ops| - 1];
      RowsAreOwn(s, front, chain, first, cfg);
      StepOwn(Exec(s, front, chain, first, cfg), op, chain, first, cfg);
    }
  }
}
