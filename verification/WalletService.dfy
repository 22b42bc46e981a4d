/** Withdrawal and deposit requests as the server runs them: guards first, then row and balance updates. */
module WalletService {
  import opened Tables
  import opened WalletModel
  import opened WalletTheorems
  import opened WalletRounds

  /** The rows picked from the `n`-th on are under verification; each was picked once. */
  ghost predicate StillPending(rows: seq<Row>, pending: seq<nat>, n: nat) {
    && (forall j, k | 0 <= j < k < |pending| :: pending[j] < pending[k])
    && (forall k | n <= k < |pending| ::
          pending[k] < |rows| && rows[pending[k]].Deposit? && rows[pending[k]].status == Verifying)
  }

  lemma {:induction false} VisitLeavesRest(w: Wallet, pending: seq<nat>, n: nat, ev: Evidence, cfg: Config)
    requires StillPending(w.rows, pending, n) && n < |pending|
    ensures var t := Step(w, Verify(pending[n], ev), cfg);
            |t.rows| == |w.rows| && StillPending(t.rows, pending, n + 1)
  {
    var t := Step(w, Verify(pending[n], ev), cfg);
    forall i | 0 <= i < |w.rows| && i != pending[n] ensures t.rows[i] == w.rows[i] {
    }
  }

  class Service {
    const cfg: Config
    var rows: seq<Row>
    var balance: map<nat, real>

    constructor (cfg: Config, balance: map<nat, real>)
      ensures this.cfg == cfg && View() == Wallet([], balance)
    {
      this.cfg, this.rows, this.balance := cfg, [], balance;
    }

    ghost function View(): Wallet
      reads this
    {
      Wallet(rows, balance)
    }

    // ---- Row and balance statements ----

    method Increment(user: nat, change: real)
      modifies this`balance
      ensures View() == WithBalance(old(View()), user, change)
    {
      balance := balance[user := (if user in balance then balance[user] else 0.0) + change];
    }

    method CreateRow(r: Row)
      modifies this`rows
      ensures rows == old(rows) + [r]
    {
      rows := rows + [r];
    }

    method SetStatus(id: nat, status: Status)
      requires id < |rows|
      modifies this`rows
      ensures View() == WithRow(old(View()), id, WithStatus(old(rows)[id], status))
    {
      rows := rows[id := WithStatus(rows[id], status)];
    }

    // ---- Withdrawals ----

    /** `delta`, here and below, is the change that the mining engine is told of. */
    method RequestWithdrawal(user: nat, amount: real) returns (reply: Reply, delta: Option<(nat, real)>)
      modifies this
      ensures reply == Answer(old(View()), Withdraw(user, amount), cfg)
      ensures View() == Step(old(View()), Withdraw(user, amount), cfg)
      ensures delta == DeltaOf(old(View()), Withdraw(user, amount), cfg)
    {
      if amount < WITHDRAW_MIN { return BelowMinimum, None; }
      if HasPending(rows, user) { return PendingExists, None; }
      if (if user in balance then balance[user] else 0.0) < amount { return InsufficientBalance, None; }
      Increment(user, -amount);
      CreateRow(Withdrawal(user, amount, Pending, true));
      return Done, Some((user, -amount));
    }

    /** Sets the status first and then decides on the refund by the status before; a missing row is no error. */
    method UpdateTransactionStatus(id: nat, status: Status) returns (delta: Option<(nat, real)>)
      modifies this
      ensures View() == StatusSet(old(View()), id, status)
      ensures delta == RefundOf(old(View()), id, status)
    {
      delta := None;
      if id >= |rows| { return; }
      var row := rows[id];
      SetStatus(id, status);
      if row.Withdrawal? {
        if status == Failed && row.status != Failed && row.status != Completed {
          if row.reserved {
            Increment(row.user, row.amount);
            delta := Some((row.user, row.amount));
          }
        }
      }
    }

    method ApproveWithdrawal(id: nat) returns (reply: Reply)
      modifies this
      ensures reply == Answer(old(View()), Approve(id), cfg)
      ensures View() == Step(old(View()), Approve(id), cfg)
    {
      if id >= |rows| || !rows[id].Withdrawal? { return NotFound; }
      if rows[id].status != Pending { return WrongStatus; }
      SetStatus(id, Approved);
      return Done;
    }

    method RejectWithdrawal(id: nat) returns (reply: Reply, delta: Option<(nat, real)>)
      modifies this
      ensures reply == Answer(old(View()), Reject(id), cfg)
      ensures View() == Step(old(View()), Reject(id), cfg)
      ensures delta == DeltaOf(old(View()), Reject(id), cfg)
    {
      if id >= |rows| || !rows[id].Withdrawal? { return NotFound, None; }
      if rows[id].status != Pending && rows[id].status != Approved { return WrongStatus, None; }
      delta := UpdateTransactionStatus(id, Failed);
      reply := Done;
    }

    method CompleteWithdrawal(id: nat, hashValid: bool) returns (reply: Reply)
      modifies this
      ensures reply == Answer(old(View()), Complete(id, hashValid), cfg)
      ensures View() == Step(old(View()), Complete(id, hashValid), cfg)
    {
      if !hashValid { return InvalidHash; }
      if id >= |rows| || !rows[id].Withdrawal? { return NotFound; }
      if rows[id].status == Completed { return WrongStatus; }
      if rows[id].status != Pending && rows[id].status != Approved { return WrongStatus; }
      var _ := UpdateTransactionStatus(id, Completed);
      return Done;
    }

    // ---- Deposits ----

    method SubmitDeposit(user: nat, hash: nat, claimed: real) returns (reply: Reply)
      modifies this
      ensures reply == Answer(old(View()), Submit(user, hash, claimed), cfg)
      ensures View() == Step(old(View()), Submit(user, hash, claimed), cfg)
    {
      if claimed < 0.0 || (claimed > 0.0 && claimed < cfg.minDeposit) { return InvalidAmount; }
      var existing := Claim(rows, user, hash);
      if existing.Some? {
        var status := rows[existing.value].status;
        if status == Completed { return AlreadyCredited; }
        if status == Verifying { return InVerification; }
        if status == Failed { return VerificationFailed; }
      }
      if ClaimedByOther(rows, user, hash) { return HashClaimed; }
      CreateRow(Deposit(user, hash, if claimed > 0.0 then claimed else 0.0, Verifying, 0));
      return Done;
    }

    /** One DepositReceived log of a poll. */
    method RegisterChainDeposit(beneficiary: Option<nat>, hash: nat)
      modifies this
      ensures View() == Step(old(View()), ChainSync(beneficiary, hash), cfg)
    {
      if beneficiary.None? { return; }
      if HasDeposit(rows, hash) { return; }
      CreateRow(Deposit(beneficiary.value, hash, 0.0, Verifying, 0));
    }

    method SaveVisit(id: nat, status: Status, attempts: nat)
      requires id < |rows| && rows[id].Deposit?
      modifies this`rows
      ensures View() == WithRow(old(View()), id, old(rows)[id].(status := status, attempts := attempts))
    {
      rows := rows[id := rows[id].(status := status, attempts := attempts)];
    }

    /** One visit: the checks run in the server's order, each with its own way out. */
    method VerifyOnePendingDeposit(id: nat, ev: Evidence) returns (delta: Option<(nat, real)>)
      requires id < |rows| && rows[id].Deposit? && rows[id].status == Verifying
      modifies this
      ensures View() == Step(old(View()), Verify(id, ev), cfg)
      ensures delta == DeltaOf(old(View()), Verify(id, ev), cfg)
    {
      delta := None;
      var row := rows[id];
      var attempts := row.attempts + 1;
      if attempts > MAX_ATTEMPTS { SaveVisit(id, Failed, attempts); return; }
      if !ev.receipt.Got? { SaveVisit(id, Verifying, attempts); return; }
      var receipt := ev.receipt.value;
      if !receipt.succeeded { SaveVisit(id, Failed, attempts); return; }
      if !ev.tx.Got? { SaveVisit(id, Verifying, attempts); return; }
      var tx := ev.tx.value;
      if tx.chainId != POLYGON { SaveVisit(id, Failed, attempts); return; }
      if tx.to == Elsewhere { SaveVisit(id, Failed, attempts); return; }
      var verified := Pol(tx.value);
      if tx.to == Contract {
        if receipt.event.None? { SaveVisit(id, Failed, attempts); return; }
        if tx.value != receipt.event.value.amount { SaveVisit(id, Failed, attempts); return; }
        if !LinkedWalletMatches(ev.linked, receipt.event.value.wallet, tx.from) {
          SaveVisit(id, Failed, attempts);
          return;
        }
        verified := Pol(receipt.event.value.amount);
      }
      if ev.latest.None? { SaveVisit(id, Verifying, attempts); return; }
      var confirmations := ev.latest.value - receipt.block + 1;
      if confirmations < cfg.confirmations { SaveVisit(id, Verifying, attempts); return; }
      if verified < cfg.minDeposit { SaveVisit(id, Failed, attempts); return; }
      if Duplicate(rows, id) { SaveVisit(id, Failed, attempts); return; }
      rows := rows[id := Deposit(row.user, row.hash, verified, Completed, attempts)];
      Increment(row.user, verified);
      delta := Some((row.user, verified));
    }

    method FindPending() returns (picked: seq<nat>)
      ensures IsBatch(rows, picked)
    {
      picked := [];
      for i := 0 to |rows|
        invariant |picked| <= BATCH
        invariant forall k | 0 <= k < |picked| :: picked[k] < i && UnderVerification(rows, picked[k])
        invariant forall j, k | 0 <= j < k < |picked| :: picked[j] < picked[k]
        invariant forall j: nat | j < i && UnderVerification(rows, j) && j !in picked ::
                    |picked| == BATCH && forall k | 0 <= k < |picked| :: picked[k] < j
      {
        if rows[i].Deposit? && rows[i].status == Verifying && |picked| < BATCH { picked := picked + [i]; }
      }
    }

    /**
     * One round of the verifier: the oldest rows under verification, each once. The server starts their visits
     * together; as long as no hash has two live rows, any order gives this wallet.
     */
    method RunDepositVerifier(evidence: seq<Evidence>) returns (ghost picked: seq<nat>)
      requires |evidence| == |rows|
      modifies this
      ensures IsBatch(old(rows), picked)
      ensures View() == Exec(old(View()), VisitsOf(picked, evidence), cfg)
      ensures OneLive(old(rows)) ==> ComesOfAnyOrder(old(View()), picked, evidence, View(), cfg)
    {
      var pending := FindPending();
      picked := pending;
      ghost var visits := VisitsOf(pending, evidence);
      for n := 0 to |pending|
        invariant |rows| == |evidence| && StillPending(rows, pending, n)
        invariant View() == Exec(old(View()), visits[..n], cfg)
      {
        TakeOneMore(visits, n);
        VisitLeavesRest(View(), pending, n, evidence[pending[n]], cfg);
        LastOfRun(old(View()), visits[..n], visits[n], cfg);
        var _ := VerifyOnePendingDeposit(pending[n], evidence[pending[n]]);
      }
      assert visits[..|pending|] == visits;
      if OneLive(old(rows)) { RoundInAnyOrder(old(View()), pending, evidence, cfg); }
    }
  }
}
