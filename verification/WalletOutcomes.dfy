/** What a caller gets from each wallet request: the row, the balance, and when. */
module WalletOutcomes {
  import opened Tables
  import opened WalletModel
  import WT = WalletTheorems

  /** Balances are as before, except that `user` has `change` more. */
  ghost predicate Moved(w: Wallet, t: Wallet, user: nat, change: real) {
    forall u: nat :: BalanceOf(t, u) == BalanceOf(w, u) + if u == user then change else 0.0
  }

  ghost predicate SameMoney(w: Wallet, t: Wallet) {
    forall u: nat :: BalanceOf(t, u) == BalanceOf(w, u)
  }

  // ---- Visits of the verifier ----

  /** The transaction went through. */
  predicate Mined(ev: Evidence) {
    ev.receipt.Got? && ev.receipt.value.succeeded
  }

  /** It is on Polygon and pays the treasury, or the contract with an event that fits the linked wallet. */
  predicate PaysUs(ev: Evidence)
    requires Mined(ev) && ev.tx.Got?
  {
    var tx, event := ev.tx.value, ev.receipt.value.event;
    && tx.chainId == 137
    && (tx.to.Treasury? || (tx.to.Contract? && event.Some? && event.value.amount == tx.value
                            && ev.linked == Some(tx.from) && event.value.wallet == tx.from))
  }

  predicate Settled(ev: Evidence, cfg: Config)
    requires ev.receipt.Got?
  {
    ev.latest.Some? && ev.latest.value - ev.receipt.value.block + 1 >= cfg.confirmations
  }

  predicate Enough(ev: Evidence, cfg: Config)
    requires ev.tx.Got?
  {
    ev.tx.value.value as real / 1000000000000000000.0 >= cfg.minDeposit
  }

  predicate CreditedElsewhere(rows: seq<Row>, id: nat)
    requires id < |rows| && rows[id].Deposit?
  {
    exists i :: 0 <= i < |rows| && i != id && rows[i].Deposit? && rows[i].hash == rows[id].hash &&
      rows[i].status.Completed?
  }

  /** The visit completes the row. */
  predicate Completes(rows: seq<Row>, id: nat, ev: Evidence, cfg: Config)
    requires id < |rows| && rows[id].Deposit?
  {
    && rows[id].attempts < 96 && Mined(ev) && ev.tx.Got? && PaysUs(ev) && Settled(ev, cfg) && Enough(ev, cfg)
    && !CreditedElsewhere(rows, id)
  }

  /** The visit leaves the row waiting: the node does not know enough yet. */
  predicate Waits(rows: seq<Row>, id: nat, ev: Evidence, cfg: Config)
    requires id < |rows| && rows[id].Deposit?
  {
    && rows[id].attempts < 96
    && (!ev.receipt.Got? || (Mined(ev) && (!ev.tx.Got? || (PaysUs(ev) && !Settled(ev, cfg)))))
  }

  /**
   * A visit to a row under verification completes it with exactly the transaction's value, leaves it waiting, or fails
   * it; it changes no other row and no other balance.
   */
  lemma {:induction false} VisitOutcome(w: Wallet, id: nat, ev: Evidence, cfg: Config)
    requires UnderVerification(w.rows, id)
    ensures var t, r := Step(w, Verify(id, ev), cfg), w.rows[id];
            && |t.rows| == |w.rows| && (forall i | 0 <= i < |w.rows| && i != id :: t.rows[i] == w.rows[i])
            && t.rows[id].Deposit? && t.rows[id].user == r.user && t.rows[id].hash == r.hash
            && t.rows[id].attempts == r.attempts + 1
            && (t.rows[id].status.Completed? <==> Completes(w.rows, id, ev, cfg))
            && (t.rows[id].status.Verifying? <==> Waits(w.rows, id, ev, cfg))
            && (t.rows[id].status.Failed? <==> !Completes(w.rows, id, ev, cfg) && !Waits(w.rows, id, ev, cfg))
            && if Completes(w.rows, id, ev, cfg)
               then t.rows[id].amount == ev.tx.value.value as real / 1000000000000000000.0
                    && Moved(w, t, r.user, ev.tx.value.value as real / 1000000000000000000.0)
               else t.rows[id].amount == r.amount && SameMoney(w, t)
  {
    assert Duplicate(w.rows, id) <==> CreditedElsewhere(w.rows, id);
  }

  /** A visit to any other row, or to none, does nothing. */
  lemma {:induction false} NoVisit(w: Wallet, id: nat, ev: Evidence, cfg: Config)
    requires !UnderVerification(w.rows, id)
    ensures Step(w, Verify(id, ev), cfg) == w
  {
  }

  /** Five POL to the treasury, three confirmations: the balance is five. */
  lemma {:induction false} FiveArrive(w: Wallet, ev: Evidence, cfg: Config)
    requires w == Wallet([Deposit(1, 7, 0.0, Verifying, 0)], map[]) && cfg == Config(1.0, 3)
    requires ev == Evidence(Got(Receipt(true, 10, None)), Got(ChainTx(137, Treasury, 9, 5000000000000000000)), Some(12),
                            None)
    ensures BalanceOf(Step(w, Verify(0, ev), cfg), 1) == 5.0
  {
    VisitOutcome(w, 0, ev, cfg);
  }

  // ---- Withdrawals ----

  predicate PendingFor(rows: seq<Row>, user: nat) {
    exists i :: 0 <= i < |rows| && rows[i].Withdrawal? && rows[i].user == user && rows[i].status.Pending?
  }

  /** A request passes exactly with at least 10, nothing pending and a balance that covers it, and then reserves it. */
  lemma {:induction false} WithdrawOutcome(w: Wallet, user: nat, amount: real, cfg: Config)
    ensures var t, reply := Step(w, Withdraw(user, amount), cfg), Answer(w, Withdraw(user, amount), cfg);
            && (reply == BelowMinimum <==> amount < 10.0)
            && (reply == PendingExists <==> amount >= 10.0 && PendingFor(w.rows, user))
            && (reply == InsufficientBalance <==>
                  amount >= 10.0 && !PendingFor(w.rows, user) && BalanceOf(w, user) < amount)
            && (reply == Done <==> amount >= 10.0 && !PendingFor(w.rows, user) && BalanceOf(w, user) >= amount)
            && if reply == Done
               then t.rows == w.rows + [Withdrawal(user, amount, Pending, true)] && Moved(w, t, user, -amount)
               else t == w
  {
    assert HasPending(w.rows, user) <==> PendingFor(w.rows, user);
  }

  /** Only the status of row `id` changes, to `status`. */
  ghost predicate OnlyStatus(w: Wallet, t: Wallet, id: nat, status: Status)
    requires id < |w.rows|
  {
    && |t.rows| == |w.rows| && (forall i | 0 <= i < |w.rows| && i != id :: t.rows[i] == w.rows[i])
    && t.rows[id] == w.rows[id].(status := status)
  }

  predicate IsOpen(w: Wallet, id: nat) {
    id < |w.rows| && w.rows[id].Withdrawal? && (w.rows[id].status.Pending? || w.rows[id].status.Approved?)
  }

  /** Approval takes a pending withdrawal to approved and moves no money. */
  lemma {:induction false} ApproveOutcome(w: Wallet, id: nat, cfg: Config)
    ensures var t, reply := Step(w, Approve(id), cfg), Answer(w, Approve(id), cfg);
            && (reply == NotFound <==> id >= |w.rows| || !w.rows[id].Withdrawal?)
            && (reply == Done <==> id < |w.rows| && w.rows[id].Withdrawal? && w.rows[id].status.Pending?)
            && (reply in {NotFound, WrongStatus, Done})
            && if reply == Done then OnlyStatus(w, t, id, Approved) && SameMoney(w, t) else t == w
  {
  }

  /** Rejection takes an open withdrawal to failed and gives the reserve back. */
  lemma {:induction false} RejectOutcome(w: Wallet, id: nat, cfg: Config)
    ensures var t, reply := Step(w, Reject(id), cfg), Answer(w, Reject(id), cfg);
            && (reply == NotFound <==> id >= |w.rows| || !w.rows[id].Withdrawal?)
            && (reply == Done <==> IsOpen(w, id)) && reply in {NotFound, WrongStatus, Done}
            && if reply == Done
               then OnlyStatus(w, t, id, Failed)
                    && Moved(w, t, w.rows[id].user, if w.rows[id].reserved then w.rows[id].amount else 0.0)
               else t == w
  {
  }

  /** Completion with a well-formed hash takes an open withdrawal to completed and moves no money. */
  lemma {:induction false} CompleteOutcome(w: Wallet, id: nat, hashValid: bool, cfg: Config)
    ensures var t, reply := Step(w, Complete(id, hashValid), cfg), Answer(w, Complete(id, hashValid), cfg);
            && (reply == InvalidHash <==> !hashValid)
            && (reply == NotFound <==> hashValid && (id >= |w.rows| || !w.rows[id].Withdrawal?))
            && (reply == Done <==> hashValid && IsOpen(w, id)) && reply in {InvalidHash, NotFound, WrongStatus, Done}
            && if reply == Done then OnlyStatus(w, t, id, Completed) && SameMoney(w, t) else t == w
  {
  }

  /** Automatic sending completes exactly an approved withdrawal. */
  lemma {:induction false} AutoSendOutcome(w: Wallet, id: nat, cfg: Config)
    ensures var t := Step(w, AutoSend(id), cfg);
            if id < |w.rows| && w.rows[id].Withdrawal? && w.rows[id].status.Approved?
            then OnlyStatus(w, t, id, Completed) && SameMoney(w, t)
            else t == w
  {
  }

  /** A status update of any row: a withdrawal that fails for the first time and was not completed is refunded. */
  lemma {:induction false} StatusOutcome(w: Wallet, id: nat, status: Status)
    requires id < |w.rows|
    ensures var t, r := StatusSet(w, id, status), w.rows[id];
            && OnlyStatus(w, t, id, status)
            && if r.Withdrawal? && status.Failed? && !r.status.Failed? && !r.status.Completed? && r.reserved
               then Moved(w, t, r.user, r.amount)
               else SameMoney(w, t)
  {
  }

  // ---- Deposits ----

  predicate OwnRow(r: Row, user: nat, hash: nat, status: Status) {
    r.Deposit? && r.user == user && r.hash == hash && r.status == status
  }

  ghost predicate HasOwn(rows: seq<Row>, user: nat, hash: nat, status: Status) {
    exists i :: 0 <= i < |rows| && OwnRow(rows[i], user, hash, status)
  }

  /** Somebody else has the hash under verification or completed. */
  ghost predicate TakenByOther(rows: seq<Row>, user: nat, hash: nat) {
    exists i :: 0 <= i < |rows| && rows[i].Deposit? && rows[i].hash == hash && rows[i].user != user
             && (rows[i].status.Verifying? || rows[i].status.Completed?)
  }

  /** At most one row of the user has the hash, and deposits are under verification, completed or failed. */
  ghost predicate DepositsOk(rows: seq<Row>) {
    && (forall i, j | 0 <= i < |rows| && 0 <= j < |rows| && i != j && rows[i].Deposit? && rows[j].Deposit? ::
          rows[i].user != rows[j].user || rows[i].hash != rows[j].hash)
    && (forall i | 0 <= i < |rows| && rows[i].Deposit? :: !rows[i].status.Pending? && !rows[i].status.Approved?)
  }

  /** ... in every run. */
  lemma {:induction false} RunDeposits(w: Wallet, ops: seq<Op>, cfg: Config)
    requires WT.Initial(w) && cfg.minDeposit > 0.0
    ensures DepositsOk(Exec(w, ops, cfg).rows)
  {
    WT.RunKeeps(w, ops, cfg);
    var rows := Exec(w, ops, cfg).rows;
    forall i | 0 <= i < |rows| && rows[i].Deposit? ensures !rows[i].status.Pending? && !rows[i].status.Approved? {
      assert WT.RowOk(rows[i], cfg);
    }
    forall i, j | 0 <= i < |rows| && 0 <= j < |rows| && i != j && rows[i].Deposit? && rows[j].Deposit?
      ensures rows[i].user != rows[j].user || rows[i].hash != rows[j].hash
    {
      assert !IsClaim(rows[j], rows[i].user, rows[i].hash);
    }
  }

  lemma {:induction false} ClaimStatus(rows: seq<Row>, user: nat, hash: nat, status: Status)
    requires DepositsOk(rows)
    ensures HasOwn(rows, user, hash, status) <==>
              Claim(rows, user, hash).Some? && rows[Claim(rows, user, hash).value].status == status
  {
    if i :| 0 <= i < |rows| && OwnRow(rows[i], user, hash, status) {
      assert IsClaim(rows[i], user, hash);
    }
  }

  /** Which refusal a submission meets, and the row of one that passes. */
  lemma {:induction false} SubmitOutcome(w: Wallet, user: nat, hash: nat, claimed: real, cfg: Config)
    requires DepositsOk(w.rows)
    ensures var t, reply := Step(w, Submit(user, hash, claimed), cfg), Answer(w, Submit(user, hash, claimed), cfg);
            var amountOk := claimed == 0.0 || (claimed > 0.0 && claimed >= cfg.minDeposit);
            var known := HasOwn(w.rows, user, hash, Completed) || HasOwn(w.rows, user, hash, Verifying)
                         || HasOwn(w.rows, user, hash, Failed);
            && (reply == InvalidAmount <==> !amountOk)
            && (reply == AlreadyCredited <==> amountOk && HasOwn(w.rows, user, hash, Completed))
            && (reply == InVerification <==> amountOk && HasOwn(w.rows, user, hash, Verifying))
            && (reply == VerificationFailed <==> amountOk && HasOwn(w.rows, user, hash, Failed))
            && (reply == HashClaimed <==> amountOk && !known && TakenByOther(w.rows, user, hash))
            && (reply == Done <==> amountOk && !known && !TakenByOther(w.rows, user, hash))
            && if reply == Done then t == w.(rows := w.rows + [Deposit(user, hash, claimed, Verifying, 0)]) else t == w
  {
    ClaimStatus(w.rows, user, hash, Completed);
    ClaimStatus(w.rows, user, hash, Verifying);
    ClaimStatus(w.rows, user, hash, Failed);
    assert ClaimedByOther(w.rows, user, hash) <==> TakenByOther(w.rows, user, hash);
  }

  /** A chain event gives the user it was looked up for a row with nothing in it, unless any deposit has its hash. */
  lemma {:induction false} ChainSyncOutcome(w: Wallet, beneficiary: Option<nat>, hash: nat, cfg: Config)
    ensures var t := Step(w, ChainSync(beneficiary, hash), cfg);
            if beneficiary.Some? && forall i | 0 <= i < |w.rows| && w.rows[i].Deposit? :: w.rows[i].hash != hash
            then t == w.(rows := w.rows + [Deposit(beneficiary.value, hash, 0.0, Verifying, 0)])
            else t == w
  {
  }

  /** The rows of this list under verification. */
  function Waiting(rows: seq<Row>): set<nat> {
    set i: nat | i < |rows| && rows[i].Deposit? && rows[i].status == Verifying
  }

  /** A round picks distinct waiting rows, oldest first: all of them if there are no more than 50, and else 50. */
  lemma {:induction false} BatchOutcome(rows: seq<Row>, picked: seq<nat>)
    requires IsBatch(rows, picked)
    ensures forall j, k | 0 <= j < k < |picked| :: picked[j] < picked[k]
    ensures forall k | 0 <= k < |picked| :: picked[k] in Waiting(rows)
    ensures forall i | i in Waiting(rows) && i !in picked :: forall k | 0 <= k < |picked| :: picked[k] < i
    ensures |picked| == if |Waiting(rows)| <= 50 then |Waiting(rows)| else 50
  {
    var all := set k: nat | k in picked;
    SizeOfPicked(picked, all);
    assert all <= Waiting(rows);
    if i :| i in Waiting(rows) && i !in picked {
      Smaller(all + {i}, Waiting(rows));
    } else {
      assert all == Waiting(rows);
    }
  }

  lemma {:induction false} Smaller(a: set<nat>, b: set<nat>)
    requires a <= b
    ensures |a| <= |b|
  {
    assert b == a + (b - a);
  }

  lemma {:induction false} SizeOfPicked(picked: seq<nat>, all: set<nat>)
    requires forall j, k | 0 <= j < k < |picked| :: picked[j] < picked[k]
    requires forall i :: i in all <==> i in picked
    ensures |all| == |picked|
  {
    if picked == [] {
      assert all == {};
    } else {
      var n := |picked| - 1;
      SizeOfPicked(picked[..n], all - {picked[n]});
    }
  }
}
