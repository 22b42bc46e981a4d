/** Balances agree with rows in every run; final states stay; refunds and credits happen once. */
module WalletTheorems {
  import opened Tables
  import opened WalletModel

  // ---- The books ----

  /** What a row means for its user's balance: completed deposits in, withdrawals that did not fail out. */
  function Value(r: Row, user: nat): real {
    if r.user != user then 0.0
    else match r
      case Deposit(_, _, amount, status, _) => if status == Completed then amount else 0.0
      case Withdrawal(_, amount, status, _) => if status == Failed then 0.0 else -amount
  }

  function Net(rows: seq<Row>, user: nat): real {
    if rows == [] then 0.0 else Net(rows[..|rows| - 1], user) + Value(rows[|rows| - 1], user)
  }

  function Start(start: map<nat, real>, user: nat): real {
    if user in start then start[user] else 0.0
  }

  ghost predicate BooksOk(w: Wallet, start: map<nat, real>) {
    forall u: nat :: BalanceOf(w, u) == Start(start, u) + Net(w.rows, u)
  }

  ghost predicate Solvent(w: Wallet) {
    forall u: nat :: BalanceOf(w, u) >= 0.0
  }

  predicate RowOk(r: Row, cfg: Config) {
    match r
    case Withdrawal(_, amount, status, reserved) => reserved && amount >= WITHDRAW_MIN && status != Verifying
    case Deposit(_, _, amount, status, attempts) =>
      && status != Pending && status != Approved
      && (status == Verifying ==> attempts <= MAX_ATTEMPTS)
      && (status == Completed ==> amount >= cfg.minDeposit)
  }

  ghost predicate RowsOk(rows: seq<Row>, cfg: Config) {
    forall i | 0 <= i < |rows| :: RowOk(rows[i], cfg)
  }

  /** At most one pending withdrawal per user. */
  ghost predicate OnePending(rows: seq<Row>) {
    forall i, j | 0 <= i < |rows| && 0 <= j < |rows| && i != j && PendingOf(rows[i], rows[i].user) ::
      !PendingOf(rows[j], rows[i].user)
  }

  /** At most one deposit row under verification or completed per transaction hash. */
  ghost predicate OneLive(rows: seq<Row>) {
    forall i, j | 0 <= i < |rows| && 0 <= j < |rows| && i != j && Live(rows[i]) && Live(rows[j]) ::
      rows[i].hash != rows[j].hash
  }

  /** At most one deposit row per user and hash. */
  ghost predicate OneClaim(rows: seq<Row>) {
    forall i, j | 0 <= i < |rows| && 0 <= j < |rows| && i != j && rows[i].Deposit? ::
      !IsClaim(rows[j], rows[i].user, rows[i].hash)
  }

  ghost predicate Inv(w: Wallet, start: map<nat, real>, cfg: Config) {
    && BooksOk(w, start) && Solvent(w)
    && RowsOk(w.rows, cfg) && OnePending(w.rows) && OneLive(w.rows) && OneClaim(w.rows)
  }

  lemma {:induction false} NetAppend(rows: seq<Row>, r: Row, user: nat)
    ensures Net(rows + [r], user) == Net(rows, user) + Value(r, user)
  {
    assert (rows + [r])[..|rows|] == rows;
  }

  lemma {:induction false} NetUpdate(rows: seq<Row>, id: nat, r: Row, user: nat)
    requires id < |rows|
    ensures Net(rows[id := r], user) == Net(rows, user) - Value(rows[id], user) + Value(r, user)
  {
    var n := |rows| - 1;
    if id < n {
      NetUpdate(rows[..n], id, r, user);
      assert rows[id := r][..n] == rows[..n][id := r];
    } else {
      assert rows[id := r][..n] == rows[..n];
    }
  }

  // ---- Every step keeps the books ----

  lemma {:induction false} AppendKeepsBooks(w: Wallet, r: Row, change: real, start: map<nat, real>)
    requires BooksOk(w, start) && change == Value(r, r.user)
    ensures BooksOk(WithBalance(w.(rows := w.rows + [r]), r.user, change), start)
  {
    var t := WithBalance(w.(rows := w.rows + [r]), r.user, change);
    forall u: nat ensures BalanceOf(t, u) == Start(start, u) + Net(t.rows, u) {
      assert BalanceOf(w, u) == Start(start, u) + Net(w.rows, u);
      NetAppend(w.rows, r, u);
    }
  }

  lemma {:induction false} AppendNothingKeepsBooks(w: Wallet, r: Row, start: map<nat, real>)
    requires BooksOk(w, start) && Value(r, r.user) == 0.0
    ensures BooksOk(w.(rows := w.rows + [r]), start)
  {
    var t := w.(rows := w.rows + [r]);
    forall u: nat ensures BalanceOf(t, u) == Start(start, u) + Net(t.rows, u) {
      assert BalanceOf(w, u) == Start(start, u) + Net(w.rows, u);
      NetAppend(w.rows, r, u);
    }
  }

  lemma {:induction false} UpdateKeepsBooks(w: Wallet, id: nat, r: Row, change: real, start: map<nat, real>)
    requires BooksOk(w, start) && id < |w.rows| && r.user == w.rows[id].user
    requires change == Value(r, r.user) - Value(w.rows[id], r.user)
    ensures BooksOk(WithBalance(WithRow(w, id, r), r.user, change), start)
  {
    var t := WithBalance(WithRow(w, id, r), r.user, change);
    forall u: nat ensures BalanceOf(t, u) == Start(start, u) + Net(t.rows, u) {
      assert BalanceOf(w, u) == Start(start, u) + Net(w.rows, u);
      NetUpdate(w.rows, id, r, u);
    }
  }

  lemma {:induction false} UpdateSameKeepsBooks(w: Wallet, id: nat, r: Row, start: map<nat, real>)
    requires BooksOk(w, start) && id < |w.rows| && r.user == w.rows[id].user &&
              Value(r, r.user) == Value(w.rows[id], r.user)
    ensures BooksOk(WithRow(w, id, r), start)
  {
    var t := WithRow(w, id, r);
    forall u: nat ensures BalanceOf(t, u) == Start(start, u) + Net(t.rows, u) {
      assert BalanceOf(w, u) == Start(start, u) + Net(w.rows, u);
      NetUpdate(w.rows, id, r, u);
    }
  }

  /** A row may move only forward: amounts stay, and so do user and hash. */
  ghost predicate Follows(r: Row, n: Row) {
    match r
    case Withdrawal(user, amount, status, reserved) =>
      n.Withdrawal? && n.user == user && n.amount == amount && n.reserved == reserved && n.status != Pending
    case Deposit(user, hash, amount, status, attempts) =>
      n.Deposit? && n.user == user && n.hash == hash && (Live(n) ==> Live(r))
  }

  lemma {:induction false} UpdateKeepsRows(rows: seq<Row>, id: nat, r: Row, cfg: Config)
    requires RowsOk(rows, cfg) && OnePending(rows) && OneLive(rows) && OneClaim(rows)
    requires id < |rows| && Follows(rows[id], r) && RowOk(r, cfg)
    ensures var t := rows[id := r]; RowsOk(t, cfg) && OnePending(t) && OneLive(t) && OneClaim(t)
  {
  }

  lemma {:induction false} WithdrawalKeeps(w: Wallet, id: nat, r: Row, start: map<nat, real>, cfg: Config)
    requires Inv(w, start, cfg) && IsWithdrawal(w, id) && Open(w.rows[id].status)
    requires Follows(w.rows[id], r) && RowOk(r, cfg)
    ensures r.status != Failed ==> Inv(WithRow(w, id, r), start, cfg)
    ensures r.status == Failed ==> Inv(WithBalance(WithRow(w, id, r), r.user, r.amount), start, cfg)
  {
    UpdateKeepsRows(w.rows, id, r, cfg);
    if r.status == Failed {
      UpdateKeepsBooks(w, id, r, r.amount, start);
    } else {
      UpdateSameKeepsBooks(w, id, r, start);
    }
  }

  lemma {:induction false} RequestKeeps(w: Wallet, user: nat, amount: real, start: map<nat, real>, cfg: Config)
    requires Inv(w, start, cfg) && Answer(w, Withdraw(user, amount), cfg) == Done
    ensures Inv(Effect(w, Withdraw(user, amount), cfg), start, cfg)
  {
    AppendKeepsBooks(w, Withdrawal(user, amount, Pending, true), -amount, start);
  }

  lemma {:induction false} NewDepositKeeps(w: Wallet, user: nat, hash: nat, claimed: real, start: map<nat, real>,
                                           cfg: Config)
    requires Inv(w, start, cfg) && Claim(w.rows, user, hash).None? && !ClaimedByOther(w.rows, user, hash)
    ensures Inv(w.(rows := w.rows + [Deposit(user, hash, claimed, Verifying, 0)]), start, cfg)
  {
    AppendNothingKeepsBooks(w, Deposit(user, hash, claimed, Verifying, 0), start);
    forall i | 0 <= i < |w.rows|
      ensures !IsClaim(w.rows[i], user, hash) && !(Live(w.rows[i]) && w.rows[i].hash == hash)
    {
      assert !IsClaim(w.rows[i], user, hash);
    }
  }

  /** A credit of a row under verification never meets a row that credited its hash before. */
  lemma {:induction false} NoDuplicate(w: Wallet, id: nat, start: map<nat, real>, cfg: Config)
    requires Inv(w, start, cfg) && id < |w.rows| && w.rows[id].Deposit? && w.rows[id].status == Verifying
    ensures !Duplicate(w.rows, id)
  {
    forall i | 0 <= i < |w.rows| && i != id ensures !(Live(w.rows[i]) && w.rows[i].hash == w.rows[id].hash) {
      assert Live(w.rows[id]);
    }
  }

  lemma {:induction false} VisitKeeps(w: Wallet, id: nat, ev: Evidence, start: map<nat, real>, cfg: Config)
    requires Inv(w, start, cfg) && cfg.minDeposit > 0.0
    requires id < |w.rows| && w.rows[id].Deposit? && w.rows[id].status == Verifying
    ensures Inv(Visited(w, id, ev, cfg), start, cfg)
  {
    var r := Visited(w, id, ev, cfg).rows[id];
    NoDuplicate(w, id, start, cfg);
    UpdateKeepsRows(w.rows, id, r, cfg);
    if r.status == Completed {
      UpdateKeepsBooks(w, id, r, r.amount, start);
    } else {
      UpdateSameKeepsBooks(w, id, r, start);
    }
  }

  lemma {:induction false} StepKeeps(w: Wallet, op: Op, start: map<nat, real>, cfg: Config)
    requires Inv(w, start, cfg) && cfg.minDeposit > 0.0
    ensures Inv(Step(w, op, cfg), start, cfg)
  {
    if Answer(w, op, cfg) == Done {
      match op
      case Withdraw(user, amount) => RequestKeeps(w, user, amount, start, cfg);
      case Approve(id) => WithdrawalKeeps(w, id, WithStatus(w.rows[id], Approved), start, cfg);
      case Reject(id) => WithdrawalKeeps(w, id, WithStatus(w.rows[id], Failed), start, cfg);
      case Complete(id, _) => WithdrawalKeeps(w, id, WithStatus(w.rows[id], Completed), start, cfg);
      case AutoSend(id) => WithdrawalKeeps(w, id, WithStatus(w.rows[id], Completed), start, cfg);
      case Submit(user, hash, claimed) =>
        NoClaim(w, user, hash, claimed, cfg);
        NewDepositKeeps(w, user, hash, claimed, start, cfg);
      case ChainSync(beneficiary, hash) =>
        NoDepositNoClaim(w.rows, beneficiary.value, hash);
        NewDepositKeeps(w, beneficiary.value, hash, 0.0, start, cfg);
      case Verify(id, ev) => VisitKeeps(w, id, ev, start, cfg);
    }
  }

  /** A claim of the same user always stops a new one: its row is verifying, completed or failed. */
  lemma {:induction false} NoClaim(w: Wallet, user: nat, hash: nat, claimed: real, cfg: Config)
    requires RowsOk(w.rows, cfg) && SubmitAnswer(w, user, hash, claimed, cfg) == Done
    ensures Claim(w.rows, user, hash).None? && !ClaimedByOther(w.rows, user, hash)
  {
    forall i | 0 <= i < |w.rows| && w.rows[i].Deposit? ensures w.rows[i].status in {Verifying, Completed, Failed} {
      assert RowOk(w.rows[i], cfg);
    }
  }

  lemma {:induction false} NoDepositNoClaim(rows: seq<Row>, user: nat, hash: nat)
    requires !HasDeposit(rows, hash)
    ensures Claim(rows, user, hash).None? && !ClaimedByOther(rows, user, hash)
  {
  }

  // ---- Runs ----

  /** Nothing requested yet, and no balance below zero. */
  ghost predicate Initial(w: Wallet) {
    w.rows == [] && Solvent(w)
  }

  /**
   * In every run a user's balance is what it started with, plus completed deposits, less withdrawals
   * that did not fail; no balance is negative, no user has two pending withdrawals, and no transaction
   * hash has two rows under verification or completed.
   */
  lemma {:induction false} RunKeeps(w: Wallet, ops: seq<Op>, cfg: Config)
    requires Initial(w) && cfg.minDeposit > 0.0
    ensures Inv(Exec(w, ops, cfg), w.balance, cfg)
    decreases |ops|
  {
    if ops == [] {
    } else {
      RunKeeps(w, ops[..|ops| - 1], cfg);
      StepKeeps(Exec(w, ops[..|ops| - 1], cfg), ops[|ops| - 1], w.balance, cfg);
    }
  }

  /** In no run does a visit of the verifier find that another row already credited the hash. */
  lemma {:induction false} DuplicateBranchDead(w: Wallet, ops: seq<Op>, id: nat, cfg: Config)
    requires Initial(w) && cfg.minDeposit > 0.0 && UnderVerification(Exec(w, ops, cfg).rows, id)
    ensures !Duplicate(Exec(w, ops, cfg).rows, id)
  {
    RunKeeps(w, ops, cfg);
    NoDuplicate(Exec(w, ops, cfg), id, w.balance, cfg);
  }

  // ---- Final states ----

  predicate Final(s: Status) {
    s == Completed || s == Failed
  }

  lemma {:induction false} StepRow(w: Wallet, op: Op, id: nat, cfg: Config)
    requires id < |w.rows|
    ensures id < |Step(w, op, cfg).rows|
    ensures Final(w.rows[id].status) ==> Step(w, op, cfg).rows[id] == w.rows[id]
  {
  }

  /** Completed and failed rows never change again. */
  lemma {:induction false} FinalStays(w: Wallet, ops: seq<Op>, id: nat, cfg: Config)
    requires id < |w.rows| && Final(w.rows[id].status)
    ensures id < |Exec(w, ops, cfg).rows| && Exec(w, ops, cfg).rows[id] == w.rows[id]
    decreases |ops|
  {
    if ops != [] {
      FinalStays(w, ops[..|ops| - 1], id, cfg);
      StepRow(Exec(w, ops[..|ops| - 1], cfg), ops[|ops| - 1], id, cfg);
    }
  }

  // ---- Deltas ----

  /** What a request passes on to the mining engine is exactly what it changes in the database. */
  lemma {:induction false} DeltaIsChange(w: Wallet, op: Op, u: nat, cfg: Config)
    ensures var d := DeltaOf(w, op, cfg);
            BalanceOf(Step(w, op, cfg), u) == BalanceOf(w, u) + if d.Some? && d.value.0 == u then d.value.1 else 0.0
  {
  }

  // ---- Refunds ----

  /** The step gives the owner of withdrawal `id` money back on its account. */
  ghost predicate Refunds(w: Wallet, op: Op, id: nat, cfg: Config) {
    op == Reject(id) && id < |w.rows| && BalanceOf(Step(w, op, cfg), w.rows[id].user) > BalanceOf(w, w.rows[id].user)
  }

  ghost function RefundCount(w: Wallet, ops: seq<Op>, id: nat, cfg: Config): nat {
    if ops == [] then 0
    else
      var front := ops[..|ops| - 1];
      RefundCount(w, front, id, cfg) + if Refunds(Exec(w, front, cfg), ops[|ops| - 1], id, cfg) then 1 else 0
  }

  predicate FailedWithdrawal(w: Wallet, id: nat) {
    IsWithdrawal(w, id) && w.rows[id].status == Failed
  }

  lemma {:induction false} StepRefunds(w: Wallet, op: Op, id: nat, start: map<nat, real>, cfg: Config)
    requires Inv(w, start, cfg)
    ensures Refunds(w, op, id, cfg) <==> !FailedWithdrawal(w, id) && FailedWithdrawal(Step(w, op, cfg), id)
    ensures FailedWithdrawal(w, id) ==> FailedWithdrawal(Step(w, op, cfg), id)
    ensures Refunds(w, op, id, cfg) ==>
              BalanceOf(Step(w, op, cfg), w.rows[id].user) == BalanceOf(w, w.rows[id].user) + w.rows[id].amount
  {
    if id < |w.rows| {
      assert RowOk(w.rows[id], cfg);
      StepRow(w, op, id, cfg);
    }
  }

  /** A withdrawal is refunded exactly once if it failed, and never otherwise. */
  lemma {:induction false} RefundedOnce(w: Wallet, ops: seq<Op>, id: nat, cfg: Config)
    requires Initial(w) && cfg.minDeposit > 0.0
    ensures RefundCount(w, ops, id, cfg) == if FailedWithdrawal(Exec(w, ops, cfg), id) then 1 else 0
    decreases |ops|
  {
    if ops != [] {
      var front := ops[..|ops| - 1];
      RefundedOnce(w, front, id, cfg);
      RunKeeps(w, front, cfg);
      StepRefunds(Exec(w, front, cfg), ops[|ops| - 1], id, w.balance, cfg);
    }
  }

  // ---- Credits ----

  /** The step raises a balance on account of a deposit with this hash. */
  ghost predicate Credits(w: Wallet, op: Op, hash: nat, cfg: Config) {
    && op.Verify? && op.id < |w.rows| && w.rows[op.id].Deposit? && w.rows[op.id].hash == hash
    && BalanceOf(Step(w, op, cfg), w.rows[op.id].user) > BalanceOf(w, w.rows[op.id].user)
  }

  ghost function CreditCount(w: Wallet, ops: seq<Op>, hash: nat, cfg: Config): nat {
    if ops == [] then 0
    else
      var front := ops[..|ops| - 1];
      CreditCount(w, front, hash, cfg) + if Credits(Exec(w, front, cfg), ops[|ops| - 1], hash, cfg) then 1 else 0
  }

  predicate Credited(w: Wallet, hash: nat) {
    exists i :: 0 <= i < |w.rows| && w.rows[i].Deposit? && w.rows[i].hash == hash && w.rows[i].status == Completed
  }

  lemma {:induction false} CreditedStays(w: Wallet, op: Op, hash: nat, cfg: Config)
    requires Credited(w, hash)
    ensures Credited(Step(w, op, cfg), hash)
  {
    var i :| 0 <= i < |w.rows| && w.rows[i].Deposit? && w.rows[i].hash == hash && w.rows[i].status == Completed;
    StepRow(w, op, i, cfg);
    assert Step(w, op, cfg).rows[i] == w.rows[i];
  }

  lemma {:induction false} NewCredit(w: Wallet, op: Op, hash: nat, start: map<nat, real>, cfg: Config)
    requires Inv(w, start, cfg) && cfg.minDeposit > 0.0 && Credits(w, op, hash, cfg)
    ensures !Credited(w, hash) && Credited(Step(w, op, cfg), hash)
  {
    NoDuplicate(w, op.id, start, cfg);
    var r := Step(w, op, cfg).rows[op.id];
    assert r.Deposit? && r.hash == hash && r.status == Completed;
  }

  lemma {:induction false} OnlyVerifyCredits(w: Wallet, op: Op, hash: nat, start: map<nat, real>, cfg: Config)
    requires Inv(w, start, cfg) && cfg.minDeposit > 0.0
    requires !Credited(w, hash) && Credited(Step(w, op, cfg), hash)
    ensures Credits(w, op, hash, cfg)
  {
    var t := Step(w, op, cfg);
    var i :| 0 <= i < |t.rows| && t.rows[i].Deposit? && t.rows[i].hash == hash && t.rows[i].status == Completed;
    assert i < |w.rows|;
    assert w.rows[i].Deposit? && w.rows[i].hash == hash && w.rows[i].status != Completed;
  }

  /** A transaction hash is credited exactly once if one of its rows completed, and never otherwise. */
  lemma {:induction false} CreditedOnce(w: Wallet, ops: seq<Op>, hash: nat, cfg: Config)
    requires Initial(w) && cfg.minDeposit > 0.0
    ensures CreditCount(w, ops, hash, cfg) == if Credited(Exec(w, ops, cfg), hash) then 1 else 0
    decreases |ops|
  {
    if ops != [] {
      var front, op := ops[..|ops| - 1], ops[|ops| - 1];
      CreditedOnce(w, front, hash, cfg);
      RunKeeps(w, front, cfg);
      var before := Exec(w, front, cfg);
      if Credits(before, op, hash, cfg) {
        NewCredit(before, op, hash, w.balance, cfg);
      } else if Credited(before, hash) {
        CreditedStays(before, op, hash, cfg);
      } else if Credited(Step(before, op, cfg), hash) {
        OnlyVerifyCredits(before, op, hash, w.balance, cfg);
      }
    }
  }

  // ---- Leaving verification ----

  function Visits(ops: seq<Op>, id: nat): nat {
    if ops == [] then 0
    else Visits(ops[..|ops| - 1], id) + if ops[|ops| - 1].Verify? && ops[|ops| - 1].id == id then 1 else 0
  }

  /** Every visit to a row under verification takes it out of that state or uses up one of its attempts. */
  lemma {:induction false} VisitsCount(w: Wallet, ops: seq<Op>, id: nat, cfg: Config)
    requires UnderVerification(w.rows, id) && w.rows[id].attempts <= MAX_ATTEMPTS &&
              UnderVerification(Exec(w, ops, cfg).rows, id)
    ensures Exec(w, ops, cfg).rows[id].attempts == w.rows[id].attempts + Visits(ops, id) <= MAX_ATTEMPTS
    decreases |ops|
  {
    if ops != [] {
      var front, op := ops[..|ops| - 1], ops[|ops| - 1];
      var before := Exec(w, front, cfg);
      RowsGrow(w, front, cfg);
      if !UnderVerification(before.rows, id) {
        DepositStays(w, front, id, cfg);
        StaysOut(before, op, id, cfg);
        assert false;
      }
      VisitsCount(w, front, id, cfg);
    }
  }

  lemma {:induction false} RowsGrow(w: Wallet, ops: seq<Op>, cfg: Config)
    ensures |w.rows| <= |Exec(w, ops, cfg).rows|
    decreases |ops|
  {
    if ops != [] { RowsGrow(w, ops[..|ops| - 1], cfg); }
  }

  lemma {:induction false} DepositStays(w: Wallet, ops: seq<Op>, id: nat, cfg: Config)
    requires id < |w.rows| && w.rows[id].Deposit?
    ensures id < |Exec(w, ops, cfg).rows| && Exec(w, ops, cfg).rows[id].Deposit?
    decreases |ops|
  {
    if ops != [] { DepositStays(w, ops[..|ops| - 1], id, cfg); }
  }

  lemma {:induction false} StaysOut(w: Wallet, op: Op, id: nat, cfg: Config)
    requires id < |w.rows| && w.rows[id].Deposit? && !UnderVerification(w.rows, id)
    ensures !UnderVerification(Step(w, op, cfg).rows, id)
  {
  }

  /** No row is still under verification after 97 visits. */
  lemma {:induction false} VerificationEnds(w: Wallet, ops: seq<Op>, id: nat, cfg: Config)
    requires UnderVerification(w.rows, id) && w.rows[id].attempts <= MAX_ATTEMPTS && Visits(ops, id) > MAX_ATTEMPTS
    ensures !UnderVerification(Exec(w, ops, cfg).rows, id)
  {
    if UnderVerification(Exec(w, ops, cfg).rows, id) {
      VisitsCount(w, ops, id, cfg);
      assert false;
    }
  }

  // ---- Rounds ----

  /** A run of single requests and whole rounds of the verifier. */
  datatype Action =
    | Single(op: Op)
    | Round(picked: seq<nat>, evidence: seq<Evidence>)

  ghost predicate Proper(w: Wallet, a: Action) {
    a.Round? ==> IsBatch(w.rows, a.picked) && |a.evidence| == |w.rows|
  }

  ghost function Act(w: Wallet, a: Action, cfg: Config): Wallet
    requires Proper(w, a)
  {
    match a
    case Single(op) => Step(w, op, cfg)
    case Round(picked, evidence) => Exec(w, VisitsOf(picked, evidence), cfg)
  }

  /** The run is proper and leads from `w` to `t`. */
  ghost predicate Leads(w: Wallet, actions: seq<Action>, t: Wallet, cfg: Config)
    decreases |actions|
  {
    if actions == [] then t == w
    else Proper(w, actions[0]) && Leads(Act(w, actions[0], cfg), actions[1..], t, cfg)
  }

  function Rounds(actions: seq<Action>): nat {
    if actions == [] then 0 else Rounds(actions[1..]) + if actions[0].Round? then 1 else 0
  }

  /** Visits a row can still take. */
  function Budget(r: Row): nat {
    if r.Deposit? && r.status == Verifying && r.attempts <= MAX_ATTEMPTS then MAX_ATTEMPTS + 1 - r.attempts else 0
  }

  /** The same for the first `n` rows together. */
  function Budgets(rows: seq<Row>, n: nat): nat
    requires n <= |rows|
  {
    if n == 0 then 0 else Budgets(rows, n - 1) + Budget(rows[n - 1])
  }

  ghost predicate AttemptsOk(rows: seq<Row>) {
    forall i | 0 <= i < |rows| && rows[i].Deposit? && rows[i].status == Verifying :: rows[i].attempts <= MAX_ATTEMPTS
  }

  /** No request raises a budget, and a visit to a row under verification lowers its. */
  lemma {:induction false} StepBudget(w: Wallet, op: Op, i: nat, cfg: Config)
    requires i < |w.rows| && AttemptsOk(w.rows)
    ensures i < |Step(w, op, cfg).rows| && Budget(Step(w, op, cfg).rows[i]) <= Budget(w.rows[i])
    ensures op.Verify? && op.id == i && UnderVerification(w.rows, i) ==>
              Budget(Step(w, op, cfg).rows[i]) < Budget(w.rows[i])
    ensures UnderVerification(Step(w, op, cfg).rows, i) ==> UnderVerification(w.rows, i)
  {
  }

  lemma {:induction false} StepAttempts(w: Wallet, op: Op, cfg: Config)
    requires AttemptsOk(w.rows)
    ensures AttemptsOk(Step(w, op, cfg).rows)
  {
    var t := Step(w, op, cfg);
    forall i | 0 <= i < |t.rows| && t.rows[i].Deposit? && t.rows[i].status == Verifying
      ensures t.rows[i].attempts <= MAX_ATTEMPTS
    {
      if i < |w.rows| { StepBudget(w, op, i, cfg); }
    }
  }

  lemma {:induction false} StepBudgets(w: Wallet, op: Op, n: nat, cfg: Config)
    requires n <= |w.rows| && AttemptsOk(w.rows)
    ensures n <= |Step(w, op, cfg).rows| && Budgets(Step(w, op, cfg).rows, n) <= Budgets(w.rows, n)
    ensures op.Verify? && op.id < n && UnderVerification(w.rows, op.id) ==>
              Budgets(Step(w, op, cfg).rows, n) < Budgets(w.rows, n)
  {
    if n > 0 {
      StepBudgets(w, op, n - 1, cfg);
      StepBudget(w, op, n - 1, cfg);
    } else {
      RowsGrow(w, [op], cfg);
      assert [op][..0] == [] && Exec(w, [], cfg) == w;
    }
  }

  lemma {:induction false} RunBudgets(w: Wallet, ops: seq<Op>, n: nat, cfg: Config)
    requires n <= |w.rows| && AttemptsOk(w.rows)
    ensures n <= |Exec(w, ops, cfg).rows| && Budgets(Exec(w, ops, cfg).rows, n) <= Budgets(w.rows, n)
    ensures AttemptsOk(Exec(w, ops, cfg).rows)
    ensures forall i: nat | i < n && UnderVerification(Exec(w, ops, cfg).rows, i) :: UnderVerification(w.rows, i)
    decreases |ops|
  {
    if ops != [] {
      var front, op := ops[..|ops| - 1], ops[|ops| - 1];
      var before := Exec(w, front, cfg);
      RunBudgets(w, front, n, cfg);
      StepBudgets(before, op, n, cfg);
      StepAttempts(before, op, cfg);
      forall i: nat | i < n && UnderVerification(Step(before, op, cfg).rows, i) ensures UnderVerification(w.rows, i) {
        StepBudget(before, op, i, cfg);
      }
    }
  }

  lemma {:induction false} LastOfRun(w: Wallet, ops: seq<Op>, op: Op, cfg: Config)
    ensures Exec(w, ops + [op], cfg) == Step(Exec(w, ops, cfg), op, cfg)
  {
    assert (ops + [op])[..|ops|] == ops;
  }

  lemma {:induction false} FirstOfRun(w: Wallet, op: Op, rest: seq<Op>, cfg: Config)
    ensures Exec(w, [op] + rest, cfg) == Exec(Step(w, op, cfg), rest, cfg)
    decreases |rest|
  {
    if rest == [] {
      LastOfRun(w, rest, op, cfg);
      assert [op] + rest == rest + [op];
    } else {
      var front, last := rest[..|rest| - 1], rest[|rest| - 1];
      FirstOfRun(w, op, front, cfg);
      LastOfRun(w, [op] + front, last, cfg);
      LastOfRun(Step(w, op, cfg), front, last, cfg);
      assert [op] + rest == ([op] + front) + [last] && rest == front + [last];
    }
  }

  /** A round visits the row or, first of all, an older one. */
  lemma {:induction false} FirstPicked(rows: seq<Row>, picked: seq<nat>, id: nat)
    requires IsBatch(rows, picked) && UnderVerification(rows, id)
    ensures |picked| > 0 && picked[0] <= id && UnderVerification(rows, picked[0])
  {
    if id in picked {
      var k :| 0 <= k < |picked| && picked[k] == id;
      assert picked[0] <= picked[k];
    }
  }

  lemma {:induction false} FirstVisitBudgets(w: Wallet, first: Op, rest: seq<Op>, n: nat, cfg: Config)
    requires AttemptsOk(w.rows) && n <= |w.rows|
    requires first.Verify? && first.id < n && UnderVerification(w.rows, first.id)
    ensures n <= |Exec(w, [first] + rest, cfg).rows| &&
              Budgets(Exec(w, [first] + rest, cfg).rows, n) < Budgets(w.rows, n)
  {
    FirstOfRun(w, first, rest, cfg);
    StepBudgets(w, first, n, cfg);
    StepAttempts(w, first, cfg);
    RunBudgets(Step(w, first, cfg), rest, n, cfg);
  }

  lemma {:induction false} RoundBudgets(w: Wallet, a: Action, id: nat, cfg: Config)
    requires a.Round? && Proper(w, a) && AttemptsOk(w.rows) && UnderVerification(w.rows, id)
    ensures id < |Act(w, a, cfg).rows| && Budgets(Act(w, a, cfg).rows, id + 1) < Budgets(w.rows, id + 1)
  {
    var visits := VisitsOf(a.picked, a.evidence);
    FirstPicked(w.rows, a.picked, id);
    assert visits == [visits[0]] + visits[1..];
    FirstVisitBudgets(w, visits[0], visits[1..], id + 1, cfg);
  }

  lemma {:induction false} ActBudgets(w: Wallet, a: Action, id: nat, cfg: Config)
    requires Proper(w, a) && AttemptsOk(w.rows) && id < |w.rows|
    ensures var t := Act(w, a, cfg);
            && AttemptsOk(t.rows) && id < |t.rows| && Budgets(t.rows, id + 1) <= Budgets(w.rows, id + 1)
            && (UnderVerification(t.rows, id) ==> UnderVerification(w.rows, id))
  {
    match a
    case Single(op) =>
      assert [op][..0] == [] && Exec(w, [], cfg) == w && Exec(w, [op], cfg) == Step(w, op, cfg);
      RunBudgets(w, [op], id + 1, cfg);
    case Round(picked, evidence) => RunBudgets(w, VisitsOf(picked, evidence), id + 1, cfg);
  }

  lemma {:induction false} RoundsUsed(w: Wallet, actions: seq<Action>, t: Wallet, id: nat, cfg: Config)
    requires AttemptsOk(w.rows) && id < |w.rows| && Leads(w, actions, t, cfg) && UnderVerification(t.rows, id)
    ensures UnderVerification(w.rows, id) && Rounds(actions) + Budgets(t.rows, id + 1) <= Budgets(w.rows, id + 1)
    ensures AttemptsOk(t.rows)
    decreases |actions|
  {
    if actions != [] {
      var next := Act(w, actions[0], cfg);
      ActBudgets(w, actions[0], id, cfg);
      RoundsUsed(next, actions[1..], t, id, cfg);
      if actions[0].Round? { RoundBudgets(w, actions[0], id, cfg); }
    }
  }

  /** Rows under verification among the first `n`. */
  function Waiting(rows: seq<Row>, n: nat): nat
    requires n <= |rows|
  {
    if n == 0 then 0 else Waiting(rows, n - 1) + if UnderVerification(rows, n - 1) then 1 else 0
  }

  lemma {:induction false} BudgetsBounded(rows: seq<Row>, n: nat)
    requires n <= |rows|
    ensures Budgets(rows, n) <= 97 * Waiting(rows, n)
  {
    if n > 0 { BudgetsBounded(rows, n - 1); }
  }

  /**
   * However many rows wait in front of it and whatever else happens in between, a row has left verification after
   * 97 rounds for itself and for each older row that was under verification.
   */
  lemma {:induction false} RoundsEnd(w: Wallet, actions: seq<Action>, t: Wallet, id: nat, cfg: Config)
    requires AttemptsOk(w.rows) && UnderVerification(w.rows, id) && Leads(w, actions, t, cfg)
    requires Rounds(actions) >= 97 * Waiting(w.rows, id + 1)
    ensures !UnderVerification(t.rows, id)
  {
    if UnderVerification(t.rows, id) {
      RoundsUsed(w, actions, t, id, cfg);
      BudgetsBounded(w.rows, id + 1);
      assert false;
    }
  }
}
