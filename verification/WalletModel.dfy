/**
 * POL balances with their withdrawal and deposit rows. Row ids are positions: rows are never deleted.
 * Each request, with the reads that guard it, is one step.
 */
module WalletModel {
  import opened Tables

  const WITHDRAW_MIN := 10.0
  const MAX_ATTEMPTS := 96
  const BATCH := 50
  const POLYGON := 137
  const WEI_PER_POL := 1000000000000000000.0

  datatype Status = Pending | Approved | Verifying | Completed | Failed

  datatype Row =
    | Withdrawal(user: nat, amount: real, status: Status, reserved: bool)
    | Deposit(user: nat, hash: nat, amount: real, status: Status, attempts: nat)

  datatype Wallet = Wallet(rows: seq<Row>, balance: map<nat, real>)

  datatype Config = Config(minDeposit: real, confirmations: int)

  function BalanceOf(w: Wallet, user: nat): real {
    if user in w.balance then w.balance[user] else 0.0
  }

  // ---- What the chain says ----

  datatype Fetched<T> = Down | Missing | Got(value: T)

  datatype Event = Event(wallet: nat, amount: nat)
  datatype Receipt = Receipt(succeeded: bool, block: int, event: Option<Event>)
  datatype Destination = Contract | Treasury | Elsewhere
  datatype ChainTx = ChainTx(chainId: int, to: Destination, from: nat, value: nat)

  /** Answers of the node on one visit, and the wallet linked to the row's user. */
  datatype Evidence = Evidence(receipt: Fetched<Receipt>, tx: Fetched<ChainTx>, latest: Option<int>,
                               linked: Option<nat>)

  datatype Verdict = Retry | Refuse | Credit(amount: real)

  function Pol(wei: nat): real {
    wei as real / WEI_PER_POL
  }

  predicate LinkedWalletMatches(linked: Option<nat>, wallet: nat, from: nat) {
    linked.Some? && linked.value == wallet == from
  }

  /** A payment to the contract counts only with an event of the same value from the linked wallet. */
  predicate ContractPaymentFits(receipt: Receipt, tx: ChainTx, linked: Option<nat>) {
    && receipt.event.Some?
    && receipt.event.value.amount == tx.value
    && LinkedWalletMatches(linked, receipt.event.value.wallet, tx.from)
  }

  /** The verifier's decision, before it looks for a duplicate. */
  function Judge(ev: Evidence, cfg: Config): Verdict {
    if !ev.receipt.Got? then Retry
    else if !ev.receipt.value.succeeded then Refuse
    else if !ev.tx.Got? then Retry
    else
      var receipt, tx := ev.receipt.value, ev.tx.value;
      if tx.chainId != POLYGON || tx.to == Elsewhere then Refuse
      else if tx.to == Contract && !ContractPaymentFits(receipt, tx, ev.linked) then Refuse
      else if ev.latest.None? || ev.latest.value - receipt.block + 1 < cfg.confirmations then Retry
      else if Pol(tx.value) < cfg.minDeposit then Refuse
      else Credit(Pol(tx.value))
  }

  // ---- Requests ----

  datatype Op =
    | Withdraw(user: nat, amount: real)
    | Approve(id: nat)
    | Reject(id: nat)
    | Complete(id: nat, hashValid: bool)
    | AutoSend(id: nat)
    | Submit(user: nat, hash: nat, claimed: real)
    | ChainSync(beneficiary: Option<nat>, hash: nat)
    | Verify(id: nat, evidence: Evidence)

  datatype Reply =
    | Done
    | BelowMinimum
    | PendingExists
    | InsufficientBalance
    | NotFound
    | WrongStatus
    | InvalidHash
    | InvalidAmount
    | AlreadyCredited
    | InVerification
    | VerificationFailed
    | HashClaimed
    | Skipped

  predicate PendingOf(r: Row, user: nat) {
    r.Withdrawal? && r.user == user && r.status == Pending
  }

  predicate HasPending(rows: seq<Row>, user: nat) {
    exists i :: 0 <= i < |rows| && PendingOf(rows[i], user)
  }

  predicate IsClaim(r: Row, user: nat, hash: nat) {
    r.Deposit? && r.user == user && r.hash == hash
  }

  /** The first deposit row of this user with this hash. */
  function Claim(rows: seq<Row>, user: nat, hash: nat): (r: Option<nat>)
    ensures r.Some? ==> r.value < |rows| && IsClaim(rows[r.value], user, hash)
    ensures r.None? ==> forall i | 0 <= i < |rows| :: !IsClaim(rows[i], user, hash)
  {
    if rows == [] then None
    else
      var front := Claim(rows[..|rows| - 1], user, hash);
      if front.Some? then front
      else if IsClaim(rows[|rows| - 1], user, hash) then Some(|rows| - 1)
      else None
  }

  predicate Live(r: Row) {
    r.Deposit? && (r.status == Verifying || r.status == Completed)
  }

  predicate ClaimedByOther(rows: seq<Row>, user: nat, hash: nat) {
    exists i :: 0 <= i < |rows| && Live(rows[i]) && rows[i].hash == hash && rows[i].user != user
  }

  predicate HasDeposit(rows: seq<Row>, hash: nat) {
    exists i :: 0 <= i < |rows| && rows[i].Deposit? && rows[i].hash == hash
  }

  /** Another row already credited this row's hash. */
  predicate Duplicate(rows: seq<Row>, id: nat)
    requires id < |rows| && rows[id].Deposit?
  {
    exists i :: 0 <= i < |rows| && i != id && rows[i].Deposit? && rows[i].status == Completed &&
      rows[i].hash == rows[id].hash
  }

  predicate IsWithdrawal(w: Wallet, id: nat) {
    id < |w.rows| && w.rows[id].Withdrawal?
  }

  predicate Open(s: Status) {
    s == Pending || s == Approved
  }

  function SubmitAnswer(w: Wallet, user: nat, hash: nat, claimed: real, cfg: Config): Reply {
    var claim := Claim(w.rows, user, hash);
    if claimed < 0.0 || 0.0 < claimed < cfg.minDeposit then InvalidAmount
    else if claim.Some? && w.rows[claim.value].status == Completed then AlreadyCredited
    else if claim.Some? && w.rows[claim.value].status == Verifying then InVerification
    else if claim.Some? && w.rows[claim.value].status == Failed then VerificationFailed
    else if ClaimedByOther(w.rows, user, hash) then HashClaimed
    else Done
  }

  function Answer(w: Wallet, op: Op, cfg: Config): Reply {
    match op
    case Withdraw(user, amount) =>
      if amount < WITHDRAW_MIN then BelowMinimum
      else if HasPending(w.rows, user) then PendingExists
      else if BalanceOf(w, user) < amount then InsufficientBalance
      else Done
    case Approve(id) =>
      if !IsWithdrawal(w, id) then NotFound else if w.rows[id].status != Pending then WrongStatus else Done
    case Reject(id) =>
      if !IsWithdrawal(w, id) then NotFound else if !Open(w.rows[id].status) then WrongStatus else Done
    case Complete(id, hashValid) =>
      if !hashValid then InvalidHash
      else if !IsWithdrawal(w, id) then NotFound
      else if !Open(w.rows[id].status) then WrongStatus
      else Done
    case AutoSend(id) =>
      if IsWithdrawal(w, id) && w.rows[id].status == Approved then Done else Skipped
    case Submit(user, hash, claimed) => SubmitAnswer(w, user, hash, claimed, cfg)
    case ChainSync(beneficiary, hash) =>
      if beneficiary.None? || HasDeposit(w.rows, hash) then Skipped else Done
    case Verify(id, evidence) =>
      if id < |w.rows| && w.rows[id].Deposit? && w.rows[id].status == Verifying then Done else Skipped
  }

  // ---- Effects ----

  function WithRow(w: Wallet, id: nat, r: Row): Wallet
    requires id < |w.rows|
  {
    w.(rows := w.rows[id := r])
  }

  function WithBalance(w: Wallet, user: nat, change: real): Wallet {
    w.(balance := w.balance[user := BalanceOf(w, user) + change])
  }

  function WithStatus(r: Row, status: Status): Row {
    match r
    case Withdrawal(user, amount, _, reserved) => Withdrawal(user, amount, status, reserved)
    case Deposit(user, hash, amount, _, attempts) => Deposit(user, hash, amount, status, attempts)
  }

  /**
   * Sets the status of a row, if there is one; a withdrawal that fails before it was completed or failed
   * gets its reserve back.
   */
  function StatusSet(w: Wallet, id: nat, status: Status): Wallet {
    if id >= |w.rows| then w
    else
      var r := w.rows[id];
      var t := WithRow(w, id, WithStatus(r, status));
      if r.Withdrawal? && status == Failed && r.status != Failed && r.status != Completed && r.reserved
      then WithBalance(t, r.user, r.amount)
      else t
  }

  /** One visit of the verifier to a row under verification. */
  function Visited(w: Wallet, id: nat, ev: Evidence, cfg: Config): Wallet
    requires id < |w.rows| && w.rows[id].Deposit?
  {
    var r := w.rows[id].(attempts := w.rows[id].attempts + 1);
    if r.attempts > MAX_ATTEMPTS then WithRow(w, id, r.(status := Failed))
    else
      match Judge(ev, cfg)
      case Retry => WithRow(w, id, r)
      case Refuse => WithRow(w, id, r.(status := Failed))
      case Credit(amount) =>
        if Duplicate(w.rows, id) then WithRow(w, id, r.(status := Failed))
        else WithBalance(WithRow(w, id, r.(status := Completed, amount := amount)), r.user, amount)
  }

  function Effect(w: Wallet, op: Op, cfg: Config): Wallet
    requires Answer(w, op, cfg) == Done
  {
    match op
    case Withdraw(user, amount) =>
      WithBalance(w.(rows := w.rows + [Withdrawal(user, amount, Pending, true)]), user, -amount)
    case Approve(id) => WithRow(w, id, WithStatus(w.rows[id], Approved))
    case Reject(id) => StatusSet(w, id, Failed)
    case Complete(id, _) => StatusSet(w, id, Completed)
    case AutoSend(id) => StatusSet(w, id, Completed)
    case Submit(user, hash, claimed) => w.(rows := w.rows + [Deposit(user, hash, claimed, Verifying, 0)])
    case ChainSync(beneficiary, hash) => w.(rows := w.rows + [Deposit(beneficiary.value, hash, 0.0, Verifying, 0)])
    case Verify(id, evidence) => Visited(w, id, evidence, cfg)
  }

  function Step(w: Wallet, op: Op, cfg: Config): Wallet {
    if Answer(w, op, cfg) == Done then Effect(w, op, cfg) else w
  }

  function Exec(w: Wallet, ops: seq<Op>, cfg: Config): Wallet {
    if ops == [] then w else Step(Exec(w, ops[..|ops| - 1], cfg), ops[|ops| - 1], cfg)
  }

  // ---- What the mining engine is told ----

  /** A withdrawal's amount, when this status gives it back. */
  function RefundOf(w: Wallet, id: nat, status: Status): Option<(nat, real)> {
    if id < |w.rows| && w.rows[id].Withdrawal? && status == Failed && w.rows[id].status != Failed
       && w.rows[id].status != Completed && w.rows[id].reserved
    then Some((w.rows[id].user, w.rows[id].amount))
    else None
  }

  /** The credit of a visit, if it gives one. */
  function CreditOf(w: Wallet, id: nat, ev: Evidence, cfg: Config): Option<(nat, real)>
    requires id < |w.rows| && w.rows[id].Deposit?
  {
    var verdict := Judge(ev, cfg);
    if w.rows[id].attempts + 1 <= MAX_ATTEMPTS && verdict.Credit? && !Duplicate(w.rows, id)
    then Some((w.rows[id].user, verdict.amount))
    else None
  }

  /** The user and the change that a request passes on, besides making it in the database. */
  function DeltaOf(w: Wallet, op: Op, cfg: Config): Option<(nat, real)> {
    if Answer(w, op, cfg) != Done then None
    else match op
      case Withdraw(user, amount) => Some((user, -amount))
      case Reject(id) => RefundOf(w, id, Failed)
      case Verify(id, ev) => CreditOf(w, id, ev, cfg)
      case _ => None
  }

  // ---- Rounds of the verifier ----

  predicate UnderVerification(rows: seq<Row>, id: nat) {
    id < |rows| && rows[id].Deposit? && rows[id].status == Verifying
  }

  /** The oldest rows under verification, at most 50: a row is passed over only when 50 older ones are picked. */
  ghost predicate IsBatch(rows: seq<Row>, picked: seq<nat>) {
    && |picked| <= BATCH
    && (forall j, k | 0 <= j < k < |picked| :: picked[j] < picked[k])
    && (forall k | 0 <= k < |picked| :: UnderVerification(rows, picked[k]))
    && (forall i: nat | UnderVerification(rows, i) && i !in picked ::
          |picked| == BATCH && forall k | 0 <= k < |picked| :: picked[k] < i)
  }

  /** One visit for each picked row; `evidence[i]` is what the node says about row `i`. */
  function VisitsOf(picked: seq<nat>, evidence: seq<Evidence>): seq<Op>
    requires forall k | 0 <= k < |picked| :: picked[k] < |evidence|
  {
    seq(|picked|, k requires 0 <= k < |picked| => Verify(picked[k], evidence[picked[k]]))
  }
}
