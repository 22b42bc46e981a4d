/**
 * POL balances in two places: the database, which requests change, and the engine's memory, which boosts, rigs and
 * payouts change. Deltas, the storing of payouts and write-backs carry changes from one to the other.
 */
module Ledger {
  import opened Tables
  import M = MiningModel
  import T = MiningTheorems
  import R = MiningRollback
  import W = WalletModel
  import WT = WalletTheorems

  datatype PayoutState = Waiting | Stored | Lost

  /** A paid block, and what has become of the storing of its rewards. */
  datatype Payout = Payout(t: R.Snapshots, state: PayoutState)

  /**
   * A write-back of miner `id`, cut at its await: the amount is fixed when it begins. One that fails leaves memory as
   * it is, and the database too unless only the answer was lost.
   */
  datatype Write = Write(id: nat, delta: real, ended: bool)

  datatype System = System(wallet: W.Wallet, e: M.Engine, payouts: seq<Payout>, writes: seq<Write>)

  /**
   * `Transfer` is any other change of a user's balance in the database that the engine is told of, such as a purchase
   * or a commission. `Direct` is one that it is not told of, such as a milestone or an offerwall reward. A delta that
   * comes as a step of the engine alone belongs to a transaction that was not committed.
   */
  datatype Event =
    | Request(request: W.Op)
    | Transfer(user: nat, delta: real)
    | Direct(payee: nat, amount: real)
    | Act(op: M.Op)
    | Store(block: nat)
    | Lose(block: nat)
    | BeginWrite(id: nat)
    | EndWrite(write: nat)
    | FailWrite(write: nat, committed: bool)

  // ---- Steps ----

  ghost predicate Ready(s: System) {
    T.Bijection(s.e) && M.Shaped(s.e) && forall k | 0 <= k < |s.payouts| :: |s.payouts[k].t| <= |s.e.miners|
  }

  /** The block's rewards go to its miners' users. */
  function StoreAll(w: W.Wallet, ms: seq<M.Miner>, t: R.Snapshots): W.Wallet
    requires |t| <= |ms|
  {
    if t == [] then w
    else
      var n := |t| - 1;
      var front := StoreAll(w, ms, t[..n]);
      if t[n].Some? then W.WithBalance(front, ms[n].user, t[n].value.reward) else front
  }

  function Passed(e: M.Engine, delta: Option<(nat, real)>): M.Engine
    requires M.Shaped(e)
  {
    if delta.Some? then M.Step(e, M.OpDelta(delta.value.0, delta.value.1)) else e
  }

  function WithState(s: System, k: nat, state: PayoutState): System
    requires k < |s.payouts|
  {
    s.(payouts := s.payouts[k := s.payouts[k].(state := state)])
  }

  predicate Ongoing(s: System, k: nat) {
    k < |s.writes| && !s.writes[k].ended && s.writes[k].id < |s.e.miners|
  }

  function Writer(s: System, k: nat): M.Miner
    requires Ongoing(s, k)
  {
    s.e.miners[s.writes[k].id]
  }

  function Closed(s: System, k: nat): System
    requires Ongoing(s, k)
  {
    s.(writes := s.writes[k := s.writes[k].(ended := true)])
  }

  /** The write is over, and its amount is in the database. */
  function Incremented(s: System, k: nat): System
    requires Ongoing(s, k)
  {
    Closed(s, k).(wallet := W.WithBalance(s.wallet, Writer(s, k).user, s.writes[k].delta))
  }

  function Next(s: System, ev: Event, cfg: W.Config): System
    requires Ready(s)
  {
    match ev
    case Request(op) => s.(wallet := W.Step(s.wallet, op, cfg), e := Passed(s.e, W.DeltaOf(s.wallet, op, cfg)))
    case Transfer(user, delta) =>
      s.(wallet := W.WithBalance(s.wallet, user, delta), e := Passed(s.e, Some((user, delta))))
    case Direct(payee, amount) => s.(wallet := W.WithBalance(s.wallet, payee, amount))
    case Act(op) =>
      var t := R.Paying(s.e, op);
      s.(e := M.Step(s.e, op), payouts := if t != [] then s.payouts + [Payout(t, Waiting)] else s.payouts)
    case Store(k) =>
      if k < |s.payouts| && s.payouts[k].state == Waiting
      then WithState(s, k, Stored).(wallet := StoreAll(s.wallet, s.e.miners, s.payouts[k].t))
      else s
    case Lose(k) =>
      if k < |s.payouts| && s.payouts[k].state == Waiting
      then WithState(s, k, Lost).(e := R.RolledBack(s.e, s.payouts[k].t))
      else s
    case BeginWrite(id) =>
      if id < |s.e.miners| && M.ToWrite(s.e.miners[id]).Some?
      then s.(writes := s.writes + [Write(id, M.ToWrite(s.e.miners[id]).value, false)])
      else s
    case EndWrite(k) =>
      if Ongoing(s, k) then Incremented(s, k).(e := M.WithMiner(s.e, s.writes[k].id, M.Written(Writer(s, k)))) else s
    case FailWrite(k, committed) =>
      if Ongoing(s, k) then if committed then Incremented(s, k) else Closed(s, k) else s
  }

  lemma {:induction false} OtherReady(s: System, ev: Event, cfg: W.Config)
    requires Ready(s) && (ev.Direct? || ev.Store? || ev.Lose? || ev.BeginWrite? || ev.EndWrite? || ev.FailWrite?)
    ensures Ready(Next(s, ev, cfg)) && |s.e.miners| == |Next(s, ev, cfg).e.miners|
    ensures forall i | 0 <= i < |s.e.miners| :: Next(s, ev, cfg).e.miners[i].user == s.e.miners[i].user
  {
  }

  lemma {:induction false} NextReady(s: System, ev: Event, cfg: W.Config)
    requires Ready(s)
    ensures Ready(Next(s, ev, cfg)) && |s.e.miners| <= |Next(s, ev, cfg).e.miners|
    ensures forall i | 0 <= i < |s.e.miners| :: Next(s, ev, cfg).e.miners[i].user == s.e.miners[i].user
  {
    match ev
    case Request(op) =>
      var d := W.DeltaOf(s.wallet, op, cfg);
      if d.Some? { StepReady(s, M.OpDelta(d.value.0, d.value.1)); }
    case Transfer(user, delta) => StepReady(s, M.OpDelta(user, delta));
    case Act(op) =>
      StepReady(s, op);
      R.StepMiners(s.e, op);
    case _ => OtherReady(s, ev, cfg);
  }

  lemma {:induction false} StepReady(s: System, op: M.Op)
    requires Ready(s)
    ensures var e := M.Step(s.e, op);
            && T.Bijection(e) && |s.e.miners| <= |e.miners|
            && forall i | 0 <= i < |s.e.miners| :: e.miners[i].user == s.e.miners[i].user
  {
    T.StepKeepsBijection(s.e, op);
    if !(op.OpJoin? && M.Found(s.e, op.user).None?) { T.SameUsers(s.e, op); }
  }

  function Run(s: System, evs: seq<Event>, cfg: W.Config): (r: System)
    requires Ready(s)
    ensures Ready(r) && |s.e.miners| <= |r.e.miners|
  {
    if evs == [] then s
    else
      var before := Run(s, evs[..|evs| - 1], cfg);
      NextReady(before, evs[|evs| - 1], cfg);
      Next(before, evs[|evs| - 1], cfg)
  }

  // ---- How far the two are apart ----

  /** What the engine takes for written, less what the database has. */
  function Drift(s: System, id: nat): real
    requires id < |s.e.miners|
  {
    s.e.miners[id].persisted - W.BalanceOf(s.wallet, s.e.miners[id].user)
  }

  /** Rewards of a miner in paid blocks that are not stored: still waiting, or lost. */
  function Unstored(payouts: seq<Payout>, id: nat): real {
    if payouts == [] then 0.0
    else
      var p := payouts[|payouts| - 1];
      Unstored(payouts[..|payouts| - 1], id) + if p.state != Stored then R.RewardAt(p.t, id) else 0.0
  }

  /** A write of the miner is ended by the event. */
  predicate Ends(s: System, k: nat, id: nat) {
    Ongoing(s, k) && s.writes[k].id == id
  }

  /**
   * By how much the amount to write has changed since a write that ends now began, and all of an amount that is in the
   * database without counting as written.
   */
  function Distorts(s: System, ev: Event, id: nat): real {
    match ev
    case EndWrite(k) => if Ends(s, k, id) then M.Unwritten(Writer(s, k)) - s.writes[k].delta else 0.0
    case FailWrite(k, committed) => if Ends(s, k, id) && committed then -s.writes[k].delta else 0.0
    case _ => 0.0
  }

  /** A change for the miner's user on one side only. */
  predicate OneSided(s: System, ev: Event, id: nat) {
    match ev
    case Direct(payee, _) => id < |s.e.miners| && payee == s.e.miners[id].user
    case Act(op) => id < |s.e.miners| && op.OpDelta? && op.user == s.e.miners[id].user
    case _ => false
  }

  /** What such a change makes memory have more than the database. */
  function Misses(s: System, ev: Event, id: nat): real {
    if !OneSided(s, ev, id) then 0.0 else if ev.Direct? then -ev.amount else ev.op.delta
  }

  /** A join that takes over a higher balance from the profile. */
  predicate Adopting(s: System, ev: Event, id: nat) {
    && ev.Act? && ev.op.OpJoin? && ev.op.profile.Some? && M.Found(s.e, ev.op.user) == Some(id) && id < |s.e.miners|
    && ev.op.profile.value.balance > s.e.miners[id].balance
  }

  /** What such a join changes. */
  function Adopts(s: System, ev: Event, id: nat): real {
    if Adopting(s, ev, id) then ev.op.profile.value.balance - s.e.miners[id].persisted else 0.0
  }

  function Disturbs(s: System, ev: Event, id: nat): real {
    Distorts(s, ev, id) + Adopts(s, ev, id) + Misses(s, ev, id)
  }

  /** All three, over a run. */
  function Disturbed(s: System, evs: seq<Event>, id: nat, cfg: W.Config): real
    requires Ready(s)
  {
    if evs == [] then 0.0
    else
      var before, ev := Run(s, evs[..|evs| - 1], cfg), evs[|evs| - 1];
      Disturbed(s, evs[..|evs| - 1], id, cfg) + Disturbs(before, ev, id)
  }

  lemma {:induction false} UnstoredAppend(payouts: seq<Payout>, p: Payout, id: nat)
    ensures Unstored(payouts + [p], id) ==
              Unstored(payouts, id) + if p.state != Stored then R.RewardAt(p.t, id) else 0.0
  {
    assert (payouts + [p])[..|payouts|] == payouts;
  }

  lemma {:induction false} UnstoredUpdate(payouts: seq<Payout>, k: nat, state: PayoutState, id: nat)
    requires k < |payouts| && payouts[k].state == Waiting
    ensures Unstored(payouts[k := payouts[k].(state := state)], id)
         == Unstored(payouts, id) - if state == Stored then R.RewardAt(payouts[k].t, id) else 0.0
  {
    var n, after := |payouts| - 1, payouts[k := payouts[k].(state := state)];
    if k < n {
      assert after[..n] == payouts[..n][k := payouts[..n][k].(state := state)];
      UnstoredUpdate(payouts[..n], k, state, id);
    } else {
      assert after[..n] == payouts[..n];
    }
  }

  /** Nobody else has the user of a miner with one. */
  ghost predicate Known(e: M.Engine, id: nat) {
    id < |e.miners| && e.miners[id].user != 0
  }

  lemma {:induction false} StoredTo(w: W.Wallet, ms: seq<M.Miner>, t: R.Snapshots, id: nat)
    requires |t| <= |ms| && id < |ms| && forall i | 0 <= i < |ms| && ms[i].user == ms[id].user :: i == id
    ensures W.BalanceOf(StoreAll(w, ms, t), ms[id].user) == W.BalanceOf(w, ms[id].user) + R.RewardAt(t, id)
  {
    if t != [] {
      var n := |t| - 1;
      StoredTo(w, ms, t[..n], id);
      assert R.RewardAt(t[..n], id) == if id == n then 0.0 else R.RewardAt(t, id);
    }
  }

  lemma {:induction false} OneMiner(e: M.Engine, id: nat)
    requires T.Bijection(e) && Known(e, id)
    ensures forall i | 0 <= i < |e.miners| && e.miners[i].user == e.miners[id].user :: i == id
    ensures forall u: nat :: M.Found(e, u) == Some(id) <==> u == e.miners[id].user
  {
  }

  /** A delta goes to the miner of its user and to no other. */
  lemma {:induction false} PassedTo(e: M.Engine, delta: Option<(nat, real)>, id: nat)
    requires M.Shaped(e) && T.Bijection(e) && Known(e, id)
    ensures var r := Passed(e, delta);
            && id < |r.miners| && r.miners[id].user == e.miners[id].user
            && r.miners[id].persisted == e.miners[id].persisted
                 + if delta.Some? && delta.value.0 == e.miners[id].user then delta.value.1 else 0.0
  {
    OneMiner(e, id);
  }

  /** What a step of the engine counts as written: its pay, a balance taken over by a join, and a delta. */
  lemma {:induction false} StepPersists(s: System, op: M.Op, id: nat)
    requires Ready(s) && Known(s.e, id)
    ensures var r := M.Step(s.e, op);
            && id < |r.miners| && r.miners[id].user == s.e.miners[id].user
            && r.miners[id].persisted
                 == s.e.miners[id].persisted + R.RewardAt(R.Paying(s.e, op), id)
                    + Adopts(s, Act(op), id) + Misses(s, Act(op), id)
  {
    if op.OpTick? {
      TickPersists(s.e, op, id);
    } else {
      OneMiner(s.e, id);
    }
  }

  lemma {:induction false} TickPersists(e: M.Engine, op: M.Op, id: nat)
    requires M.Shaped(e) && op.OpTick? && id < |e.miners|
    ensures var r := M.Step(e, op);
            && id < |r.miners| && r.miners[id].user == e.miners[id].user
            && r.miners[id].persisted == e.miners[id].persisted + R.RewardAt(R.Paying(e, op), id)
  {
    if M.Closes(e, op.now) {
      var a := M.Accrued(e, op.now);
      assert M.Step(e, op).miners == M.PaidAll(a.miners, M.Pays(a.rewardBase, a.work));
    }
  }

  // ---- The law ----

  ghost predicate StepLaw(s: System, ev: Event, id: nat, cfg: W.Config)
    requires Ready(s) && id < |s.e.miners|
  {
    var t := Next(s, ev, cfg);
    && id < |t.e.miners|
    && Drift(t, id) - Unstored(t.payouts, id) == Drift(s, id) - Unstored(s.payouts, id) + Disturbs(s, ev, id)
  }

  lemma {:induction false} RequestLaw(s: System, op: W.Op, id: nat, cfg: W.Config)
    requires Ready(s) && Known(s.e, id)
    ensures StepLaw(s, Request(op), id, cfg)
  {
    WT.DeltaIsChange(s.wallet, op, s.e.miners[id].user, cfg);
    PassedTo(s.e, W.DeltaOf(s.wallet, op, cfg), id);
  }

  lemma {:induction false} TransferLaw(s: System, user: nat, delta: real, id: nat, cfg: W.Config)
    requires Ready(s) && Known(s.e, id)
    ensures StepLaw(s, Transfer(user, delta), id, cfg)
  {
    PassedTo(s.e, Some((user, delta)), id);
  }

  lemma {:induction false} ActLaw(s: System, op: M.Op, id: nat, cfg: W.Config)
    requires Ready(s) && Known(s.e, id)
    ensures StepLaw(s, Act(op), id, cfg)
  {
    StepPersists(s, op, id);
    UnstoredAppend(s.payouts, Payout(R.Paying(s.e, op), Waiting), id);
  }

  lemma {:induction false} StoreLaw(s: System, k: nat, id: nat, cfg: W.Config)
    requires Ready(s) && Known(s.e, id)
    ensures StepLaw(s, Store(k), id, cfg)
  {
    if k < |s.payouts| && s.payouts[k].state == Waiting {
      OneMiner(s.e, id);
      StoredTo(s.wallet, s.e.miners, s.payouts[k].t, id);
      UnstoredUpdate(s.payouts, k, Stored, id);
    }
  }

  lemma {:induction false} LoseLaw(s: System, k: nat, id: nat, cfg: W.Config)
    requires Ready(s) && Known(s.e, id)
    ensures StepLaw(s, Lose(k), id, cfg)
  {
    if k < |s.payouts| && s.payouts[k].state == Waiting { UnstoredUpdate(s.payouts, k, Lost, id); }
  }

  lemma {:induction false} EndWriteLaw(s: System, k: nat, id: nat, cfg: W.Config)
    requires Ready(s) && Known(s.e, id)
    ensures StepLaw(s, EndWrite(k), id, cfg)
  {
    OneMiner(s.e, id);
  }

  lemma {:induction false} FailWriteLaw(s: System, k: nat, committed: bool, id: nat, cfg: W.Config)
    requires Ready(s) && Known(s.e, id)
    ensures StepLaw(s, FailWrite(k, committed), id, cfg)
  {
    OneMiner(s.e, id);
  }

  lemma {:induction false} NextLaw(s: System, ev: Event, id: nat, cfg: W.Config)
    requires Ready(s) && Known(s.e, id)
    ensures StepLaw(s, ev, id, cfg)
  {
    match ev
    case Request(op) => RequestLaw(s, op, id, cfg);
    case Transfer(user, delta) => TransferLaw(s, user, delta, id, cfg);
    case Act(op) => ActLaw(s, op, id, cfg);
    case Store(k) => StoreLaw(s, k, id, cfg);
    case Lose(k) => LoseLaw(s, k, id, cfg);
    case EndWrite(k) => EndWriteLaw(s, k, id, cfg);
    case FailWrite(k, committed) => FailWriteLaw(s, k, committed, id, cfg);
    case _ =>
  }

  lemma {:induction false} StaysKnown(s: System, evs: seq<Event>, id: nat, cfg: W.Config)
    requires Ready(s) && Known(s.e, id)
    ensures Known(Run(s, evs, cfg).e, id) && Run(s, evs, cfg).e.miners[id].user == s.e.miners[id].user
    decreases |evs|
  {
    if evs != [] {
      StaysKnown(s, evs[..|evs| - 1], id, cfg);
      NextReady(Run(s, evs[..|evs| - 1], cfg), evs[|evs| - 1], cfg);
    }
  }

  /**
   * Over every run, what the engine takes for written and what the database has move apart by exactly the miner's
   * rewards that are not stored, and by what distorted writes, joins with a higher balance and changes on one side
   * account for. Requests, transfers, boosts, rigs and rollbacks move neither away from the other.
   */
  lemma {:induction false} DriftLaw(s: System, evs: seq<Event>, id: nat, cfg: W.Config)
    requires Ready(s) && Known(s.e, id)
    ensures var t := Run(s, evs, cfg);
            Drift(t, id) - Unstored(t.payouts, id) ==
              Drift(s, id) - Unstored(s.payouts, id) + Disturbed(s, evs, id, cfg)
    decreases |evs|
  {
    if evs != [] {
      var front := evs[..|evs| - 1];
      DriftLaw(s, front, id, cfg);
      StaysKnown(s, front, id, cfg);
      NextLaw(Run(s, front, cfg), evs[|evs| - 1], id, cfg);
    }
  }

  /** A join with a higher balance read from the database brings the two together, whatever had moved them apart. */
  lemma {:induction false} JoinAgrees(s: System, user: nat, profile: M.Profile, id: nat, cfg: W.Config)
    requires Ready(s) && Known(s.e, id) && M.Found(s.e, user) == Some(id)
    requires profile.balance == W.BalanceOf(s.wallet, user) > s.e.miners[id].balance
    ensures var t := Next(s, Act(M.OpJoin(user, Some(profile))), cfg);
            id < |t.e.miners| && Drift(t, id) == 0.0 && M.Unwritten(t.e.miners[id]) == 0.0
  {
    OneMiner(s.e, id);
  }

  // ---- Runs without disturbance ----

  predicate IsOpen(s: System, k: nat, id: nat) {
    k < |s.writes| && !s.writes[k].ended && s.writes[k].id == id
  }

  ghost predicate Open(s: System, id: nat) {
    exists k: nat :: IsOpen(s, k, id)
  }

  /** The event may change what a write of the miner should write: a purchase, a rollback, or another write. */
  predicate Touches(s: System, ev: Event, id: nat) {
    match ev
    case Act(op) => (op.OpBoost? || op.OpUpgrade?) && op.id == id
    case Lose(k) => k < |s.payouts| && R.PaidMiner(s.payouts[k].t, id)
    case BeginWrite(i) => i == id
    case _ => false
  }

  /** A write of the miner is in the database, and its answer is lost. */
  predicate AnswerLost(s: System, ev: Event, id: nat) {
    ev.FailWrite? && ev.committed && Ends(s, ev.write, id)
  }

  /**
   * While a write of the miner is under way nothing touches it and its answer is not lost, no join takes over a higher
   * balance, and the user's balance does not change on one side only.
   */
  ghost predicate Careful(s: System, evs: seq<Event>, id: nat, cfg: W.Config)
    requires Ready(s)
  {
    evs != [] ==>
      var before, ev := Run(s, evs[..|evs| - 1], cfg), evs[|evs| - 1];
      && Careful(s, evs[..|evs| - 1], id, cfg)
      && CarefulAt(before, ev, id)
  }

  ghost predicate CarefulAt(s: System, ev: Event, id: nat) {
    && (Open(s, id) ==> !Touches(s, ev, id))
    && !AnswerLost(s, ev, id) && !Adopting(s, ev, id) && !OneSided(s, ev, id)
  }

  /** At most one write of the miner is under way, and it has the right amount. */
  ghost predicate WritesOk(s: System, id: nat)
    requires id < |s.e.miners|
  {
    && (forall k: nat | IsOpen(s, k, id) :: s.writes[k].delta == M.Unwritten(s.e.miners[id]))
    && (forall j: nat, k: nat | IsOpen(s, j, id) && IsOpen(s, k, id) :: j == k)
  }

  lemma {:induction false} DeltaKeepsUnwritten(e: M.Engine, delta: Option<(nat, real)>, id: nat)
    requires M.Shaped(e) && id < |e.miners|
    ensures id < |Passed(e, delta).miners| && M.Unwritten(Passed(e, delta).miners[id]) == M.Unwritten(e.miners[id])
  {
  }

  lemma {:induction false} StepKeepsUnwritten(e: M.Engine, op: M.Op, id: nat)
    requires M.Shaped(e) && T.Bijection(e) && Known(e, id) && !op.OpTick? &&
              !((op.OpBoost? || op.OpUpgrade?) && op.id == id)
    requires op.OpJoin? && op.profile.Some? && M.Found(e, op.user) == Some(id) ==>
              op.profile.value.balance <= e.miners[id].balance
    ensures var r := M.Step(e, op); id < |r.miners| && M.Unwritten(r.miners[id]) == M.Unwritten(e.miners[id])
  {
  }

  lemma {:induction false} TickKeepsUnwritten(e: M.Engine, op: M.Op, id: nat)
    requires M.Shaped(e) && op.OpTick? && id < |e.miners|
    ensures var r := M.Step(e, op); id < |r.miners| && M.Unwritten(r.miners[id]) == M.Unwritten(e.miners[id])
  {
    if M.Closes(e, op.now) {
      var a := M.Accrued(e, op.now);
      assert M.Step(e, op).miners == M.PaidAll(a.miners, M.Pays(a.rewardBase, a.work));
    }
  }

  lemma {:induction false} QuietStep(s: System, ev: Event, id: nat, cfg: W.Config)
    requires Ready(s) && Known(s.e, id) && !Touches(s, ev, id) && !Adopting(s, ev, id)
    requires ev.EndWrite? || ev.FailWrite? ==> !IsOpen(s, ev.write, id)
    ensures var t := Next(s, ev, cfg);
            id < |t.e.miners| && M.Unwritten(t.e.miners[id]) == M.Unwritten(s.e.miners[id])
  {
    match ev
    case Request(op) => DeltaKeepsUnwritten(s.e, W.DeltaOf(s.wallet, op, cfg), id);
    case Transfer(user, delta) => DeltaKeepsUnwritten(s.e, Some((user, delta)), id);
    case Act(op) => if op.OpTick? { TickKeepsUnwritten(s.e, op, id); } else { StepKeepsUnwritten(s.e, op, id); }
    case _ =>
  }

  /** Only the miner's own writes change which of them are under way. */
  lemma {:induction false} SameOpen(s: System, ev: Event, id: nat, k: nat, cfg: W.Config)
    requires Ready(s) && !((ev.EndWrite? || ev.FailWrite?) && IsOpen(s, ev.write, id)) &&
              !(ev.BeginWrite? && ev.id == id)
    ensures var t := Next(s, ev, cfg);
            && (IsOpen(t, k, id) <==> IsOpen(s, k, id))
            && (IsOpen(s, k, id) ==> t.writes[k].delta == s.writes[k].delta)
  {
  }

  lemma {:induction false} BeginKeepsWrites(s: System, id: nat, cfg: W.Config)
    requires Ready(s) && Known(s.e, id) && !Open(s, id)
    ensures WritesOk(Next(s, BeginWrite(id), cfg), id)
  {
    var t := Next(s, BeginWrite(id), cfg);
    forall k: nat | IsOpen(t, k, id) ensures k == |s.writes| && t.writes[k].delta == M.Unwritten(t.e.miners[id]) {
      if k < |s.writes| { assert IsOpen(s, k, id); }
    }
  }

  lemma {:induction false} EndKeepsWrites(s: System, k: nat, id: nat, cfg: W.Config)
    requires Ready(s) && Known(s.e, id) && WritesOk(s, id) && IsOpen(s, k, id)
    ensures Distorts(s, EndWrite(k), id) == 0.0
    ensures M.Unwritten(Next(s, EndWrite(k), cfg).e.miners[id]) == 0.0 && WritesOk(Next(s, EndWrite(k), cfg), id)
  {
    var t := Next(s, EndWrite(k), cfg);
    forall j: nat ensures !IsOpen(t, j, id) {
      if IsOpen(t, j, id) { assert IsOpen(s, j, id) && j != k; }
    }
  }

  lemma {:induction false} FailKeepsWrites(s: System, k: nat, id: nat, cfg: W.Config)
    requires Ready(s) && Known(s.e, id) && WritesOk(s, id) && IsOpen(s, k, id)
    ensures WritesOk(Next(s, FailWrite(k, false), cfg), id)
  {
    var t := Next(s, FailWrite(k, false), cfg);
    forall j: nat ensures !IsOpen(t, j, id) {
      if IsOpen(t, j, id) { assert IsOpen(s, j, id) && j != k; }
    }
  }

  lemma {:induction false} CarefulStep(s: System, ev: Event, id: nat, cfg: W.Config)
    requires Ready(s) && Known(s.e, id) && WritesOk(s, id)
    requires CarefulAt(s, ev, id)
    ensures id < |Next(s, ev, cfg).e.miners| && WritesOk(Next(s, ev, cfg), id)
    ensures Disturbs(s, ev, id) == 0.0
  {
    NextReady(s, ev, cfg);
    if ev.EndWrite? && IsOpen(s, ev.write, id) {
      EndKeepsWrites(s, ev.write, id, cfg);
    } else if ev.FailWrite? && IsOpen(s, ev.write, id) {
      FailKeepsWrites(s, ev.write, id, cfg);
    } else if ev.BeginWrite? && ev.id == id {
      BeginKeepsWrites(s, id, cfg);
    } else {
      var t := Next(s, ev, cfg);
      forall k: nat
        ensures IsOpen(t, k, id) <==> IsOpen(s, k, id)
        ensures IsOpen(s, k, id) ==> t.writes[k].delta == s.writes[k].delta
      {
        SameOpen(s, ev, id, k, cfg);
      }
      if k: nat :| IsOpen(s, k, id) { QuietStep(s, ev, id, cfg); }
    }
  }

  lemma {:induction false} CarefulRun(s: System, evs: seq<Event>, id: nat, cfg: W.Config)
    requires Ready(s) && Known(s.e, id) && WritesOk(s, id) && Careful(s, evs, id, cfg)
    ensures Disturbed(s, evs, id, cfg) == 0.0 && Known(Run(s, evs, cfg).e, id) && WritesOk(Run(s, evs, cfg), id)
    decreases |evs|
  {
    StaysKnown(s, evs, id, cfg);
    if evs != [] {
      var front := evs[..|evs| - 1];
      CarefulRun(s, front, id, cfg);
      CarefulStep(Run(s, front, cfg), evs[|evs| - 1], id, cfg);
    }
  }

  // ---- When the database agrees ----

  function Blocks(payouts: seq<Payout>): seq<R.Snapshots> {
    seq(|payouts|, k requires 0 <= k < |payouts| => payouts[k].t)
  }

  lemma {:induction false} NextRewarding(s: System, ev: Event, cfg: W.Config)
    requires Ready(s) && s.e.rewardBase > 0.0 && R.Rewarding(Blocks(s.payouts))
    ensures Next(s, ev, cfg).e.rewardBase == s.e.rewardBase && R.Rewarding(Blocks(Next(s, ev, cfg).payouts))
  {
    var t := Next(s, ev, cfg);
    if ev.Act? {
      R.RewardStep(s.e, ev.op);
      R.PayingRewards(s.e, ev.op);
      forall k | 0 <= k < |s.payouts| ensures Blocks(t.payouts)[k] == Blocks(s.payouts)[k] {
      }
    } else {
      assert Blocks(t.payouts) == Blocks(s.payouts);
    }
  }

  lemma {:induction false} RunRewarding(s: System, evs: seq<Event>, cfg: W.Config)
    requires Ready(s) && s.e.rewardBase > 0.0 && R.Rewarding(Blocks(s.payouts))
    ensures Run(s, evs, cfg).e.rewardBase == s.e.rewardBase && R.Rewarding(Blocks(Run(s, evs, cfg).payouts))
    decreases |evs|
  {
    if evs != [] {
      RunRewarding(s, evs[..|evs| - 1], cfg);
      NextRewarding(Run(s, evs[..|evs| - 1], cfg), evs[|evs| - 1], cfg);
    }
  }

  /** A paid block of the miner whose rewards did not reach the database. */
  predicate IsUnstored(payouts: seq<Payout>, k: nat, id: nat) {
    k < |payouts| && payouts[k].state != Stored && R.PaidMiner(payouts[k].t, id)
  }

  ghost predicate SomeUnstored(payouts: seq<Payout>, id: nat) {
    exists k: nat :: IsUnstored(payouts, k, id)
  }

  lemma {:induction false} UnstoredExactly(payouts: seq<Payout>, id: nat)
    requires R.Rewarding(Blocks(payouts))
    ensures Unstored(payouts, id) >= 0.0
    ensures Unstored(payouts, id) > 0.0 <==> SomeUnstored(payouts, id)
  {
    if payouts != [] {
      var n := |payouts| - 1;
      assert Blocks(payouts[..n]) == Blocks(payouts)[..n];
      assert Blocks(payouts)[n] == payouts[n].t;
      UnstoredExactly(payouts[..n], id);
      if k: nat :| IsUnstored(payouts, k, id) {
        assert k < n ==> IsUnstored(payouts[..n], k, id);
      }
      if k: nat :| IsUnstored(payouts[..n], k, id) {
        assert IsUnstored(payouts, k, id);
      }
      assert Unstored(payouts, id) ==
        Unstored(payouts[..n], id) + if IsUnstored(payouts, n, id) then R.RewardAt(payouts[n].t, id) else 0.0;
    }
  }

  /**
   * In careful runs from agreement, database and engine agree about what is written if and only if the rewards of
   * every block that paid the miner have been stored; one that was lost is missed for good.
   */
  lemma {:induction false} AgreesExactly(s: System, evs: seq<Event>, id: nat, cfg: W.Config)
    requires Ready(s) && Known(s.e, id) && s.e.rewardBase > 0.0 && s.payouts == [] && s.writes == [] &&
              Drift(s, id) == 0.0
    requires Careful(s, evs, id, cfg)
    ensures var t := Run(s, evs, cfg);
            Drift(t, id) == 0.0 <==> !SomeUnstored(t.payouts, id)
  {
    var t := Run(s, evs, cfg);
    CarefulRun(s, evs, id, cfg);
    DriftLaw(s, evs, id, cfg);
    RunRewarding(s, evs, cfg);
    UnstoredExactly(t.payouts, id);
  }

  lemma {:induction false} LastEvent(s: System, evs: seq<Event>, ev: Event, cfg: W.Config)
    requires Ready(s)
    ensures Run(s, evs + [ev], cfg) == Next(Run(s, evs, cfg), ev, cfg)
  {
    assert (evs + [ev])[..|evs|] == evs;
  }

  /**
   * When a write of a careful run ends, the database holds the engine's balance less the rewards that are not stored:
   * a lost reward, which the rollback has taken from the engine's balance, is taken from the database too.
   */
  lemma {:induction false} WriteLeaves(s: System, evs: seq<Event>, k: nat, id: nat, cfg: W.Config)
    requires Ready(s) && Known(s.e, id) && s.payouts == [] && s.writes == [] && Drift(s, id) == 0.0
    requires Careful(s, evs, id, cfg) && IsOpen(Run(s, evs, cfg), k, id)
    ensures var t := Run(s, evs + [EndWrite(k)], cfg);
            && id < |t.e.miners|
            && W.BalanceOf(t.wallet, t.e.miners[id].user) == t.e.miners[id].balance - Unstored(t.payouts, id)
  {
    var before := Run(s, evs, cfg);
    CarefulRun(s, evs, id, cfg);
    DriftLaw(s, evs, id, cfg);
    LastEvent(s, evs, EndWrite(k), cfg);
    EndWriteLaw(before, k, id, cfg);
    EndKeepsWrites(before, k, id, cfg);
    NextReady(before, EndWrite(k), cfg);
  }

  // ---- Runs that leave the two apart ----

  /** User 1 has the one miner: its balance in the database, in memory, and the part that counts as written. */
  ghost predicate One(s: System, db: real, balance: real, persisted: real) {
    && Ready(s) && |s.e.miners| == 1 && s.e.miners[0].user == 1 && W.BalanceOf(s.wallet, 1) == db
    && s.e.miners[0].balance == balance && s.e.miners[0].persisted == persisted
  }

  lemma {:induction false} BoostOne(s: System, now: int, db: real, balance: real, persisted: real, cfg: W.Config)
    requires One(s, db, balance, persisted) && balance >= M.BOOST_COST
    ensures var t := Next(s, Act(M.OpBoost(0, now)), cfg);
            One(t, db, balance - M.BOOST_COST, persisted) && t.writes == s.writes && t.wallet == s.wallet
  {
    NextReady(s, Act(M.OpBoost(0, now)), cfg);
  }

  lemma {:induction false} BeginOne(s: System, db: real, balance: real, persisted: real, cfg: W.Config)
    requires One(s, db, balance, persisted) && M.Worthwhile(balance - persisted)
    ensures var t := Next(s, BeginWrite(0), cfg);
            One(t, db, balance, persisted) && t.writes == s.writes + [Write(0, balance - persisted, false)]
  {
    NextReady(s, BeginWrite(0), cfg);
  }

  lemma {:induction false} EndOne(s: System, k: nat, db: real, balance: real, persisted: real, cfg: W.Config)
    requires One(s, db, balance, persisted) && IsOpen(s, k, 0)
    ensures var t := Next(s, EndWrite(k), cfg);
            One(t, db + s.writes[k].delta, balance, balance) && t.writes == s.writes[k := s.writes[k].(ended := true)]
  {
    NextReady(s, EndWrite(k), cfg);
  }

  /** Ten in the database and in memory. */
  function TenAndTen(): System {
    var join := M.OpJoin(1, Some(M.Profile(1, 0.0, 10.0, 0.0, true)));
    System(W.Wallet([], map[1 := 10.0]), M.Step(M.Started(1.0, 1, 0), join), [], [])
  }

  lemma {:induction false} TenIsOne(s: System)
    requires s == TenAndTen()
    ensures One(s, 10.0, 10.0, 10.0) && s.writes == []
  {
    T.StepKeepsBijection(M.Started(1.0, 1, 0), M.OpJoin(1, Some(M.Profile(1, 0.0, 10.0, 0.0, true))));
  }

  /** The database does not know of the boost and lets a withdrawal pass that the balance in memory does not cover. */
  lemma {:induction false} WithdrawalPasses(s: System, cfg: W.Config)
    requires s == TenAndTen()
    ensures var before := Next(s, Act(M.OpBoost(0, 0)), cfg);
            && Ready(s) && Ready(before) && W.Answer(before.wallet, W.Withdraw(1, 10.0), cfg) == W.Done
            && One(Next(before, Request(W.Withdraw(1, 10.0)), cfg), 0.0, -0.35, 0.0)
  {
    TenIsOne(s);
    BoostOne(s, 0, 10.0, 10.0, 10.0, cfg);
    var before := Next(s, Act(M.OpBoost(0, 0)), cfg);
    WT.DeltaIsChange(before.wallet, W.Withdraw(1, 10.0), 1, cfg);
    PassedTo(before.e, Some((1, -10.0)), 0);
    NextReady(before, Request(W.Withdraw(1, 10.0)), cfg);
  }

  /** A credit made in the database alone: no payout, no write and no join, and five less in memory. */
  lemma {:induction false} DirectCreditApart(s: System, cfg: W.Config)
    requires s == TenAndTen()
    ensures Ready(s)
    ensures var t := Run(s, [Direct(1, 5.0)], cfg);
            One(t, 15.0, 10.0, 10.0) && Drift(t, 0) == -5.0 && t.payouts == [] && t.writes == []
  {
    TenIsOne(s);
    LastEvent(s, [], Direct(1, 5.0), cfg);
    assert [] + [Direct(1, 5.0)] == [Direct(1, 5.0)];
    NextReady(s, Direct(1, 5.0), cfg);
  }

  lemma {:induction false} BoostAndWrite(s: System, cfg: W.Config)
    requires s == TenAndTen()
    ensures Ready(s)
    ensures var t := Run(s, [Act(M.OpBoost(0, 0))] + [BeginWrite(0)], cfg);
            One(t, 10.0, 9.65, 10.0) && t.writes == [Write(0, -0.35, false)]
  {
    var boost := Act(M.OpBoost(0, 0));
    TenIsOne(s);
    LastEvent(s, [], boost, cfg);
    assert [] + [boost] == [boost];
    LastEvent(s, [boost], BeginWrite(0), cfg);
    BoostOne(s, 0, 10.0, 10.0, 10.0, cfg);
    BeginOne(Run(s, [boost], cfg), 10.0, 9.65, 10.0, cfg);
  }

  lemma {:induction false} EndBoth(s: System, evs: seq<Event>, cfg: W.Config)
    requires Ready(s) && One(Run(s, evs, cfg), 10.0, 9.65, 10.0)
    requires Run(s, evs, cfg).writes == [Write(0, -0.35, false), Write(0, -0.35, false)]
    ensures One(Run(s, evs + [EndWrite(0)] + [EndWrite(1)], cfg), 9.3, 9.65, 9.65)
  {
    var t := Run(s, evs, cfg);
    LastEvent(s, evs, EndWrite(0), cfg);
    LastEvent(s, evs + [EndWrite(0)], EndWrite(1), cfg);
    EndOne(t, 0, 10.0, 9.65, 10.0, cfg);
    EndOne(Next(t, EndWrite(0), cfg), 1, 9.65, 9.65, 9.65, cfg);
  }

  /** Two writes of one boost that overlap: the database pays for it twice. */
  lemma {:induction false} OverlappingWrites(s: System, cfg: W.Config)
    requires s == TenAndTen()
    ensures Ready(s)
    ensures One(Run(s, [Act(M.OpBoost(0, 0))] + [BeginWrite(0)] + [BeginWrite(0)] + [EndWrite(0)] + [EndWrite(1)], cfg),
                9.3, 9.65, 9.65)
  {
    var front := [Act(M.OpBoost(0, 0))] + [BeginWrite(0)];
    BoostAndWrite(s, cfg);
    LastEvent(s, front, BeginWrite(0), cfg);
    BeginOne(Run(s, front, cfg), 10.0, 9.65, 10.0, cfg);
    EndBoth(s, front + [BeginWrite(0)], cfg);
  }

  lemma {:induction false} AnswerLostOne(s: System, k: nat, db: real, balance: real, persisted: real, cfg: W.Config)
    requires One(s, db, balance, persisted) && IsOpen(s, k, 0)
    ensures var t := Next(s, FailWrite(k, true), cfg);
            One(t, db + s.writes[k].delta, balance, persisted) && t.writes == s.writes[k := s.writes[k].(ended := true)]
  {
    NextReady(s, FailWrite(k, true), cfg);
  }

  lemma {:induction false} WriteAgain(s: System, evs: seq<Event>, cfg: W.Config)
    requires Ready(s) && One(Run(s, evs, cfg), 9.65, 9.65, 10.0) && |Run(s, evs, cfg).writes| == 1
    ensures One(Run(s, evs + [BeginWrite(0)] + [EndWrite(1)], cfg), 9.3, 9.65, 9.65)
  {
    LastEvent(s, evs, BeginWrite(0), cfg);
    LastEvent(s, evs + [BeginWrite(0)], EndWrite(1), cfg);
    BeginOne(Run(s, evs, cfg), 9.65, 9.65, 10.0, cfg);
    EndOne(Run(s, evs + [BeginWrite(0)], cfg), 1, 9.65, 9.65, 10.0, cfg);
  }

  /** A write goes through and its answer is lost; the next write takes the boost's price once more. */
  lemma {:induction false} LostAnswerWritesTwice(s: System, cfg: W.Config)
    requires s == TenAndTen()
    ensures Ready(s)
    ensures var evs := [Act(M.OpBoost(0, 0))] + [BeginWrite(0)] + [FailWrite(0, true)] + [BeginWrite(0)] +
              [EndWrite(1)];
            One(Run(s, evs, cfg), 9.3, 9.65, 9.65)
  {
    var front := [Act(M.OpBoost(0, 0))] + [BeginWrite(0)];
    BoostAndWrite(s, cfg);
    LastEvent(s, front, FailWrite(0, true), cfg);
    AnswerLostOne(Run(s, front, cfg), 0, 10.0, 9.65, 10.0, cfg);
    WriteAgain(s, front + [FailWrite(0, true)], cfg);
  }

  /** A boost bought while a write is under way counts as written with it, and the database never pays for it. */
  lemma {:induction false} BoostDuringWrite(s: System, cfg: W.Config)
    requires s == TenAndTen()
    ensures Ready(s)
    ensures One(Run(s, [Act(M.OpBoost(0, 0))] + [BeginWrite(0)] + [Act(M.OpBoost(0, 1))] + [EndWrite(0)], cfg), 9.65,
                9.3, 9.3)
  {
    var front := [Act(M.OpBoost(0, 0))] + [BeginWrite(0)];
    BoostAndWrite(s, cfg);
    LastEvent(s, front, Act(M.OpBoost(0, 1)), cfg);
    LastEvent(s, front + [Act(M.OpBoost(0, 1))], EndWrite(0), cfg);
    var b := Run(s, front, cfg);
    BoostOne(b, 1, 10.0, 9.65, 10.0, cfg);
    EndOne(Next(b, Act(M.OpBoost(0, 1)), cfg), 0, 10.0, 9.3, 10.0, cfg);
  }

  /** The one miner `m` was paid 1.0 on top of `balance`, and the payout is not stored. */
  ghost predicate OnePaid(s: System, m: M.Miner, balance: real, lifetime: real) {
    && Ready(s) && R.Lone(s.e, m) && m.user == 1 && s.writes == []
    && s.payouts == [Payout([Some(R.Snapshot(balance, lifetime, 1.0))], Waiting)]
  }

  lemma {:induction false} PaidOnce(s: System, m: M.Miner, now: int, cfg: W.Config)
    requires Ready(s) && R.Lone(s.e, m) && m.user == 1 && s.e.nextAt <= now && s.payouts == [] && s.writes == []
    ensures var t := Next(s, Act(M.OpTick(now, now, now)), cfg);
            OnePaid(t, M.Paid(m, 1.0), m.balance, m.lifetime) && t.wallet == s.wallet
  {
    R.LoneBlock(s.e, m, now);
    NextReady(s, Act(M.OpTick(now, now, now)), cfg);
  }

  lemma {:induction false} LostOnce(s: System, m: M.Miner, balance: real, lifetime: real, cfg: W.Config)
    requires OnePaid(s, m, balance, lifetime)
    ensures var t := Next(s, Lose(0), cfg);
            One(t, W.BalanceOf(s.wallet, 1), balance, m.persisted) && t.writes == []
  {
    R.LoneRollback(s.e, m, balance, lifetime);
    NextReady(s, Lose(0), cfg);
  }

  lemma {:induction false} FourEvents(s: System, a: Event, b: Event, c: Event, d: Event, cfg: W.Config)
    requires Ready(s)
    ensures Ready(Next(s, a, cfg)) && Ready(Next(Next(s, a, cfg), b, cfg)) &&
              Ready(Next(Next(Next(s, a, cfg), b, cfg), c, cfg))
    ensures Run(s, [a] + [b] + [c] + [d], cfg) == Next(Next(Next(Next(s, a, cfg), b, cfg), c, cfg), d, cfg)
  {
    LastEvent(s, [], a, cfg);
    assert [] + [a] == [a];
    LastEvent(s, [a], b, cfg);
    LastEvent(s, [a] + [b], c, cfg);
    LastEvent(s, [a] + [b] + [c], d, cfg);
    NextReady(s, a, cfg);
    NextReady(Next(s, a, cfg), b, cfg);
    NextReady(Next(Next(s, a, cfg), b, cfg), c, cfg);
  }

  lemma {:induction false} LostAndWritten(s: System, m: M.Miner, balance: real, lifetime: real, cfg: W.Config)
    requires OnePaid(s, m, balance, lifetime) && M.Worthwhile(balance - m.persisted)
    ensures var lost := Next(s, Lose(0), cfg);
            && Ready(lost) && Ready(Next(lost, BeginWrite(0), cfg))
            && One(Next(Next(lost, BeginWrite(0), cfg), EndWrite(0), cfg),
                   W.BalanceOf(s.wallet, 1) + balance - m.persisted, balance, balance)
  {
    var db, lost := W.BalanceOf(s.wallet, 1), Next(s, Lose(0), cfg);
    LostOnce(s, m, balance, lifetime, cfg);
    BeginOne(lost, db, balance, m.persisted, cfg);
    EndOne(Next(lost, BeginWrite(0), cfg), 0, db, balance, m.persisted, cfg);
  }

  /**
   * From agreement, the one miner is paid, the payout is lost and rolled back, and the next write takes the reward
   * from the database, which never had it.
   */
  lemma {:induction false} LostPayoutCharged(s: System, m: M.Miner, now: int, cfg: W.Config)
    requires Ready(s) && R.Lone(s.e, m) && m.user == 1 && s.e.nextAt <= now && s.payouts == [] && s.writes == []
    requires m.balance == m.persisted == W.BalanceOf(s.wallet, 1)
    ensures var t := Run(s, [Act(M.OpTick(now, now, now))] + [Lose(0)] + [BeginWrite(0)] + [EndWrite(0)], cfg);
            One(t, W.BalanceOf(s.wallet, 1) - 1.0, m.balance, m.balance)
  {
    var tick := Act(M.OpTick(now, now, now));
    FourEvents(s, tick, Lose(0), BeginWrite(0), EndWrite(0), cfg);
    PaidOnce(s, m, now, cfg);
    LostAndWritten(Next(s, tick, cfg), M.Paid(m, 1.0), m.balance, m.lifetime, cfg);
  }

  /** A state in which that can happen, with nothing on either side. */
  lemma {:induction false} NothingOnEitherSide(s: System)
    requires s == System(W.Wallet([], map[1 := 0.0]), R.WithLone(), [], [])
    ensures Ready(s) && R.Lone(s.e, R.LoneMiner()) && R.LoneMiner().user == 1 && s.e.nextAt <= 1
    ensures R.LoneMiner().balance == R.LoneMiner().persisted == W.BalanceOf(s.wallet, 1) == 0.0
  {
    T.StepKeepsBijection(M.Started(1.0, 1, 0), T.JoinWith(1, 1.0));
  }
}
