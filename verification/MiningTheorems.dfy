/** Rounds pay by work, minting agrees with lifetimes, blocks and minting are bounded by time. */
module MiningTheorems {
  import opened Tables
  import opened MiningModel

  // ---- Sums ----

  lemma {:induction false} SumZeros(n: nat)
    ensures Sum(Zeros(n)) == 0.0
  {
    if n > 0 {
      assert Zeros(n)[..n - 1] == Zeros(n - 1);
      SumZeros(n - 1);
    }
  }

  /** The part of a sum that comes from positive terms. */
  function Positive(xs: seq<real>): real {
    if xs == [] then 0.0
    else Positive(xs[..|xs| - 1]) + if xs[|xs| - 1] > 0.0 then xs[|xs| - 1] else 0.0
  }

  ghost predicate NoneNegative(xs: seq<real>) {
    forall i | 0 <= i < |xs| :: xs[i] >= 0.0
  }

  lemma {:induction false} PositiveAtLeast(xs: seq<real>)
    ensures Positive(xs) >= Sum(xs)
    ensures Positive(xs) == Sum(xs) <==> NoneNegative(xs)
  {
    if xs != [] {
      var front := xs[..|xs| - 1];
      PositiveAtLeast(front);
      if NoneNegative(front) && xs[|xs| - 1] >= 0.0 {
        assert NoneNegative(xs);
      }
      if NoneNegative(xs) {
        forall i | 0 <= i < |front| ensures front[i] >= 0.0 {
          assert front[i] == xs[i];
        }
      }
    }
  }

  // ---- One distribution ----

  lemma {:induction false} PaySplits(reward: real, p: real, work: real, total: real)
    requires total > 0.0
    ensures reward * (p / total) + Pay(reward, work, total) == reward * ((p + if work > 0.0 then work else 0.0) / total)
  {
    var w := if work > 0.0 then work else 0.0;
    assert (p + w) / total == p / total + w / total;
    assert Pay(reward, work, total) == reward * (w / total);
  }

  /** Pays with the total fixed, so that it can be summed over a prefix. */
  function PaysOf(reward: real, work: seq<real>, total: real): seq<real>
    requires total > 0.0
  {
    seq(|work|, i requires 0 <= i < |work| => Pay(reward, work[i], total))
  }

  lemma {:induction false} PaysOfSum(reward: real, work: seq<real>, total: real)
    requires total > 0.0
    ensures Sum(PaysOf(reward, work, total)) == reward * (Positive(work) / total)
  {
    if work != [] {
      var n := |work| - 1;
      PaysOfSum(reward, work[..n], total);
      assert PaysOf(reward, work, total)[..n] == PaysOf(reward, work[..n], total);
      PaySplits(reward, Positive(work[..n]), work[n], total);
    }
  }

  lemma {:induction false} Quotient(reward: real, p: real, total: real)
    requires total > 0.0
    ensures p == total ==> reward * (p / total) == reward
    ensures p > total && reward > 0.0 ==> reward * (p / total) > reward
  {
    if p > total && reward > 0.0 { assert p / total > 1.0; }
  }

  /**
   * A block pays nothing when there is no work in total. Otherwise it pays exactly the reward if and
   * only if no miner's work is negative; with negative work it pays too much.
   */
  lemma {:induction false} BlockPays(reward: real, work: seq<real>)
    requires reward > 0.0
    ensures Sum(work) <= 0.0 ==> Sum(Pays(reward, work)) == 0.0
    ensures Sum(work) > 0.0 ==> Sum(Pays(reward, work)) >= reward
    ensures Sum(work) > 0.0 ==> (Sum(Pays(reward, work)) == reward <==> NoneNegative(work))
  {
    var total := Sum(work);
    if total > 0.0 {
      assert Pays(reward, work) == PaysOf(reward, work, total);
      PaysOfSum(reward, work, total);
      PositiveAtLeast(work);
      Quotient(reward, Positive(work), total);
    } else {
      assert Pays(reward, work) == Zeros(|work|);
      SumZeros(|work|);
    }
  }

  function Lifetimes(ms: seq<Miner>): real {
    if ms == [] then 0.0 else Lifetimes(ms[..|ms| - 1]) + ms[|ms| - 1].lifetime
  }

  lemma {:induction false} PaidAllSums(ms: seq<Miner>, pays: seq<real>)
    requires |pays| == |ms|
    ensures Lifetimes(PaidAll(ms, pays)) == Lifetimes(ms) + Sum(pays)
  {
    if ms != [] {
      var n := |ms| - 1;
      PaidAllSums(ms[..n], pays[..n]);
      assert PaidAll(ms, pays)[..n] == PaidAll(ms[..n], pays[..n]);
    }
  }

  lemma {:induction false} SameLifetimes(ms: seq<Miner>, ns: seq<Miner>)
    requires |ms| == |ns| && forall i | 0 <= i < |ms| :: ms[i].lifetime == ns[i].lifetime
    ensures Lifetimes(ms) == Lifetimes(ns)
  {
    if ms != [] { SameLifetimes(ms[..|ms| - 1], ns[..|ns| - 1]); }
  }

  // ---- A whole round ----

  ghost predicate NoWork(e: Engine) {
    forall i | 0 <= i < |e.work| :: e.work[i] == 0.0
  }

  /** No tick of `ops` closes a block. */
  ghost predicate Quiet(e: Engine, ops: seq<Op>)
    requires Shaped(e)
  {
    ops != [] ==>
      var front, op := ops[..|ops| - 1], ops[|ops| - 1];
      Quiet(e, front) && (op.OpTick? ==> !Closes(Exec(e, front), op.now))
  }

  /** A miner's rate in one step: its POL-mode hash rate if the step is a tick and the miner is there. */
  function TickRate(e: Engine, op: Op, id: nat): real {
    if op.OpTick? && id < |e.miners| then PolRate(e.miners[id], op.now) else 0.0
  }

  /** A miner's POL-mode hash rate summed over the ticks of `ops`. */
  function Earned(e: Engine, ops: seq<Op>, id: nat): real
    requires Shaped(e)
  {
    if ops == [] then 0.0
    else
      var front := ops[..|ops| - 1];
      Earned(e, front, id) + TickRate(Exec(e, front), ops[|ops| - 1], id)
  }

  function EarnedByAll(e: Engine, ops: seq<Op>, n: nat): real
    requires Shaped(e)
  {
    if n == 0 then 0.0 else EarnedByAll(e, ops, n - 1) + Earned(e, ops, n - 1)
  }

  lemma {:induction false} StepWork(e: Engine, op: Op, id: nat)
    requires Shaped(e) && (op.OpTick? ==> !Closes(e, op.now))
    ensures |Step(e, op).miners| >= |e.miners|
    ensures id < |Step(e, op).miners| ==>
              Step(e, op).work[id] == (if id < |e.miners| then e.work[id] else 0.0) + TickRate(e, op, id)
  {
  }

  lemma {:induction false} NotYetThere(e: Engine, ops: seq<Op>, id: nat)
    requires Shaped(e) && Quiet(e, ops) && id >= |Exec(e, ops).miners|
    ensures Earned(e, ops, id) == 0.0
    decreases |ops|
  {
    if ops != [] {
      var front := ops[..|ops| - 1];
      StepWork(Exec(e, front), ops[|ops| - 1], id);
      NotYetThere(e, front, id);
    }
  }

  lemma {:induction false} WorkIsEarned(e: Engine, ops: seq<Op>, id: nat)
    requires Shaped(e) && NoWork(e) && Quiet(e, ops) && id < |Exec(e, ops).miners|
    ensures Exec(e, ops).work[id] == Earned(e, ops, id)
    decreases |ops|
  {
    if ops != [] {
      var front := ops[..|ops| - 1];
      StepWork(Exec(e, front), ops[|ops| - 1], id);
      if id < |Exec(e, front).miners| {
        WorkIsEarned(e, front, id);
      } else {
        NotYetThere(e, front, id);
      }
    }
  }

  lemma {:induction false} SumOfEarned(e: Engine, ops: seq<Op>, work: seq<real>)
    requires Shaped(e) && forall i | 0 <= i < |work| :: work[i] == Earned(e, ops, i)
    ensures Sum(work) == EarnedByAll(e, ops, |work|)
  {
    if work != [] { SumOfEarned(e, ops, work[..|work| - 1]); }
  }

  lemma {:induction false} AccruedIsEarned(e: Engine, ops: seq<Op>, tick: Op)
    requires Shaped(e) && NoWork(e) && Quiet(e, ops) && tick.OpTick?
    ensures var a := Accrued(Exec(e, ops), tick.now);
            && (forall i: nat | i < |a.work| :: a.work[i] == Earned(e, ops + [tick], i))
            && Sum(a.work) == EarnedByAll(e, ops + [tick], |a.work|)
  {
    var all, mid := ops + [tick], Exec(e, ops);
    var a := Accrued(mid, tick.now);
    assert all[..|ops|] == ops;
    forall i: nat | i < |a.work| ensures a.work[i] == Earned(e, all, i) {
      WorkIsEarned(e, ops, i);
    }
    SumOfEarned(e, all, a.work);
  }

  /** A miner's part of the block reward: nothing without work. */
  function RoundPay(reward: real, mine: real, total: real): real {
    if total <= 0.0 || mine <= 0.0 then 0.0 else reward * (mine / total)
  }

  lemma {:induction false} DistributePays(a: Engine, stamp: int, closed: int, id: nat)
    requires |a.work| == |a.miners| && id < |a.miners|
    ensures var d := Distribute(a, stamp, closed);
            && |d.miners| == |a.miners| && NoWork(d)
            && d.miners[id] == Paid(a.miners[id], RoundPay(a.rewardBase, a.work[id], Sum(a.work)))
  {
    assert Pays(a.rewardBase, a.work)[id] == RoundPay(a.rewardBase, a.work[id], Sum(a.work));
  }

  lemma {:induction false} ClosingTick(e: Engine, tick: Op, id: nat)
    requires Shaped(e) && tick.OpTick? && Closes(e, tick.now) && id < |e.miners|
    ensures var t, a := Step(e, tick), Accrued(e, tick.now);
            && |t.miners| == |e.miners| && NoWork(t)
            && t.miners[id] == Paid(Expired(e.miners[id], tick.now), RoundPay(e.rewardBase, a.work[id], Sum(a.work)))
  {
    DistributePays(Accrued(e, tick.now), tick.stamp, tick.closed, id);
  }

  lemma {:induction false} LastStep(e: Engine, ops: seq<Op>, op: Op)
    requires Shaped(e)
    ensures Exec(e, ops + [op]) == Step(Exec(e, ops), op)
  {
    assert (ops + [op])[..|ops|] == ops;
  }

  /**
   * The tick that ends a round pays each miner the block reward times its POL-mode hash rate summed
   * over the round's ticks, divided by the same sum over all miners; then the next round starts empty.
   */
  lemma {:induction false} RoundPays(e: Engine, ops: seq<Op>, tick: Op, id: nat)
    requires Shaped(e) && NoWork(e) && Quiet(e, ops)
    requires tick.OpTick? && Closes(Exec(e, ops), tick.now) && id < |Exec(e, ops).miners|
    ensures var mid, end, all := Exec(e, ops), Exec(e, ops + [tick]), ops + [tick];
            var pay := RoundPay(mid.rewardBase, Earned(e, all, id), EarnedByAll(e, all, |mid.miners|));
            && |end.miners| == |mid.miners| && NoWork(end)
            && end.miners[id] == Paid(Expired(mid.miners[id], tick.now), pay)
  {
    LastStep(e, ops, tick);
    AccruedIsEarned(e, ops, tick);
    ClosingTick(Exec(e, ops), tick, id);
  }

  // ---- Minting against lifetimes ----

  function BroughtBy(e: Engine, op: Op): real {
    if op.OpJoin? && Found(e, op.user).None? then NewMiner(op.user, op.profile).lifetime else 0.0
  }

  /** Lifetime totals that new miners bring from their profiles. */
  function Brought(e: Engine, ops: seq<Op>): real
    requires Shaped(e)
  {
    if ops == [] then 0.0
    else Brought(e, ops[..|ops| - 1]) + BroughtBy(Exec(e, ops[..|ops| - 1]), ops[|ops| - 1])
  }

  lemma {:induction false} TickLifetimes(e: Engine, now: int, stamp: int, closed: int)
    requires Shaped(e)
    ensures var t := Tick(e, now, stamp, closed);
            Lifetimes(t.miners) - t.minted == Lifetimes(e.miners) - e.minted
  {
    var a := Accrued(e, now);
    SameLifetimes(e.miners, a.miners);
    if Closes(a, now) { PaidAllSums(a.miners, Pays(a.rewardBase, a.work)); }
  }

  lemma {:induction false} JoinLifetimes(e: Engine, user: nat, profile: Option<Profile>)
    requires Shaped(e)
    ensures Lifetimes(Join(e, user, profile).miners) == Lifetimes(e.miners) + BroughtBy(e, OpJoin(user, profile))
  {
    var r := Join(e, user, profile);
    if Found(e, user).None? {
      assert r.miners[..|e.miners|] == e.miners;
    } else {
      SameLifetimes(e.miners, r.miners);
    }
  }

  lemma {:induction false} OtherLifetimes(e: Engine, op: Op)
    requires Shaped(e) && !op.OpTick? && !op.OpJoin?
    ensures Lifetimes(Step(e, op).miners) == Lifetimes(e.miners) && Step(e, op).minted == e.minted
  {
    SameLifetimes(e.miners, Step(e, op).miners);
  }

  lemma {:induction false} StepLifetimes(e: Engine, op: Op)
    requires Shaped(e)
    ensures Lifetimes(Step(e, op).miners) - Step(e, op).minted == Lifetimes(e.miners) - e.minted + BroughtBy(e, op)
  {
    match op
    case OpTick(now, stamp, closed) => TickLifetimes(e, now, stamp, closed);
    case OpJoin(user, profile) => JoinLifetimes(e, user, profile);
    case _ => OtherLifetimes(e, op);
  }

  /** Over any run, what was minted is exactly what the miners' lifetime totals gained. */
  lemma {:induction false} MintedIsLifetimes(e: Engine, ops: seq<Op>)
    requires Shaped(e)
    ensures Exec(e, ops).minted - e.minted
              == Lifetimes(Exec(e, ops).miners) - Lifetimes(e.miners) - Brought(e, ops)
    decreases |ops|
  {
    if ops != [] {
      MintedIsLifetimes(e, ops[..|ops| - 1]);
      StepLifetimes(Exec(e, ops[..|ops| - 1]), ops[|ops| - 1]);
    }
  }

  // ---- The two maps ----

  /** A nonzero user id finds exactly the one miner that has it. */
  ghost predicate Bijection(e: Engine) {
    && (forall u | u in e.byUser :: e.byUser[u] < |e.miners| && e.miners[e.byUser[u]].user == u)
    && (forall i | 0 <= i < |e.miners| && e.miners[i].user != 0 ::
          e.miners[i].user in e.byUser && e.byUser[e.miners[i].user] == i)
  }

  // ---- History ----

  /** The latest blocks first, numbered down from just below the current block. */
  ghost predicate HistoryOk(e: Engine, first: int) {
    && e.number >= first
    && |e.history| == (if e.number - first < HISTORY then e.number - first else HISTORY)
    && forall i | 0 <= i < |e.history| :: e.history[i].number == e.number - 1 - i
  }

  // ---- The clock ----

  /** The last time read when `ops` have run. */
  function Clock(start: int, ops: seq<Op>): int {
    if ops == [] then start
    else match ops[|ops| - 1]
      case OpTick(now, stamp, closed) => closed
      case OpBoost(id, now) => now
      case _ => Clock(start, ops[..|ops| - 1])
  }

  ghost predicate NonDecreasing(start: int, ops: seq<Op>) {
    ops != [] ==>
      var front := ops[..|ops| - 1];
      && NonDecreasing(start, front)
      && match ops[|ops| - 1]
         case OpTick(now, stamp, closed) => Clock(start, front) <= now <= stamp <= closed
         case OpBoost(id, now) => Clock(start, front) <= now
         case _ => true
  }

  /** Whole block durations fit between `start` and the current block's start. */
  ghost predicate TimeOk(e: Engine, first: int, start: int) {
    e.nextAt == e.startedAt + e.duration && (e.number - first) * e.duration <= e.startedAt - start
  }

  // ---- Non-negative rates ----

  ghost predicate MinerSound(m: Miner) {
    m.base >= 0.0 && m.boost >= 0.0
  }

  ghost predicate Sound(e: Engine) {
    e.rewardBase >= 0.0 && NoneNegative(e.work) && forall i | 0 <= i < |e.miners| :: MinerSound(e.miners[i])
  }

  ghost predicate SoundProfiles(ops: seq<Op>) {
    forall i | 0 <= i < |ops| && ops[i].OpJoin? && ops[i].profile.Some? :: ops[i].profile.value.base >= 0.0
  }

  /** `n` times the reward. */
  function Times(reward: real, n: int): real {
    reward * n as real
  }

  ghost predicate MintOk(e: Engine, first: int) {
    Sound(e) && e.minted <= Times(e.rewardBase, e.number - first)
  }

  // ---- Runs ----

  /** An engine whose rounds start now; `first` is the block it will mine first. */
  ghost predicate Fresh(e: Engine) {
    && e.miners == [] && e.work == [] && e.byUser == map[] && e.history == [] && e.minted == 0.0
    && e.duration > 0 && e.nextAt == e.startedAt + e.duration
  }

  lemma {:induction false} StepKeepsBijection(e: Engine, op: Op)
    requires Shaped(e) && Bijection(e)
    ensures Bijection(Step(e, op))
  {
    if op.OpJoin? && Found(e, op.user).None? {
      JoinKeepsBijection(e, op.user, op.profile);
    } else {
      SameUsers(e, op);
    }
  }

  lemma {:induction false} SameUsers(e: Engine, op: Op)
    requires Shaped(e) && (op.OpJoin? ==> Found(e, op.user).Some?)
    ensures var r := Step(e, op);
            && r.byUser == e.byUser && |r.miners| == |e.miners|
            && forall i | 0 <= i < |e.miners| :: r.miners[i].user == e.miners[i].user
  {
  }

  lemma {:induction false} JoinKeepsBijection(e: Engine, user: nat, profile: Option<Profile>)
    requires Shaped(e) && Bijection(e) && Found(e, user).None?
    ensures Bijection(Join(e, user, profile))
  {
  }

  lemma {:induction false} StepKeepsHistory(e: Engine, op: Op, first: int)
    requires Shaped(e) && HistoryOk(e, first)
    ensures HistoryOk(Step(e, op), first)
    ensures Step(e, op).rewardBase == e.rewardBase && Step(e, op).duration == e.duration
  {
  }

  /** In every run the two maps stay a bijection and the history holds the last blocks, at most 12. */
  lemma {:induction false} RunKeepsMaps(e: Engine, ops: seq<Op>)
    requires Fresh(e)
    ensures Bijection(Exec(e, ops)) && HistoryOk(Exec(e, ops), e.number)
    ensures Exec(e, ops).rewardBase == e.rewardBase && Exec(e, ops).duration == e.duration
    decreases |ops|
  {
    if ops != [] {
      RunKeepsMaps(e, ops[..|ops| - 1]);
      StepKeepsBijection(Exec(e, ops[..|ops| - 1]), ops[|ops| - 1]);
      StepKeepsHistory(Exec(e, ops[..|ops| - 1]), ops[|ops| - 1], e.number);
    }
  }

  lemma {:induction false} OneMore(n: int, d: int)
    ensures (n + 1) * d == n * d + d
  {
  }

  lemma {:induction false} StepKeepsTime(e: Engine, op: Op, first: int, start: int, now: int)
    requires Shaped(e) && TimeOk(e, first, start) && e.startedAt <= now
    requires op.OpTick? ==> now <= op.now <= op.closed
    ensures TimeOk(Step(e, op), first, start)
    ensures Step(e, op).startedAt <= if op.OpTick? then op.closed else now
  {
    OneMore(e.number - first, e.duration);
  }

  lemma {:induction false} TimeKeeps(e: Engine, ops: seq<Op>)
    requires Fresh(e) && NonDecreasing(e.startedAt, ops)
    ensures TimeOk(Exec(e, ops), e.number, e.startedAt) && Exec(e, ops).startedAt <= Clock(e.startedAt, ops)
    decreases |ops|
  {
    if ops != [] {
      TimeKeeps(e, ops[..|ops| - 1]);
      StepKeepsTime(Exec(e, ops[..|ops| - 1]), ops[|ops| - 1], e.number, e.startedAt,
                    Clock(e.startedAt, ops[..|ops| - 1]));
    }
  }

  lemma {:induction false} ProductMonotone(m: int, n: int, d: int)
    requires m <= n && d > 0
    ensures m * d <= n * d
  {
  }

  lemma {:induction false} AtMostQuotient(n: int, d: int, span: int)
    requires d > 0 && n * d <= span
    ensures n <= span / d
  {
    var q := span / d;
    assert span < q * d + d;
    if n >= q + 1 { ProductMonotone(q + 1, n, d); }
    OneMore(q, d);
  }

  /** With a clock that never goes back, a block takes its full duration. */
  lemma {:induction false} BlocksByTime(e: Engine, ops: seq<Op>)
    requires Fresh(e) && NonDecreasing(e.startedAt, ops)
    ensures Exec(e, ops).number - e.number <= (Clock(e.startedAt, ops) - e.startedAt) / e.duration
  {
    TimeKeeps(e, ops);
    RunKeepsMaps(e, ops);
    var span := Clock(e.startedAt, ops) - e.startedAt;
    AtMostQuotient(Exec(e, ops).number - e.number, e.duration, span);
  }

  lemma {:induction false} PaysExactly(reward: real, work: seq<real>)
    requires reward >= 0.0 && NoneNegative(work)
    ensures Sum(Pays(reward, work)) == if Sum(work) > 0.0 then reward else 0.0
  {
    if reward > 0.0 {
      BlockPays(reward, work);
    } else {
      assert Pays(reward, work) == Zeros(|work|);
      SumZeros(|work|);
    }
  }

  lemma {:induction false} OneMoreReward(n: int, reward: real)
    ensures Times(reward, n + 1) == Times(reward, n) + reward
  {
  }

  lemma {:induction false} AccruedSound(e: Engine, now: int)
    requires Shaped(e) && Sound(e)
    ensures Sound(Accrued(e, now))
  {
    forall i | 0 <= i < |e.miners| ensures PolRate(e.miners[i], now) >= 0.0 {
      assert MinerSound(e.miners[i]);
    }
    forall i | 0 <= i < |e.miners| ensures MinerSound(Expired(e.miners[i], now)) {
      assert MinerSound(e.miners[i]);
    }
  }

  lemma {:induction false} DistributeMints(e: Engine, stamp: int, closed: int, first: int)
    requires |e.work| == |e.miners| && MintOk(e, first)
    ensures MintOk(Distribute(e, stamp, closed), first)
  {
    PaysExactly(e.rewardBase, e.work);
    OneMoreReward(e.number - first, e.rewardBase);
    forall i | 0 <= i < |e.miners| ensures MinerSound(Distribute(e, stamp, closed).miners[i]) {
      assert MinerSound(e.miners[i]);
    }
  }

  lemma {:induction false} StepMints(e: Engine, op: Op, first: int)
    requires Shaped(e) && MintOk(e, first)
    requires op.OpJoin? && op.profile.Some? ==> op.profile.value.base >= 0.0
    ensures MintOk(Step(e, op), first)
  {
    if op.OpTick? {
      var a := Accrued(e, op.now);
      AccruedSound(e, op.now);
      if Closes(a, op.now) { DistributeMints(a, op.stamp, op.closed, first); }
    }
  }

  lemma {:induction false} MintKeeps(e: Engine, ops: seq<Op>)
    requires Fresh(e) && e.rewardBase >= 0.0 && SoundProfiles(ops)
    ensures MintOk(Exec(e, ops), e.number)
    decreases |ops|
  {
    if ops != [] {
      MintKeeps(e, ops[..|ops| - 1]);
      StepMints(Exec(e, ops[..|ops| - 1]), ops[|ops| - 1], e.number);
    }
  }

  lemma {:induction false} WithinTime(minted: real, reward: real, m: int, n: int)
    requires reward >= 0.0 && m <= n && minted <= Times(reward, m)
    ensures minted <= Times(reward, n)
  {
    assert reward * m as real <= reward * n as real;
  }

  lemma {:induction false} MintedByBlocks(e: Engine, ops: seq<Op>)
    requires Fresh(e) && e.rewardBase >= 0.0 && SoundProfiles(ops)
    ensures Exec(e, ops).minted <= Times(e.rewardBase, Exec(e, ops).number - e.number)
  {
    MintKeeps(e, ops);
    RunKeepsMaps(e, ops);
  }

  /** No more than one reward is minted per whole block duration. */
  lemma {:induction false} MintedByTime(e: Engine, ops: seq<Op>)
    requires Fresh(e) && e.rewardBase >= 0.0 && NonDecreasing(e.startedAt, ops) && SoundProfiles(ops)
    ensures Exec(e, ops).minted <= Times(e.rewardBase, (Clock(e.startedAt, ops) - e.startedAt) / e.duration)
  {
    var blocks := (Clock(e.startedAt, ops) - e.startedAt) / e.duration;
    MintedByBlocks(e, ops);
    BlocksByTime(e, ops);
    WithinTime(Exec(e, ops).minted, e.rewardBase, Exec(e, ops).number - e.number, blocks);
  }

  // ---- What runs mint ----

  /** Closing ticks of the run that found work. */
  function PaidBlocks(e: Engine, ops: seq<Op>): nat
    requires Shaped(e)
  {
    if ops == [] then 0
    else
      var front, op := ops[..|ops| - 1], ops[|ops| - 1];
      PaidBlocks(e, front) + if MintsReward(Exec(e, front), op) then 1 else 0
  }

  lemma {:induction false} LastPaid(e: Engine, ops: seq<Op>)
    requires Shaped(e) && ops != []
    ensures var mid, op := Exec(e, ops[..|ops| - 1]), ops[|ops| - 1];
            && Exec(e, ops) == Step(mid, op)
            && PaidBlocks(e, ops) == PaidBlocks(e, ops[..|ops| - 1]) + if MintsReward(mid, op) then 1 else 0
  {
  }

  predicate MintsReward(e: Engine, op: Op)
    requires Shaped(e)
  {
    op.OpTick? && Closes(e, op.now) && Sum(Accrued(e, op.now).work) > 0.0
  }

  /** Nothing negative among the work of a block that the step closes with work. */
  ghost predicate PlainBlock(e: Engine, op: Op)
    requires Shaped(e)
  {
    MintsReward(e, op) ==> NoneNegative(Accrued(e, op.now).work)
  }

  ghost predicate PlainBlocks(e: Engine, ops: seq<Op>)
    requires Shaped(e)
  {
    ops != [] ==>
      var front := ops[..|ops| - 1];
      PlainBlocks(e, front) && PlainBlock(Exec(e, front), ops[|ops| - 1])
  }

  /** A step mints the block reward if it closes a block with work, more if some work is negative, else nothing. */
  lemma {:induction false} StepMintsExactly(e: Engine, op: Op)
    requires Shaped(e) && e.rewardBase >= 0.0
    ensures var least := e.minted + if MintsReward(e, op) then e.rewardBase else 0.0;
            && (PlainBlock(e, op) ==> Step(e, op).minted == least)
            && (!PlainBlock(e, op) && e.rewardBase > 0.0 ==> Step(e, op).minted > least)
  {
    if op.OpTick? && Closes(e, op.now) {
      var work := Accrued(e, op.now).work;
      if Sum(work) <= 0.0 {
        assert Pays(e.rewardBase, work) == Zeros(|work|);
        SumZeros(|work|);
      } else if NoneNegative(work) {
        PaysExactly(e.rewardBase, work);
      } else if e.rewardBase > 0.0 {
        BlockPays(e.rewardBase, work);
      }
    }
  }

  lemma {:induction false} SoundAfter(e: Engine, ops: seq<Op>)
    requires Fresh(e) && e.rewardBase >= 0.0 && SoundProfiles(ops)
    ensures Sound(Exec(e, ops)) && Exec(e, ops).rewardBase == e.rewardBase
  {
    MintKeeps(e, ops);
    RunKeepsMaps(e, ops);
  }

  /** `n` rewards. */
  function Rewards(n: nat, reward: real): real {
    if n == 0 then 0.0 else Rewards(n - 1, reward) + reward
  }

  lemma {:induction false} RewardsTimes(n: nat, reward: real)
    ensures Rewards(n, reward) == Times(reward, n)
  {
    if n > 0 {
      RewardsTimes(n - 1, reward);
      OneMoreReward(n - 1, reward);
    }
  }

  lemma {:induction false} StepRewards(e: Engine, op: Op, start: real, n: nat, reward: real)
    requires Shaped(e) && e.rewardBase == reward >= 0.0 && e.minted >= start + Rewards(n, reward)
    ensures var least := start + Rewards(n + if MintsReward(e, op) then 1 else 0, reward);
            && (e.minted == start + Rewards(n, reward) && PlainBlock(e, op) ==> Step(e, op).minted == least)
            && (reward > 0.0 ==> Step(e, op).minted >= least)
            && (reward > 0.0 && Step(e, op).minted == least ==>
                  e.minted == start + Rewards(n, reward) && PlainBlock(e, op))
  {
    StepMintsExactly(e, op);
  }

  lemma {:induction false} PlainMints(e: Engine, ops: seq<Op>)
    requires Shaped(e) && e.rewardBase >= 0.0 && PlainBlocks(e, ops)
    ensures Exec(e, ops).minted == e.minted + Rewards(PaidBlocks(e, ops), e.rewardBase)
    decreases |ops|
  {
    if ops != [] {
      var front := ops[..|ops| - 1];
      PlainMints(e, front);
      RewardStays(e, front);
      StepRewards(Exec(e, front), ops[|ops| - 1], e.minted, PaidBlocks(e, front), e.rewardBase);
      LastPaid(e, ops);
    }
  }

  lemma {:induction false} OnlyPlainMints(e: Engine, ops: seq<Op>)
    requires Shaped(e) && e.rewardBase > 0.0
    ensures var least := e.minted + Rewards(PaidBlocks(e, ops), e.rewardBase);
            Exec(e, ops).minted >= least && (Exec(e, ops).minted == least ==> PlainBlocks(e, ops))
    decreases |ops|
  {
    if ops != [] {
      var front := ops[..|ops| - 1];
      OnlyPlainMints(e, front);
      RewardStays(e, front);
      StepRewards(Exec(e, front), ops[|ops| - 1], e.minted, PaidBlocks(e, front), e.rewardBase);
      LastPaid(e, ops);
    }
  }

  /**
   * A run mints at least the block reward for every block it closes with work, and exactly that if and only if none of
   * these blocks had negative work in it.
   */
  lemma {:induction false} MintedExactly(e: Engine, ops: seq<Op>)
    requires Shaped(e) && e.rewardBase > 0.0
    ensures Exec(e, ops).minted >= e.minted + Times(e.rewardBase, PaidBlocks(e, ops))
    ensures Exec(e, ops).minted == e.minted + Times(e.rewardBase, PaidBlocks(e, ops)) <==> PlainBlocks(e, ops)
  {
    OnlyPlainMints(e, ops);
    if PlainBlocks(e, ops) { PlainMints(e, ops); }
    RewardsTimes(PaidBlocks(e, ops), e.rewardBase);
  }

  lemma {:induction false} SoundIsPlain(e: Engine, ops: seq<Op>)
    requires Fresh(e) && e.rewardBase >= 0.0 && SoundProfiles(ops)
    ensures PlainBlocks(e, ops)
    decreases |ops|
  {
    if ops != [] {
      var front, op := ops[..|ops| - 1], ops[|ops| - 1];
      SoundIsPlain(e, front);
      SoundAfter(e, front);
      if op.OpTick? { AccruedSound(Exec(e, front), op.now); }
    }
  }

  /** With sound profiles a run has minted exactly the block reward times the blocks it closed with work. */
  lemma {:induction false} MintedIsPaidBlocks(e: Engine, ops: seq<Op>)
    requires Fresh(e) && e.rewardBase >= 0.0 && SoundProfiles(ops)
    ensures Exec(e, ops).minted == Times(e.rewardBase, PaidBlocks(e, ops))
  {
    SoundIsPlain(e, ops);
    PlainMints(e, ops);
    RewardsTimes(PaidBlocks(e, ops), e.rewardBase);
  }

  // ---- A run with negative work ----

  /** Two units of work less one: the first miner is paid twice the reward. */
  lemma {:induction false} BlockOverpays()
    ensures Sum([2.0, -1.0]) == 1.0 && Sum(Pays(1.0, [2.0, -1.0])) == 2.0
  {
    var work := [2.0, -1.0];
    assert work[..1] == [2.0] && [2.0][..0] == [];
    assert Sum([2.0]) == 2.0;
    var pays := Pays(1.0, work);
    assert pays == [2.0, 0.0];
    assert pays[..1] == [2.0];
  }

  lemma {:induction false} ThreeSteps(e: Engine, a: Op, b: Op, c: Op)
    requires Shaped(e)
    ensures Exec(e, [a, b, c]) == Step(Step(Step(e, a), b), c)
  {
    LastStep(e, [], a);
    LastStep(e, [a], b);
    LastStep(e, [a, b], c);
    assert [] + [a] == [a] && [a] + [b] == [a, b] && [a, b] + [c] == [a, b, c];
  }

  /** A miner of user `user` with one rig and the base hash rate `base`. */
  function JoinWith(user: nat, base: real): Op {
    OpJoin(user, Some(Profile(1, base, 0.0, 0.0, true)))
  }

  lemma {:induction false} TwoJoin(e: Engine)
    requires e == Started(1.0, 1, 0)
    ensures var b := Step(Step(e, JoinWith(1, 2.0)), JoinWith(2, -1.0));
            && b.miners == [NewMiner(1, JoinWith(1, 2.0).profile), NewMiner(2, JoinWith(2, -1.0).profile)]
            && b.work == [0.0, 0.0] && b.nextAt == 1 && b.rewardBase == 1.0 && b.number == 1 && b.minted == 0.0
  {
  }

  ghost predicate OneBlockTwoRewards(e: Engine, ops: seq<Op>)
    requires Shaped(e)
  {
    var t := Exec(e, ops);
    t.number == e.number + 1 && t.minted == e.minted + 2.0 * e.rewardBase
  }

  /** Nothing in the engine keeps a negative hash rate out: this run mints two rewards in its one block. */
  lemma {:induction false} RunOverpays(e: Engine, ops: seq<Op>)
    requires e == Started(1.0, 1, 0) && ops == [JoinWith(1, 2.0), JoinWith(2, -1.0), OpTick(1, 1, 1)]
    ensures Fresh(e) && OneBlockTwoRewards(e, ops)
  {
    ThreeSteps(e, JoinWith(1, 2.0), JoinWith(2, -1.0), OpTick(1, 1, 1));
    TwoJoin(e);
    var b := Step(Step(e, JoinWith(1, 2.0)), JoinWith(2, -1.0));
    assert Accrued(b, 1).work == [2.0, -1.0];
    BlockOverpays();
  }

  // ---- What the history shows ----

  lemma {:induction false} RewardsShown(ms: seq<Miner>, work: seq<real>, pays: seq<real>, id: nat)
    requires |ms| == |work| == |pays| && id < |ms|
    requires forall j | 0 <= j < |ms| && j != id :: ms[j].user != ms[id].user
    ensures var shown := UserRewards(ms, work, pays);
            && (ms[id].user in shown <==> work[id] > 0.0)
            && (work[id] > 0.0 ==> shown[ms[id].user] == pays[id])
  {
    var n := |ms| - 1;
    if id < n {
      RewardsShown(ms[..n], work[..n], pays[..n], id);
    } else {
      OthersShown(ms[..n], work[..n], pays[..n], ms[id].user);
    }
  }

  lemma {:induction false} OthersShown(ms: seq<Miner>, work: seq<real>, pays: seq<real>, user: nat)
    requires |ms| == |work| == |pays| && forall j | 0 <= j < |ms| :: ms[j].user != user
    ensures user !in UserRewards(ms, work, pays)
  {
    if ms != [] {
      var n := |ms| - 1;
      OthersShown(ms[..n], work[..n], pays[..n], user);
    }
  }

  /** The newest block shows a user with an id exactly what that user's one miner was paid. */
  lemma {:induction false} HistoryShowsPay(e: Engine, tick: Op, id: nat)
    requires Shaped(e) && Bijection(e) && tick.OpTick? && Closes(e, tick.now)
    requires id < |e.miners| && e.miners[id].user != 0
    ensures var r := Step(e, tick);
            && |r.history| > 0 && r.history[0].number == e.number
            && var gain := r.miners[id].lifetime - e.miners[id].lifetime;
            var shown := r.history[0].userRewards;
            gain == if e.miners[id].user in shown then shown[e.miners[id].user] else 0.0
  {
    var a := Accrued(e, tick.now);
    var pays := Pays(a.rewardBase, a.work);
    if Sum(a.work) > 0.0 { RewardsShown(a.miners, a.work, pays, id); }
  }

  // ---- Boosts, rigs and balances ----

  /** A paid boost is worth a quarter more until the first tick 30 seconds after it, and nothing from then on. */
  lemma {:induction false} BoostLasts(m: Miner, bought: int, now: int)
    requires m.active && m.balance >= 0.35 && bought + 30_000 > 0
    ensures Boosted(m, bought).balance == m.balance - 0.35
    ensures Rate(Expired(Boosted(m, bought), now)) == m.base * if now < bought + 30_000 then 1.25 else 1.0
  {
  }

  /** A tick of the run at or after `end`. */
  ghost predicate TickFrom(ops: seq<Op>, end: int) {
    exists i :: 0 <= i < |ops| && ops[i].OpTick? && ops[i].now >= end
  }

  ghost predicate NoBoostOf(ops: seq<Op>, id: nat) {
    forall i | 0 <= i < |ops| :: !(ops[i].OpBoost? && ops[i].id == id)
  }

  lemma {:induction false} TickFromLast(ops: seq<Op>, end: int)
    requires ops != []
    ensures var last := ops[|ops| - 1];
            TickFrom(ops, end) <==> TickFrom(ops[..|ops| - 1], end) || (last.OpTick? && last.now >= end)
  {
    var front := ops[..|ops| - 1];
    if i :| 0 <= i < |front| && front[i].OpTick? && front[i].now >= end {
      assert ops[i] == front[i];
    }
    if i :| 0 <= i < |ops| && ops[i].OpTick? && ops[i].now >= end {
      assert i < |front| ==> front[i] == ops[i];
    }
  }

  /** The boost of the miner: on until `end`, or off. */
  ghost predicate BoostIs(m: Miner, on: bool, end: int) {
    if on then m.boost == 1.25 && m.boostEndsAt == end else m.boost == 1.0 && m.boostEndsAt == 0
  }

  lemma {:induction false} StepBoost(e: Engine, op: Op, id: nat, on: bool, end: int)
    requires Shaped(e) && id < |e.miners| && BoostIs(e.miners[id], on, end) && end > 0
    requires !(op.OpBoost? && op.id == id)
    ensures id < |Step(e, op).miners|
    ensures BoostIs(Step(e, op).miners[id], on && !(op.OpTick? && op.now >= end), end)
  {
  }

  /**
   * Over any run without another boost of the miner, its boost stays on exactly as long as no tick has come 30
   * seconds after it was bought, whatever else joins, pays or upgrades in between.
   */
  lemma {:induction false} BoostOverRun(e: Engine, id: nat, bought: int, ops: seq<Op>)
    requires Shaped(e) && id < |e.miners| && e.miners[id].balance >= 0.35 && bought + 30_000 > 0 && NoBoostOf(ops, id)
    ensures var t := Exec(Step(e, OpBoost(id, bought)), ops);
            id < |t.miners| && BoostIs(t.miners[id], !TickFrom(ops, bought + 30_000), bought + 30_000)
    decreases |ops|
  {
    if ops != [] {
      var front, last := ops[..|ops| - 1], ops[|ops| - 1];
      forall i | 0 <= i < |front| ensures !(front[i].OpBoost? && front[i].id == id) {
        assert front[i] == ops[i];
      }
      BoostOverRun(e, id, bought, front);
      TickFromLast(ops, bought + 30_000);
      StepBoost(Exec(Step(e, OpBoost(id, bought)), front), last, id, !TickFrom(front, bought + 30_000),
                bought + 30_000);
    }
  }

  function Upgrades(m: Miner, n: nat): Miner {
    if n == 0 then m else Upgraded(Upgrades(m, n - 1))
  }

  /** Price of the next `n` rigs of a miner that has `rigs`. */
  function RigsPrice(rigs: int, n: nat): real {
    2.0 * n as real + 0.8 * (n * (rigs - 1)) as real + 0.4 * (n * n - n) as real
  }

  lemma {:induction false} NextRigPrice(rigs: int, n: nat)
    requires n > 0
    ensures RigsPrice(rigs, n) == RigsPrice(rigs, n - 1) + 2.0 + 0.8 * (rigs + n - 2) as real
  {
    var before := n - 1;
    assert n * (rigs - 1) == before * (rigs - 1) + (rigs - 1);
    assert n * n - n == before * before - before + 2 * before;
  }

  lemma {:induction false} RigsPriceGrows(rigs: int, m: nat, n: nat)
    requires rigs >= 1 && m <= n
    ensures RigsPrice(rigs, m) <= RigsPrice(rigs, n)
    decreases n
  {
    if m < n {
      NextRigPrice(rigs, n);
      RigsPriceGrows(rigs, m, n - 1);
    }
  }

  /** A miner that can pay for `n` rigs gets them all, for the sum of their rising prices. */
  lemma {:induction false} UpgradesCost(m: Miner, n: nat)
    requires m.rigs >= 1 && m.balance >= RigsPrice(m.rigs, n)
    ensures var u := Upgrades(m, n);
            u.rigs == m.rigs + n && u.base == m.base + 18.0 * n as real && u.balance == m.balance - RigsPrice(m.rigs, n)
  {
    if n > 0 {
      RigsPriceGrows(m.rigs, n - 1, n);
      UpgradesCost(m, n - 1);
      NextRigPrice(m.rigs, n);
    }
  }

  ghost predicate Solvent(e: Engine) {
    forall i | 0 <= i < |e.miners| :: e.miners[i].balance >= 0.0
  }

  /**
   * The step takes no more from a miner than the engine holds for it: a debit made in the database leaves its
   * balance here at zero or above, and a new miner does not bring a negative one.
   */
  predicate Covered(e: Engine, op: Op)
    requires Shaped(e)
  {
    match op
    case OpDelta(user, delta) => Found(e, user).Some? ==> e.miners[Found(e, user).value].balance + delta >= 0.0
    case OpJoin(user, profile) => Found(e, user).None? && profile.Some? ==> profile.value.balance >= 0.0
    case _ => true
  }

  predicate AlwaysCovered(e: Engine, ops: seq<Op>)
    requires Shaped(e)
  {
    ops != [] ==>
      var front := ops[..|ops| - 1];
      AlwaysCovered(e, front) && Covered(Exec(e, front), ops[|ops| - 1])
  }

  ghost predicate AlwaysSolvent(e: Engine, ops: seq<Op>)
    requires Shaped(e)
  {
    Solvent(Exec(e, ops)) && (ops != [] ==> AlwaysSolvent(e, ops[..|ops| - 1]))
  }

  lemma {:induction false} PayNotNegative(reward: real, work: real, total: real)
    requires reward >= 0.0 && total > 0.0
    ensures Pay(reward, work, total) >= 0.0
  {
    if work > 0.0 { assert work / total > 0.0; }
  }

  lemma {:induction false} DistributeSolvent(e: Engine, stamp: int, closed: int)
    requires |e.work| == |e.miners| && Solvent(e) && e.rewardBase >= 0.0
    ensures Solvent(Distribute(e, stamp, closed))
  {
    var pays := Pays(e.rewardBase, e.work);
    forall i | 0 <= i < |pays| ensures pays[i] >= 0.0 {
      if Sum(e.work) > 0.0 { PayNotNegative(e.rewardBase, e.work[i], Sum(e.work)); }
    }
  }

  lemma {:induction false} TickSolvent(e: Engine, now: int, stamp: int, closed: int)
    requires Shaped(e) && Solvent(e) && e.rewardBase >= 0.0
    ensures Solvent(Tick(e, now, stamp, closed))
  {
    var a := Accrued(e, now);
    assert Solvent(a);
    if Closes(a, now) { DistributeSolvent(a, stamp, closed); }
  }

  lemma {:induction false} StepSolvent(e: Engine, op: Op)
    requires Shaped(e) && Solvent(e) && e.rewardBase >= 0.0
    ensures Solvent(Step(e, op)) <==> Covered(e, op)
    ensures Step(e, op).rewardBase == e.rewardBase
  {
    match op
    case OpTick(now, stamp, closed) => TickSolvent(e, now, stamp, closed);
    case OpDelta(user, delta) =>
      if Found(e, user).Some? {
        assert Step(e, op).miners[Found(e, user).value] == Adjusted(e.miners[Found(e, user).value], delta);
      }
    case OpJoin(user, profile) =>
      if Found(e, user).None? {
        assert Step(e, op).miners[|e.miners|] == NewMiner(user, profile);
      }
    case _ =>
  }

  lemma {:induction false} SolventNow(e: Engine, ops: seq<Op>)
    requires Shaped(e) && AlwaysSolvent(e, ops)
    ensures Solvent(Exec(e, ops))
  {
  }

  lemma {:induction false} RewardStays(e: Engine, ops: seq<Op>)
    requires Shaped(e)
    ensures Exec(e, ops).rewardBase == e.rewardBase
    decreases |ops|
  {
    if ops != [] { RewardStays(e, ops[..|ops| - 1]); }
  }

  /**
   * Boosts, rigs and payouts never bring a balance below zero: balances stay at zero or above throughout a run if
   * and only if every debit made in the database is covered by the engine's balance at that moment.
   */
  lemma {:induction false} RunSolvent(e: Engine, ops: seq<Op>)
    requires Shaped(e) && Solvent(e) && e.rewardBase >= 0.0
    ensures AlwaysSolvent(e, ops) <==> AlwaysCovered(e, ops)
    decreases |ops|
  {
    if ops != [] {
      var front := ops[..|ops| - 1];
      RunSolvent(e, front);
      RewardStays(e, front);
      if AlwaysSolvent(e, front) {
        SolventNow(e, front);
        StepSolvent(Exec(e, front), ops[|ops| - 1]);
      }
    }
  }

  /** Ten in the database and here, a boost that the database does not know of, and a withdrawal of ten. */
  lemma {:induction false} WithdrawalOverdraws(e: Engine, ops: seq<Op>)
    requires e == Started(1.0, 1, 0)
    requires ops == [OpJoin(1, Some(Profile(1, 0.0, 10.0, 0.0, true))), OpBoost(0, 0), OpDelta(1, -10.0)]
    ensures Solvent(e) && var t := Exec(e, ops); |t.miners| == 1 && t.miners[0].balance == -0.35
  {
    ThreeSteps(e, ops[0], ops[1], ops[2]);
    assert Step(e, ops[0]).miners == [NewMiner(1, ops[0].profile)];
  }
}
