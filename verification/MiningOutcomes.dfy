/** What each step of the mining engine does to miners, rounds and blocks, and what a round pays for. */
module MiningOutcomes {
  import opened Tables
  import opened MiningModel
  import T = MiningTheorems
  import R = MiningRollback

  // ---- What a tick counts ----

  /** A boost that has an end is over from that end on. */
  predicate BoostOver(m: Miner, now: int) {
    0 < m.boostEndsAt && m.boostEndsAt <= now
  }

  function AfterTick(m: Miner, now: int): Miner {
    if BoostOver(m, now) then m.(boost := 1.0, boostEndsAt := 0) else m
  }

  /** An active miner's base hash rate, times its boost while that runs. */
  function RateNow(m: Miner, now: int): real {
    if !m.active then 0.0 else if BoostOver(m, now) then m.base else m.base * m.boost
  }

  /** Only in POL mode does it count as work. */
  function WorkNow(m: Miner, now: int): real {
    if m.pol then RateNow(m, now) else 0.0
  }

  lemma {:induction false} WorkIsNow(m: Miner, now: int)
    ensures PolRate(m, now) == WorkNow(m, now) && Rate(Expired(m, now)) == RateNow(m, now)
    ensures Expired(m, now) == AfterTick(m, now)
  {
  }

  /** A sum from the first on. */
  function Total(xs: seq<real>): real {
    if xs == [] then 0.0 else xs[0] + Total(xs[1..])
  }

  lemma {:induction false} TotalIsSum(xs: seq<real>)
    ensures Total(xs) == Sum(xs)
  {
    if |xs| == 1 {
      assert xs[..0] == [] && xs[1..] == [];
    } else if |xs| > 1 {
      var n := |xs| - 1;
      TotalIsSum(xs[1..]);
      TotalIsSum(xs[1..][..n - 1]);
      TotalIsSum(xs[..n]);
      assert xs[..n][1..] == xs[1..][..n - 1];
    }
  }

  function RatesNow(ms: seq<Miner>, now: int): seq<real> {
    seq(|ms|, i requires 0 <= i < |ms| => RateNow(ms[i], now))
  }

  function WorkAfter(e: Engine, now: int): seq<real>
    requires |e.work| == |e.miners|
  {
    seq(|e.miners|, i requires 0 <= i < |e.miners| => e.work[i] + WorkNow(e.miners[i], now))
  }

  function Positives(xs: seq<real>): set<nat> {
    set i: nat | i < |xs| && xs[i] > 0.0
  }

  lemma {:induction false} PositivesCounted(xs: seq<real>)
    ensures CountPositive(xs) == |Positives(xs)|
  {
    if xs == [] {
      assert Positives(xs) == {};
    } else {
      var n := |xs| - 1;
      PositivesCounted(xs[..n]);
      assert Positives(xs) == Positives(xs[..n]) + if xs[n] > 0.0 then {n} else {};
    }
  }

  lemma {:induction false} AccruedIs(e: Engine, now: int)
    requires Shaped(e)
    ensures var a := Accrued(e, now);
            && |a.miners| == |e.miners|
            && (forall i | 0 <= i < |e.miners| :: a.miners[i] == AfterTick(e.miners[i], now))
            && a.work == WorkAfter(e, now) && a.rate == Total(RatesNow(e.miners, now))
            && a.activeMiners == |Positives(RatesNow(e.miners, now))|
  {
    forall i | 0 <= i < |e.miners| ensures Rate(Expired(e.miners[i], now)) == RateNow(e.miners[i], now) {
      WorkIsNow(e.miners[i], now);
    }
    assert Rates(e.miners, now) == RatesNow(e.miners, now);
    TotalIsSum(RatesNow(e.miners, now));
    PositivesCounted(RatesNow(e.miners, now));
  }

  // ---- Ticks ----

  /** Percent of the block's time that has passed, between 0 and 100. */
  ghost predicate ShowsProgress(progress: real, startedAt: int, duration: int, now: int)
    requires duration > 0
  {
    && (now <= startedAt ==> progress == 0.0)
    && (now >= startedAt + duration ==> progress == 100.0)
    && (startedAt <= now <= startedAt + duration ==> progress * duration as real == 100.0 * (now - startedAt) as real)
  }

  lemma {:induction false} ProgressShows(e: Engine, now: int)
    requires e.duration > 0
    ensures ShowsProgress(Progress(e, now), e.startedAt, e.duration, now)
  {
    var d := e.duration as real;
    if now <= e.startedAt {
      assert 0.0 / d == 0.0;
    } else {
      var elapsed := (now - e.startedAt) as real;
      Quotient(elapsed, d);
    }
  }

  lemma {:induction false} Quotient(a: real, d: real)
    requires a >= 0.0 && d > 0.0
    ensures a / d * 100.0 * d == 100.0 * a
    ensures a >= d ==> a / d * 100.0 >= 100.0
    ensures a <= d ==> a / d * 100.0 <= 100.0
  {
    assert a / d * d == a;
  }

  /** The tick leaves the round open: boosts end, work grows, and the engine's figures are those of this tick. */
  lemma {:induction false} OpenTick(e: Engine, now: int, stamp: int, closed: int)
    requires Shaped(e) && now < e.nextAt
    ensures var t := Step(e, OpTick(now, stamp, closed));
            && |t.miners| == |e.miners|
            && (forall i | 0 <= i < |e.miners| :: t.miners[i] == AfterTick(e.miners[i], now))
            && t.work == WorkAfter(e, now) && t.rate == Total(RatesNow(e.miners, now))
            && t.activeMiners == |Positives(RatesNow(e.miners, now))|
            && t.number == e.number && t.startedAt == e.startedAt && t.nextAt == e.nextAt && t.minted == e.minted
            && t.lastReward == e.lastReward && t.byUser == e.byUser && t.history == e.history
            && ShowsProgress(t.progress, e.startedAt, e.duration, now)
  {
    AccruedIs(e, now);
    ProgressShows(Accrued(e, now), now);
  }

  /** What the closing block pays for this much work. */
  function PayFor(reward: real, work: real, total: real): real {
    if total > 0.0 && work > 0.0 then reward * (work / total) else 0.0
  }

  function Earning(m: Miner, pay: real): Miner {
    m.(balance := m.balance + pay, persisted := m.persisted + pay, lifetime := m.lifetime + pay)
  }

  ghost predicate PaidByWork(e: Engine, t: Engine, now: int)
    requires |e.work| == |e.miners|
  {
    var work := WorkAfter(e, now);
    && |t.miners| == |e.miners|
    && forall i | 0 <= i < |e.miners| ::
         t.miners[i] == Earning(AfterTick(e.miners[i], now), PayFor(e.rewardBase, work[i], Total(work)))
  }

  /** The block in front, then the blocks before it, twelve in all at most. */
  ghost predicate Filed(before: seq<Block>, after: seq<Block>, b: Block) {
    after == ([b] + before)[..if |before| < 12 then |before| + 1 else 12]
  }

  lemma {:induction false} PaysByWork(reward: real, work: seq<real>)
    ensures forall i | 0 <= i < |work| :: Pays(reward, work)[i] == PayFor(reward, work[i], Total(work))
    ensures Sum(work) == Total(work)
  {
    TotalIsSum(work);
  }

  lemma {:induction false} ClosingPays(e: Engine, now: int, stamp: int, closed: int)
    requires Shaped(e) && now >= e.nextAt
    ensures PaidByWork(e, Step(e, OpTick(now, stamp, closed)), now)
  {
    var a := Accrued(e, now);
    AccruedIs(e, now);
    PaysByWork(a.rewardBase, a.work);
  }

  /** The tick that closes a block pays each miner by its share of the work and starts the next round empty. */
  lemma {:induction false} ClosingTick(e: Engine, now: int, stamp: int, closed: int)
    requires Shaped(e) && now >= e.nextAt
    ensures var t := Step(e, OpTick(now, stamp, closed));
            var paid := if Total(WorkAfter(e, now)) > 0.0 then e.rewardBase else 0.0;
            && PaidByWork(e, t, now)
            && |t.work| == |e.miners| && (forall i | 0 <= i < |e.miners| :: t.work[i] == 0.0)
            && t.number == e.number + 1 && t.startedAt == closed && t.nextAt == closed + e.duration
            && t.lastReward == paid && t.byUser == e.byUser
            && t.rate == Total(RatesNow(e.miners, now)) && t.activeMiners == |Positives(RatesNow(e.miners, now))|
            && |t.history| > 0 && t.history[0].number == e.number && t.history[0].reward == paid
            && t.history[0].minerCount == |Positives(RatesNow(e.miners, now))| && t.history[0].timestamp == stamp
            && Filed(e.history, t.history, t.history[0]) && ShowsProgress(t.progress, closed, e.duration, now)
  {
    var a := Accrued(e, now);
    ClosingPays(e, now, stamp, closed);
    AccruedIs(e, now);
    TotalIsSum(a.work);
    ProgressShows(Distribute(a, stamp, closed), now);
  }

  /** The last of the user's miners that worked. */
  ghost predicate LastWorking(ms: seq<Miner>, work: seq<real>, user: nat, i: nat)
    requires |ms| == |work|
  {
    && i < |ms| && ms[i].user == user && work[i] > 0.0
    && forall j | i < j < |ms| && ms[j].user == user :: work[j] <= 0.0
  }

  lemma {:induction false} ShownExactly(ms: seq<Miner>, work: seq<real>, pays: seq<real>, user: nat)
    requires |ms| == |work| == |pays|
    ensures var shown := UserRewards(ms, work, pays);
            && (user in shown ==> exists i: nat :: LastWorking(ms, work, user, i))
            && (forall i: nat | LastWorking(ms, work, user, i) :: user in shown && shown[user] == pays[i])
  {
    if ms != [] {
      var n := |ms| - 1;
      ShownExactly(ms[..n], work[..n], pays[..n], user);
      if i: nat :| LastWorking(ms[..n], work[..n], user, i) {
        assert LastWorking(ms, work, user, if ms[n].user == user && work[n] > 0.0 then n else i);
      }
      if ms[n].user == user && work[n] > 0.0 { assert LastWorking(ms, work, user, n); }
      forall i: nat | LastWorking(ms, work, user, i) && i < n ensures LastWorking(ms[..n], work[..n], user, i) {
      }
    }
  }

  lemma {:induction false} SameUsersShown(ms: seq<Miner>, others: seq<Miner>, work: seq<real>, user: nat, i: nat)
    requires |ms| == |others| == |work| && forall k | 0 <= k < |ms| :: ms[k].user == others[k].user
    ensures LastWorking(ms, work, user, i) <==> LastWorking(others, work, user, i)
  {
  }

  lemma {:induction false} ShownAfter(ms: seq<Miner>, others: seq<Miner>, work: seq<real>, pays: seq<real>, user: nat)
    requires |ms| == |others| == |work| == |pays| && forall k | 0 <= k < |ms| :: ms[k].user == others[k].user
    ensures var shown := UserRewards(others, work, pays);
            && (user in shown ==> exists i: nat :: LastWorking(ms, work, user, i))
            && (forall i: nat | LastWorking(ms, work, user, i) :: user in shown && shown[user] == pays[i])
  {
    ShownExactly(others, work, pays, user);
    forall i: nat ensures LastWorking(ms, work, user, i) <==> LastWorking(others, work, user, i) {
      SameUsersShown(ms, others, work, user, i);
    }
  }

  /** The block shows, for exactly the users with a miner that worked, what that miner is paid. */
  lemma {:induction false} BlockShows(e: Engine, now: int, stamp: int, closed: int, user: nat)
    requires Shaped(e) && now >= e.nextAt
    ensures var t, work := Step(e, OpTick(now, stamp, closed)), WorkAfter(e, now);
            && |t.history| > 0
            && var shown, some := t.history[0].userRewards, Total(work) > 0.0;
            && (user in shown ==> some && exists i: nat :: LastWorking(e.miners, work, user, i))
            && (forall i: nat | some && LastWorking(e.miners, work, user, i) ::
                  user in shown && shown[user] == PayFor(e.rewardBase, work[i], Total(work)))
  {
    var a, work := Accrued(e, now), WorkAfter(e, now);
    var pays := Pays(e.rewardBase, work);
    AccruedIs(e, now);
    ShownAfter(e.miners, a.miners, work, pays, user);
    PaysByWork(e.rewardBase, work);
    assert Distribute(a, stamp, closed).history[0].userRewards ==
      if Sum(work) > 0.0 then UserRewards(a.miners, work, pays) else map[];
  }

  // ---- Rounds ----

  function Ticks(ops: seq<Op>): nat {
    if ops == [] then 0 else Ticks(ops[..|ops| - 1]) + if ops[|ops| - 1].OpTick? then 1 else 0
  }

  /** What the ticks of `ops` count as work of miner `id`. */
  function Worked(e: Engine, ops: seq<Op>, id: nat): real
    requires Shaped(e)
  {
    if ops == [] then 0.0
    else
      var mid, op := Exec(e, ops[..|ops| - 1]), ops[|ops| - 1];
      Worked(e, ops[..|ops| - 1], id)
      + if op.OpTick? && id < |mid.miners| then WorkNow(mid.miners[id], op.now) else 0.0
  }

  function WorkedByAll(e: Engine, ops: seq<Op>, n: nat): real
    requires Shaped(e)
  {
    if n == 0 then 0.0 else WorkedByAll(e, ops, n - 1) + Worked(e, ops, n - 1)
  }

  lemma {:induction false} WorkedIsEarned(e: Engine, ops: seq<Op>, id: nat)
    requires Shaped(e)
    ensures T.Earned(e, ops, id) == Worked(e, ops, id)
    decreases |ops|
  {
    if ops != [] {
      var mid, op := Exec(e, ops[..|ops| - 1]), ops[|ops| - 1];
      WorkedIsEarned(e, ops[..|ops| - 1], id);
      if op.OpTick? && id < |mid.miners| { WorkIsNow(mid.miners[id], op.now); }
    }
  }

  lemma {:induction false} AllWorked(e: Engine, ops: seq<Op>, n: nat)
    requires Shaped(e)
    ensures T.EarnedByAll(e, ops, n) == WorkedByAll(e, ops, n)
  {
    if n > 0 {
      AllWorked(e, ops, n - 1);
      WorkedIsEarned(e, ops, n - 1);
    }
  }

  /** A round that starts without work, and the tick that closes it. */
  ghost predicate IsRound(e: Engine, ops: seq<Op>, tick: Op)
    requires Shaped(e)
  {
    T.NoWork(e) && T.Quiet(e, ops) && tick.OpTick? && tick.now >= Exec(e, ops).nextAt
  }

  /** What the closing tick puts on the miner's balance. */
  function Gain(e: Engine, ops: seq<Op>, tick: Op, id: nat): real
    requires Shaped(e) && id < |Exec(e, ops).miners| && id < |Exec(e, ops + [tick]).miners|
  {
    Exec(e, ops + [tick]).miners[id].balance - Exec(e, ops).miners[id].balance
  }

  /** The round pays by work in POL mode, counted over all its ticks. */
  lemma {:induction false} RoundOutcome(e: Engine, ops: seq<Op>, tick: Op, id: nat)
    requires Shaped(e) && IsRound(e, ops, tick) && id < |Exec(e, ops).miners|
    ensures id < |Exec(e, ops + [tick]).miners|
    ensures var all := ops + [tick];
            Gain(e, ops, tick, id)
              == PayFor(Exec(e, ops).rewardBase, Worked(e, all, id), WorkedByAll(e, all, |Exec(e, ops).miners|))
  {
    var mid, end, all := Exec(e, ops), Exec(e, ops + [tick]), ops + [tick];
    var n, mine, total := |mid.miners|, T.Earned(e, all, id), T.EarnedByAll(e, all, |mid.miners|);
    assert id < |end.miners| &&
      end.miners[id] == Paid(Expired(mid.miners[id], tick.now), T.RoundPay(mid.rewardBase, mine, total)) by {
      T.RoundPays(e, ops, tick, id);
    }
    assert mine == Worked(e, all, id) by { WorkedIsEarned(e, all, id); }
    assert total == WorkedByAll(e, all, n) by { AllWorked(e, all, n); }
    GainIsPay(mid.miners[id], end.miners[id], tick.now, mid.rewardBase, mine, total);
  }

  lemma {:induction false} GainIsPay(m: Miner, paid: Miner, now: int, reward: real, mine: real, total: real)
    requires paid == Paid(Expired(m, now), T.RoundPay(reward, mine, total))
    ensures paid.balance - m.balance == PayFor(reward, mine, total)
  {
  }

  /** At every tick of the run the miner is in BLK mode, inactive, or not there. */
  ghost predicate IdleThroughout(e: Engine, ops: seq<Op>, id: nat)
    requires Shaped(e)
  {
    ops != [] ==>
      var mid, op := Exec(e, ops[..|ops| - 1]), ops[|ops| - 1];
      && IdleThroughout(e, ops[..|ops| - 1], id)
      && (op.OpTick? && id < |mid.miners| ==> !mid.miners[id].pol || !mid.miners[id].active)
  }

  /** At every tick it is in POL mode and active, with this base hash rate and no boost, or with a boost that runs. */
  ghost predicate WorksThroughout(e: Engine, ops: seq<Op>, id: nat, base: real, boosted: bool)
    requires Shaped(e)
  {
    ops != [] ==>
      var mid, op := Exec(e, ops[..|ops| - 1]), ops[|ops| - 1];
      && WorksThroughout(e, ops[..|ops| - 1], id, base, boosted)
      && (op.OpTick? ==>
            && id < |mid.miners| && mid.miners[id].pol && mid.miners[id].active && mid.miners[id].base == base
            && if boosted then mid.miners[id].boost == 1.25 && op.now < mid.miners[id].boostEndsAt
               else mid.miners[id].boost == 1.0)
  }

  lemma {:induction false} IdleWork(e: Engine, ops: seq<Op>, id: nat)
    requires Shaped(e) && IdleThroughout(e, ops, id)
    ensures Worked(e, ops, id) == 0.0
    decreases |ops|
  {
    if ops != [] { IdleWork(e, ops[..|ops| - 1], id); }
  }

  /** So many times the same. */
  function Repeated(n: nat, x: real): real {
    n as real * x
  }

  lemma {:induction false} OnceMore(n: nat, x: real)
    ensures Repeated(n + 1, x) == Repeated(n, x) + x
  {
  }

  lemma {:induction false} SteadyWork(e: Engine, ops: seq<Op>, id: nat, base: real, boosted: bool)
    requires Shaped(e) && WorksThroughout(e, ops, id, base, boosted)
    ensures Worked(e, ops, id) == Repeated(Ticks(ops), if boosted then base * 1.25 else base)
    decreases |ops|
  {
    if ops != [] {
      SteadyWork(e, ops[..|ops| - 1], id, base, boosted);
      OnceMore(Ticks(ops[..|ops| - 1]), if boosted then base * 1.25 else base);
    }
  }

  /** A miner that is in BLK mode or inactive at every tick of a round gets nothing from its block. */
  lemma {:induction false} IdleUnpaid(e: Engine, ops: seq<Op>, tick: Op, id: nat)
    requires Shaped(e) && IsRound(e, ops, tick) && id < |Exec(e, ops).miners|
    requires IdleThroughout(e, ops + [tick], id)
    ensures id < |Exec(e, ops + [tick]).miners| && Gain(e, ops, tick, id) == 0.0
  {
    RoundOutcome(e, ops, tick, id);
    IdleWork(e, ops + [tick], id);
  }

  /** One that works at every tick is paid for the ticks times its base hash rate, a quarter more if boosted. */
  lemma {:induction false} SteadyPaid(e: Engine, ops: seq<Op>, tick: Op, id: nat, base: real, boosted: bool)
    requires Shaped(e) && IsRound(e, ops, tick) && id < |Exec(e, ops).miners|
    requires WorksThroughout(e, ops + [tick], id, base, boosted)
    ensures id < |Exec(e, ops + [tick]).miners|
    ensures var work := Repeated(Ticks(ops + [tick]), if boosted then base * 1.25 else base);
            Gain(e, ops, tick, id)
              == PayFor(Exec(e, ops).rewardBase, work, WorkedByAll(e, ops + [tick], |Exec(e, ops).miners|))
  {
    RoundOutcome(e, ops, tick, id);
    SteadyWork(e, ops + [tick], id, base, boosted);
  }

  // ---- Joins and purchases ----

  /** The user's miner: the one that the user's id leads to; nobody is found without an id. */
  predicate IsMinerOf(e: Engine, user: nat, id: nat) {
    user != 0 && user in e.byUser && e.byUser[user] == id
  }

  /** Only miner `id` changes, to `m`. */
  ghost predicate OnlyMiner(e: Engine, t: Engine, id: nat, m: Miner)
    requires id < |e.miners|
  {
    t == e.(miners := e.miners[id := m])
  }

  /** A join brings a known miner up to date, and keeps the higher balance. */
  lemma {:induction false} KnownJoin(e: Engine, user: nat, profile: Option<Profile>, id: nat)
    requires Shaped(e) && IsMinerOf(e, user, id)
    ensures var t, m := Step(e, OpJoin(user, profile)), e.miners[id];
            match profile
            case None => t == e
            case Some(p) =>
              && OnlyMiner(e, t, id, t.miners[id])
              && t.miners[id].rigs == (if p.rigs == 0 then 1 else p.rigs)
              && t.miners[id].base == p.base && t.miners[id].pol == p.pol
              && (p.balance > m.balance ==> t.miners[id].balance == p.balance && t.miners[id].persisted == p.balance)
              && (p.balance <= m.balance ==>
                    t.miners[id].balance == m.balance && t.miners[id].persisted == m.persisted)
              && t.miners[id].user == m.user && t.miners[id].active == m.active && t.miners[id].boost == m.boost
              && t.miners[id].boostEndsAt == m.boostEndsAt && t.miners[id].lifetime == m.lifetime
  {
  }

  /** Anybody else gets a new miner under the next id, as the profile says, active and without a boost. */
  lemma {:induction false} NewJoin(e: Engine, user: nat, profile: Option<Profile>)
    requires Shaped(e) && (user == 0 || user !in e.byUser)
    ensures var t, n := Step(e, OpJoin(user, profile)), |e.miners|;
            && |t.miners| == n + 1 && t.miners[..n] == e.miners && t.work == e.work + [0.0]
            && t.byUser == e.byUser[user := n] && t == e.(miners := t.miners, work := t.work, byUser := t.byUser)
            && t.miners[n] == match profile
                              case None => Miner(user, 1, 0.0, true, true, 1.0, 0, 0.0, 0.0, 0.0)
                              case Some(p) => Miner(user, if p.rigs == 0 then 1 else p.rigs, p.base, p.pol, true,
                                                    1.0, 0, p.balance, p.balance, p.lifetime)
  {
  }

  lemma {:induction false} ActiveOutcome(e: Engine, id: nat, active: bool)
    requires Shaped(e)
    ensures var t := Step(e, OpActive(id, active));
            if id < |e.miners| then OnlyMiner(e, t, id, e.miners[id].(active := active)) else t == e
  {
  }

  /** A boost costs 0.35 and multiplies by 1.25 for 30 seconds, for a miner that can pay. */
  lemma {:induction false} BoostOutcome(e: Engine, id: nat, now: int)
    requires Shaped(e)
    ensures var t := Step(e, OpBoost(id, now));
            if id < |e.miners| && e.miners[id].balance >= 0.35
            then OnlyMiner(e, t, id, e.miners[id].(balance := e.miners[id].balance - 0.35, boost := 1.25,
                                                   boostEndsAt := now + 30_000))
            else t == e
  {
    if id < |e.miners| { assert e.miners[id := e.miners[id]] == e.miners; }
  }

  /** A rig costs 2.0 and 0.8 more for each rig after the first, and adds 18 to the base hash rate. */
  lemma {:induction false} RigOutcome(e: Engine, id: nat)
    requires Shaped(e)
    ensures var t := Step(e, OpUpgrade(id));
            if id < |e.miners| && e.miners[id].balance >= 2.0 + 0.8 * (e.miners[id].rigs - 1) as real
            then OnlyMiner(e, t, id,
                           e.miners[id].(balance := e.miners[id].balance - 2.0 - 0.8 * (e.miners[id].rigs - 1) as real,
                                                   rigs := e.miners[id].rigs + 1, base := e.miners[id].base + 18.0))
            else t == e
  {
    if id < |e.miners| { assert e.miners[id := e.miners[id]] == e.miners; }
  }

  lemma {:induction false} DeltaOutcome(e: Engine, user: nat, delta: real)
    requires Shaped(e)
    ensures var t := Step(e, OpDelta(user, delta));
            && (user == 0 || user !in e.byUser ==> t == e)
            && (user != 0 && user in e.byUser ==>
                  var id := e.byUser[user];
                  OnlyMiner(e, t, id, e.miners[id].(balance := e.miners[id].balance + delta,
                                                    persisted := e.miners[id].persisted + delta)))
  {
  }

  // ---- Rollbacks ----

  /**
   * A paid block that is rolled back at once leaves every miner's balance and lifetime as before the tick, and minted
   * too; what counts as written keeps the pay.
   */
  lemma {:induction false} RollbackOutcome(e: Engine, now: int, stamp: int, closed: int)
    requires Shaped(e) && now >= e.nextAt
    ensures var tick := OpTick(now, stamp, closed);
            var t := Step(e, tick);
            var r := R.RolledBack(t, R.Paying(e, tick));
            && r == t.(miners := r.miners, minted := e.minted) && |r.miners| == |e.miners|
            && forall i | 0 <= i < |e.miners| ::
                 r.miners[i] == t.miners[i].(balance := e.miners[i].balance, lifetime := e.miners[i].lifetime)
  {
    var tick := OpTick(now, stamp, closed);
    var a := Accrued(e, now);
    var pays := Pays(a.rewardBase, a.work);
    var t := R.Paying(e, tick);
    if Sum(a.work) > 0.0 {
      RewardedIsPaid(a, |a.miners|);
      assert t[..|a.miners|] == t && pays[..|a.miners|] == pays;
    } else {
      assert pays == Zeros(|a.miners|);
      T.SumZeros(|a.miners|);
    }
    forall i | 0 <= i < |e.miners|
      ensures R.RestoredAt(PaidAll(a.miners, pays)[i], t, i)
           == PaidAll(a.miners, pays)[i].(balance := e.miners[i].balance, lifetime := e.miners[i].lifetime)
    {
    }
  }

  lemma {:induction false} RewardedIsPaid(a: Engine, n: nat)
    requires |a.work| == |a.miners| && n <= |a.miners| && Sum(a.work) > 0.0
    ensures R.Rewarded(R.Taken(a)[..n]) == Sum(Pays(a.rewardBase, a.work)[..n])
  {
    if n > 0 {
      RewardedIsPaid(a, n - 1);
      assert R.Taken(a)[..n][..n - 1] == R.Taken(a)[..n - 1];
      assert Pays(a.rewardBase, a.work)[..n][..n - 1] == Pays(a.rewardBase, a.work)[..n - 1];
    }
  }
}
