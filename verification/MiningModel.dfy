/**
 * The POL mining engine as a value. Miner ids are the positions in which miners joined: the
 * engine's maps iterate in that order and an id is never removed.
 */
module MiningModel {
  import opened Tables

  datatype Miner = Miner(
    user: nat, rigs: int, base: real, pol: bool, active: bool, boost: real, boostEndsAt: int,
    balance: real, persisted: real, lifetime: real)

  /** What the database knows of a user; `pol` tells the payout mode. */
  datatype Profile = Profile(rigs: int, base: real, balance: real, lifetime: real, pol: bool)

  datatype Block = Block(number: int, reward: real, minerCount: nat, timestamp: int, userRewards: map<nat, real>)

  datatype Engine = Engine(
    rewardBase: real, duration: int, number: int, startedAt: int, nextAt: int, progress: real,
    minted: real, lastReward: real, rate: real, activeMiners: nat,
    miners: seq<Miner>, work: seq<real>, byUser: map<nat, nat>, history: seq<Block>)

  const HISTORY := 12
  const PROGRESS_TARGET := 100.0
  const BOOST_COST := 0.35
  const BOOST_FACTOR := 1.25
  const BOOST_MS := 30000
  const RIG_BASE_COST := 2.0
  const RIG_STEP_COST := 0.8
  const RIG_RATE := 18.0

  function Started(rewardBase: real, duration: int, now: int): Engine {
    Engine(rewardBase, duration, 1, now, now + duration, 0.0, 0.0, 0.0, 0.0, 0, [], [], map[], [])
  }

  function Sum(xs: seq<real>): real {
    if xs == [] then 0.0 else Sum(xs[..|xs| - 1]) + xs[|xs| - 1]
  }

  // ---- Joining ----

  function Rigs(p: Profile): int {
    if p.rigs == 0 then 1 else p.rigs
  }

  /** Profile fields taken over; the larger of the two balances is kept. */
  function Refreshed(m: Miner, p: Profile): Miner {
    var n := m.(rigs := Rigs(p), base := p.base, pol := p.pol);
    if p.balance > m.balance then n.(balance := p.balance, persisted := p.balance) else n
  }

  function NewMiner(user: nat, profile: Option<Profile>): Miner {
    match profile
    case None => Miner(user, 1, 0.0, true, true, 1.0, 0, 0.0, 0.0, 0.0)
    case Some(p) => Miner(user, Rigs(p), p.base, p.pol, true, 1.0, 0, p.balance, p.balance, p.lifetime)
  }

  /** User id 0 stands for a missing id, which is never found. */
  function Found(e: Engine, user: nat): Option<nat> {
    if user != 0 && user in e.byUser then Some(e.byUser[user]) else None
  }

  function Join(e: Engine, user: nat, profile: Option<Profile>): Engine
    requires Found(e, user).Some? ==> Found(e, user).value < |e.miners|
  {
    match Found(e, user)
    case Some(id) =>
      if profile.None? then e else e.(miners := e.miners[id := Refreshed(e.miners[id], profile.value)])
    case None =>
      e.(miners := e.miners + [NewMiner(user, profile)], work := e.work + [0.0], byUser := e.byUser[user := |e.miners|])
  }

  // ---- Purchases ----

  function Boosted(m: Miner, now: int): Miner {
    if m.balance < BOOST_COST then m
    else m.(balance := m.balance - BOOST_COST, boost := BOOST_FACTOR, boostEndsAt := now + BOOST_MS)
  }

  function RigCost(m: Miner): real {
    RIG_BASE_COST + (m.rigs - 1) as real * RIG_STEP_COST
  }

  function Upgraded(m: Miner): Miner {
    if m.balance < RigCost(m) then m
    else m.(balance := m.balance - RigCost(m), rigs := m.rigs + 1, base := m.base + RIG_RATE)
  }

  /** A change that a request has already made in the database. */
  function Adjusted(m: Miner, delta: real): Miner {
    m.(balance := m.balance + delta, persisted := m.persisted + delta)
  }

  // ---- Writing back ----

  const LEAST_WRITE := 0.0000001

  function Unwritten(m: Miner): real {
    m.balance - m.persisted
  }

  predicate Worthwhile(delta: real) {
    delta >= LEAST_WRITE || -delta >= LEAST_WRITE
  }

  /** What a write-back adds to the balance in the database, if it writes at all. */
  function ToWrite(m: Miner): Option<real> {
    if m.user != 0 && Worthwhile(Unwritten(m)) then Some(Unwritten(m)) else None
  }

  function Written(m: Miner): Miner {
    m.(persisted := m.balance)
  }

  // ---- Ticks ----

  function Expired(m: Miner, now: int): Miner {
    if m.boostEndsAt > 0 && now >= m.boostEndsAt then m.(boost := 1.0, boostEndsAt := 0) else m
  }

  function Rate(m: Miner): real {
    if m.active then m.base * m.boost else 0.0
  }

  /** What one tick adds to a miner's work: nothing in BLK mode. */
  function PolRate(m: Miner, now: int): real {
    if m.pol then Rate(Expired(m, now)) else 0.0
  }

  function ExpiredAll(ms: seq<Miner>, now: int): seq<Miner> {
    seq(|ms|, i requires 0 <= i < |ms| => Expired(ms[i], now))
  }

  function Rates(ms: seq<Miner>, now: int): seq<real> {
    seq(|ms|, i requires 0 <= i < |ms| => Rate(Expired(ms[i], now)))
  }

  function Worked(work: seq<real>, ms: seq<Miner>, now: int): seq<real>
    requires |work| == |ms|
  {
    seq(|ms|, i requires 0 <= i < |ms| => work[i] + PolRate(ms[i], now))
  }

  function CountPositive(xs: seq<real>): nat {
    if xs == [] then 0 else CountPositive(xs[..|xs| - 1]) + if xs[|xs| - 1] > 0.0 then 1 else 0
  }

  /** Work and boosts after one pass over the miners. */
  function Accrued(e: Engine, now: int): Engine
    requires |e.work| == |e.miners|
  {
    e.(miners := ExpiredAll(e.miners, now), work := Worked(e.work, e.miners, now),
       rate := Sum(Rates(e.miners, now)), activeMiners := CountPositive(Rates(e.miners, now)))
  }

  // ---- Distribution ----

  function Pay(reward: real, work: real, total: real): real
    requires total > 0.0
  {
    if work <= 0.0 then 0.0 else reward * (work / total)
  }

  function Pays(reward: real, work: seq<real>): seq<real> {
    var total := Sum(work);
    seq(|work|, i requires 0 <= i < |work| => if total > 0.0 then Pay(reward, work[i], total) else 0.0)
  }

  function Paid(m: Miner, pay: real): Miner {
    m.(balance := m.balance + pay, persisted := m.persisted + pay, lifetime := m.lifetime + pay)
  }

  function PaidAll(ms: seq<Miner>, pays: seq<real>): seq<Miner>
    requires |pays| == |ms|
  {
    seq(|ms|, i requires 0 <= i < |ms| => Paid(ms[i], pays[i]))
  }

  /** Rewards by user; of two miners with one user id the later one shows. */
  function UserRewards(ms: seq<Miner>, work: seq<real>, pays: seq<real>): map<nat, real>
    requires |ms| == |work| == |pays|
  {
    if ms == [] then map[]
    else
      var n := |ms| - 1;
      var front := UserRewards(ms[..n], work[..n], pays[..n]);
      if work[n] > 0.0 then front[ms[n].user := pays[n]] else front
  }

  function Recorded(history: seq<Block>, b: Block): seq<Block> {
    if |history| >= HISTORY then [b] + history[..HISTORY - 1] else [b] + history
  }

  function Zeros(n: nat): seq<real> {
    seq(n, i => 0.0)
  }

  /** Closes the block: pays by work and starts the next round at `closed`. */
  function Distribute(e: Engine, stamp: int, closed: int): Engine
    requires |e.work| == |e.miners|
  {
    var pays := Pays(e.rewardBase, e.work);
    var reward := if Sum(e.work) > 0.0 then e.rewardBase else 0.0;
    var users := if Sum(e.work) > 0.0 then UserRewards(e.miners, e.work, pays) else map[];
    e.(miners := PaidAll(e.miners, pays), work := Zeros(|e.miners|), minted := e.minted + Sum(pays),
       lastReward := reward,
       history := Recorded(e.history, Block(e.number, reward, e.activeMiners, stamp, users)),
       number := e.number + 1, startedAt := closed, nextAt := closed + e.duration, progress := 0.0)
  }

  function Progress(e: Engine, now: int): real
    requires e.duration > 0
  {
    var elapsed := if now > e.startedAt then now - e.startedAt else 0;
    var share := elapsed as real / e.duration as real * PROGRESS_TARGET;
    if share < PROGRESS_TARGET then share else PROGRESS_TARGET
  }

  predicate Closes(e: Engine, now: int) {
    now >= e.nextAt
  }

  function Tick(e: Engine, now: int, stamp: int, closed: int): Engine
    requires |e.work| == |e.miners| && e.duration > 0
  {
    var a := Accrued(e, now);
    var d := if Closes(a, now) then Distribute(a, stamp, closed) else a;
    d.(progress := Progress(d, now))
  }

  // ---- Runs ----

  datatype Op =
    | OpJoin(user: nat, profile: Option<Profile>)
    | OpActive(id: nat, active: bool)
    | OpBoost(id: nat, now: int)
    | OpUpgrade(id: nat)
    | OpDelta(user: nat, delta: real)
    | OpTick(now: int, stamp: int, closed: int)

  ghost predicate Shaped(e: Engine) {
    |e.work| == |e.miners| && e.duration > 0 && forall u | u in e.byUser :: e.byUser[u] < |e.miners|
  }

  function WithMiner(e: Engine, id: nat, m: Miner): Engine
    requires id < |e.miners|
  {
    e.(miners := e.miners[id := m])
  }

  function Step(e: Engine, op: Op): (r: Engine)
    requires Shaped(e)
    ensures Shaped(r)
  {
    match op
    case OpJoin(user, profile) => Join(e, user, profile)
    case OpActive(id, active) => if id < |e.miners| then WithMiner(e, id, e.miners[id].(active := active)) else e
    case OpBoost(id, now) => if id < |e.miners| then WithMiner(e, id, Boosted(e.miners[id], now)) else e
    case OpUpgrade(id) => if id < |e.miners| then WithMiner(e, id, Upgraded(e.miners[id])) else e
    case OpDelta(user, delta) =>
      if Found(e, user).Some?
      then WithMiner(e, Found(e, user).value, Adjusted(e.miners[Found(e, user).value], delta))
      else e
    case OpTick(now, stamp, closed) => Tick(e, now, stamp, closed)
  }

  function Exec(e: Engine, ops: seq<Op>): (r: Engine)
    requires Shaped(e)
    ensures Shaped(r)
  {
    if ops == [] then e else Step(Exec(e, ops[..|ops| - 1]), ops[|ops| - 1])
  }
}
