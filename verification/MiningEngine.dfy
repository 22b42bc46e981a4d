/** The mining engine with its miner objects, each shared by the engine's two maps. */
module MiningEngine {
  import opened Tables
  import M = MiningModel
  import T = MiningTheorems
  import R = MiningRollback

  class Miner {
    const id: nat
    const user: nat
    var rigs: int
    var base: real
    var pol: bool
    var active: bool
    var boost: real
    var boostEndsAt: int
    var balance: real
    var persisted: real
    var lifetime: real

    constructor (id: nat, user: nat, profile: Option<M.Profile>)
      ensures this.id == id && State() == M.NewMiner(user, profile)
    {
      this.id, this.user := id, user;
      active, boost, boostEndsAt := true, 1.0, 0;
      match profile {
        case None =>
          rigs, base, pol, balance, persisted, lifetime := 1, 0.0, true, 0.0, 0.0, 0.0;
        case Some(p) =>
          rigs := if p.rigs == 0 then 1 else p.rigs;
          base, pol, balance, persisted, lifetime := p.base, p.pol, p.balance, p.balance, p.lifetime;
      }
    }

    ghost function State(): M.Miner
      reads this
    {
      M.Miner(user, rigs, base, pol, active, boost, boostEndsAt, balance, persisted, lifetime)
    }

    method Refresh(p: M.Profile)
      modifies this
      ensures State() == M.Refreshed(old(State()), p)
    {
      rigs := if p.rigs == 0 then 1 else p.rigs;
      base, pol := p.base, p.pol;
      if p.balance > balance { balance, persisted := p.balance, p.balance; }
    }

    /** Ends an expired boost and tells the hash rate. */
    method Work(now: int) returns (rate: real)
      modifies this
      ensures State() == M.Expired(old(State()), now) && rate == M.Rate(State())
    {
      if boostEndsAt > 0 && now >= boostEndsAt { boost, boostEndsAt := 1.0, 0; }
      rate := if active then base * boost else 0.0;
    }

    method Earn(reward: real)
      modifies this
      ensures State() == M.Paid(old(State()), reward)
    {
      balance := balance + reward;
      persisted := persisted + reward;
      lifetime := lifetime + reward;
    }

    method Restore(snapshot: R.Snapshot)
      modifies this
      ensures State() == old(State()).(balance := snapshot.balance, lifetime := snapshot.lifetime)
    {
      balance := snapshot.balance;
      lifetime := snapshot.lifetime;
    }
  }

  ghost function States(ms: seq<Miner>): (r: seq<M.Miner>)
    reads ms
    ensures |r| == |ms|
    ensures forall i | 0 <= i < |ms| :: r[i] == ms[i].State()
  {
    seq(|ms|, i requires 0 <= i < |ms| reads ms => ms[i].State())
  }

  /** How far a pass over the miners has come: those before `i` are done, the others as at the start. */
  ghost predicate WorkedUpTo(ms0: seq<M.Miner>, work0: seq<real>, now: int, i: nat,
                             ms: seq<M.Miner>, work: seq<real>, rate: real, active: nat) {
    && i <= |ms| == |ms0| == |work| == |work0|
    && (forall k | 0 <= k < |ms| :: ms[k] == if k < i then M.Expired(ms0[k], now) else ms0[k])
    && (forall k | 0 <= k < |ms| :: work[k] == work0[k] + if k < i then M.PolRate(ms0[k], now) else 0.0)
    && rate == M.Sum(M.Rates(ms0, now)[..i]) && active == M.CountPositive(M.Rates(ms0, now)[..i])
  }

  lemma {:induction false} WorkedOneMore(ms0: seq<M.Miner>, work0: seq<real>, now: int, i: nat,
                                         ms: seq<M.Miner>, work: seq<real>, rate: real, active: nat)
    requires WorkedUpTo(ms0, work0, now, i, ms, work, rate, active) && i < |ms|
    ensures var mine := M.Rate(M.Expired(ms[i], now));
            WorkedUpTo(ms0, work0, now, i + 1, ms[i := M.Expired(ms[i], now)],
                       work[i := work[i] + M.PolRate(ms[i], now)],
                       rate + mine, if mine > 0.0 then active + 1 else active)
  {
    NextRate(M.Rates(ms0, now), i);
  }

  lemma {:induction false} WorkedAll(ms0: seq<M.Miner>, work0: seq<real>, now: int,
                                     ms: seq<M.Miner>, work: seq<real>, rate: real, active: nat)
    requires WorkedUpTo(ms0, work0, now, |ms|, ms, work, rate, active)
    ensures ms == M.ExpiredAll(ms0, now) && work == M.Worked(work0, ms0, now)
    ensures rate == M.Sum(M.Rates(ms0, now)) && active == M.CountPositive(M.Rates(ms0, now))
  {
    assert M.Rates(ms0, now)[..|ms|] == M.Rates(ms0, now);
  }

  function SnapshotAt(m: M.Miner, work: real, reward: real, total: real): Option<R.Snapshot>
    requires total > 0.0
  {
    if work > 0.0 then Some(R.Snapshot(m.balance, m.lifetime, M.Pay(reward, work, total))) else None
  }

  /** The snapshots of the first `i` miners. */
  function SnapshotsUpTo(ms: seq<M.Miner>, work: seq<real>, reward: real, i: nat): R.Snapshots
    requires i <= |ms| == |work| && M.Sum(work) > 0.0
  {
    seq(i, k requires 0 <= k < i => SnapshotAt(ms[k], work[k], reward, M.Sum(work)))
  }

  lemma {:induction false} OneMoreSnapshot(ms: seq<M.Miner>, work: seq<real>, reward: real, i: nat)
    requires i < |ms| == |work| && M.Sum(work) > 0.0
    ensures SnapshotsUpTo(ms, work, reward, i + 1) ==
              SnapshotsUpTo(ms, work, reward, i) + [SnapshotAt(ms[i], work[i], reward, M.Sum(work))]
  {
  }

  /** The same for the payout. */
  ghost predicate PaidUpTo(ms0: seq<M.Miner>, work0: seq<real>, reward: real, minted0: real, i: nat,
                           ms: seq<M.Miner>, work: seq<real>, minted: real, users: map<nat, real>, taken: R.Snapshots) {
    && i <= |ms| == |ms0| == |work| == |work0| && M.Sum(work0) > 0.0
    && var pays := M.Pays(reward, work0);
    && (forall k | 0 <= k < |ms| :: ms[k] == if k < i then M.Paid(ms0[k], pays[k]) else ms0[k])
    && (forall k | 0 <= k < |ms| :: work[k] == if k < i then 0.0 else work0[k])
    && minted == minted0 + M.Sum(pays[..i]) && users == M.UserRewards(ms0[..i], work0[..i], pays[..i])
    && taken == SnapshotsUpTo(ms0, work0, reward, i)
  }

  lemma {:induction false} PaidOneMore(ms0: seq<M.Miner>, work0: seq<real>, reward: real, minted0: real, i: nat,
                                       ms: seq<M.Miner>, work: seq<real>, minted: real, users: map<nat, real>,
                                       taken: R.Snapshots)
    requires PaidUpTo(ms0, work0, reward, minted0, i, ms, work, minted, users, taken) && i < |ms|
    ensures var total := M.Sum(work0);
            var pay := M.Pay(reward, work[i], total);
            PaidUpTo(ms0, work0, reward, minted0, i + 1, ms[i := M.Paid(ms[i], pay)], work[i := 0.0], minted + pay,
                     if work[i] > 0.0 then users[ms[i].user := pay] else users,
                     taken + [SnapshotAt(ms[i], work[i], reward, total)])
  {
    NextRate(M.Pays(reward, work0), i);
    NextRewards(ms0, work0, M.Pays(reward, work0), i);
    OneMoreSnapshot(ms0, work0, reward, i);
  }

  lemma {:induction false} PaidToAll(ms0: seq<M.Miner>, work0: seq<real>, reward: real, minted0: real,
                                     ms: seq<M.Miner>, work: seq<real>, minted: real, users: map<nat, real>,
                                     taken: R.Snapshots)
    requires PaidUpTo(ms0, work0, reward, minted0, |ms|, ms, work, minted, users, taken)
    ensures var pays := M.Pays(reward, work0);
            && ms == M.PaidAll(ms0, pays) && work == M.Zeros(|ms|)
            && minted == minted0 + M.Sum(pays) && users == M.UserRewards(ms0, work0, pays)
            && taken == SnapshotsUpTo(ms0, work0, reward, |ms0|)
  {
    var pays := M.Pays(reward, work0);
    assert pays[..|ms|] == pays && ms0[..|ms|] == ms0 && work0[..|ms|] == work0;
  }

  lemma {:induction false} AllTaken(e: M.Engine)
    requires |e.work| == |e.miners| && M.Sum(e.work) > 0.0
    ensures R.Taken(e) == SnapshotsUpTo(e.miners, e.work, e.rewardBase, |e.miners|)
  {
  }

  /** The same for a rollback. */
  ghost predicate RestoredUpTo(ms0: seq<M.Miner>, taken: R.Snapshots, minted0: real, i: nat, ms: seq<M.Miner>,
                               minted: real) {
    && i <= |taken| <= |ms| == |ms0|
    && (forall k | 0 <= k < |ms| :: ms[k] == R.RestoredAt(ms0[k], taken[..i], k))
    && minted == minted0 - R.Rewarded(taken[..i])
  }

  lemma {:induction false} RestoredOneMore(ms0: seq<M.Miner>, taken: R.Snapshots, minted0: real, i: nat,
                                           ms: seq<M.Miner>, minted: real)
    requires RestoredUpTo(ms0, taken, minted0, i, ms, minted) && i < |taken|
    ensures if taken[i].Some?
            then RestoredUpTo(ms0, taken, minted0, i + 1, ms[i := R.RestoredAt(ms[i], [taken[i]], 0)],
                              minted - taken[i].value.reward)
            else RestoredUpTo(ms0, taken, minted0, i + 1, ms, minted)
  {
    TakeOneMore(taken, i);
  }

  lemma {:induction false} RestoredToAll(ms0: seq<M.Miner>, taken: R.Snapshots, minted0: real, ms: seq<M.Miner>,
                                         minted: real)
    requires RestoredUpTo(ms0, taken, minted0, |taken|, ms, minted)
    ensures ms == R.Restored(ms0, taken) && minted == minted0 - R.Rewarded(taken)
  {
    assert taken[..|taken|] == taken;
  }

  class Engine {
    const rewardBase: real
    const duration: int
    var number: int
    var startedAt: int
    var nextAt: int
    var progress: real
    var minted: real
    var lastReward: real
    var rate: real
    var activeMiners: nat
    var miners: seq<Miner>
    var minersByUserId: map<nat, Miner>
    var roundWork: seq<real>
    var history: seq<M.Block>

    /** Both maps hold the same objects, each at the place its id names. */
    ghost predicate Linked()
      reads this`miners, this`minersByUserId
    {
      && (forall i | 0 <= i < |miners| :: miners[i].id == i)
      && (forall u | u in minersByUserId ::
            minersByUserId[u].id < |miners| && miners[minersByUserId[u].id] == minersByUserId[u])
    }

    ghost predicate Valid()
      reads this
    {
      duration > 0 && |roundWork| == |miners| && Linked()
    }

    /** The second map, by the ids of its miners. */
    ghost function ByUser(): map<nat, nat>
      reads this`minersByUserId
    {
      map u | u in minersByUserId :: minersByUserId[u].id
    }

    ghost function View(): M.Engine
      reads this, miners
    {
      M.Engine(rewardBase, duration, number, startedAt, nextAt, progress, minted, lastReward, rate, activeMiners,
               States(miners), roundWork, ByUser(), history)
    }

    constructor (rewardBase: real, duration: int, now: int)
      requires duration > 0
      ensures Valid() && miners == [] && View() == M.Started(rewardBase, duration, now)
    {
      this.rewardBase, this.duration := rewardBase, duration;
      number, startedAt, nextAt, progress := 1, now, now + duration, 0.0;
      minted, lastReward, rate, activeMiners := 0.0, 0.0, 0.0, 0;
      miners, minersByUserId, roundWork, history := [], map[], [], [];
    }

    lemma {:induction false} ViewShaped()
      requires Valid()
      ensures M.Shaped(View())
    {
    }

    /** A further miner under a further id and its user. */
    method AddMiner(user: nat, miner: Miner)
      requires Valid() && miner.id == |miners|
      modifies this`miners, this`minersByUserId, this`roundWork
      ensures Valid() && miners == old(miners) + [miner]
      ensures ByUser() == old(ByUser())[user := miner.id] && roundWork == old(roundWork) + [0.0]
    {
      ghost var before := miners;
      miners := miners + [miner];
      assert forall i | 0 <= i < |before| :: miners[i] == before[i];
      minersByUserId := minersByUserId[user := miner];
      roundWork := roundWork + [0.0];
    }

    method CreateMiner(user: nat, profile: Option<M.Profile>) returns (miner: Miner)
      requires Valid()
      modifies this`miners, this`minersByUserId, this`roundWork
      ensures Valid() && fresh(miner) && miner.id == |old(miners)| && miners == old(miners) + [miner]
      ensures States(miners) == old(States(miners)) + [M.NewMiner(user, profile)]
      ensures ByUser() == old(ByUser())[user := |old(miners)|] && roundWork == old(roundWork) + [0.0]
    {
      miner := new Miner(|miners|, user, profile);
      AddMiner(user, miner);
    }

    /** The user's miner, brought up to date with the profile, or a new one. */
    method CreateOrGetMiner(user: nat, profile: Option<M.Profile>) returns (miner: Miner)
      requires Valid()
      modifies this`miners, this`minersByUserId, this`roundWork, miners
      ensures Valid()
      ensures M.Shaped(old(View())) && View() == M.Join(old(View()), user, profile)
      ensures miner.id < |miners| && miners[miner.id] == miner
      ensures miner.id == if M.Found(old(View()), user).Some? then M.Found(old(View()), user).value else |old(miners)|
    {
      ViewShaped();
      ghost var before := States(miners);
      if user != 0 && user in minersByUserId {
        miner := minersByUserId[user];
        if profile.Some? {
          miner.Refresh(profile.value);
          assert States(miners) == before[miner.id := M.Refreshed(before[miner.id], profile.value)];
        }
        return;
      }
      miner := CreateMiner(user, profile);
    }

    method ApplyBoost(id: nat, now: int) returns (ok: bool)
      requires Valid()
      modifies miners
      ensures Valid() && M.Shaped(old(View())) && View() == M.Step(old(View()), M.OpBoost(id, now))
      ensures ok <==> id < |miners| && old(View()).miners[id].balance >= M.BOOST_COST
    {
      ViewShaped();
      ghost var before := View();
      if id >= |miners| || miners[id].balance < M.BOOST_COST {
        assert id < |miners| ==> before.miners[id := before.miners[id]] == before.miners;
        return false;
      }
      var miner := miners[id];
      miner.balance := miner.balance - M.BOOST_COST;
      miner.boost := M.BOOST_FACTOR;
      miner.boostEndsAt := now + M.BOOST_MS;
      assert States(miners) == before.miners[id := M.Boosted(before.miners[id], now)];
      return true;
    }

    method UpgradeRig(id: nat) returns (ok: bool)
      requires Valid()
      modifies miners
      ensures Valid() && M.Shaped(old(View())) && View() == M.Step(old(View()), M.OpUpgrade(id))
      ensures ok <==> id < |miners| && old(View()).miners[id].balance >= M.RigCost(old(View()).miners[id])
    {
      ViewShaped();
      ghost var before := View();
      if id >= |miners| { return false; }
      var miner := miners[id];
      var cost := M.RIG_BASE_COST + (miner.rigs - 1) as real * M.RIG_STEP_COST;
      if miner.balance < cost {
        assert before.miners[id := before.miners[id]] == before.miners;
        return false;
      }
      miner.balance := miner.balance - cost;
      miner.rigs := miner.rigs + 1;
      miner.base := miner.base + M.RIG_RATE;
      assert States(miners) == before.miners[id := M.Upgraded(before.miners[id])];
      return true;
    }

    /** Follows a change of the user's balance in the database, if the user has a miner here. */
    method ApplyUserBalanceDelta(user: nat, delta: real)
      requires Valid()
      modifies miners
      ensures Valid() && M.Shaped(old(View())) && View() == M.Step(old(View()), M.OpDelta(user, delta))
    {
      ViewShaped();
      ghost var before := View();
      if user == 0 || user !in minersByUserId { return; }
      var miner := minersByUserId[user];
      miner.balance := miner.balance + delta;
      miner.persisted := miner.persisted + delta;
      assert States(miners) == before.miners[miner.id := M.Adjusted(before.miners[miner.id], delta)];
    }

    /** A write-back up to its await: the amount it adds to the balance in the database, if any. */
    method AmountToPersist(id: nat) returns (amount: Option<real>)
      requires Valid() && id < |miners|
      ensures amount == M.ToWrite(miners[id].State())
    {
      var miner := miners[id];
      if miner.user == 0 { return None; }
      var delta := miner.balance - miner.persisted;
      if (if delta < 0.0 then -delta else delta) < 0.0000001 { return None; }
      return Some(delta);
    }

    /** ... and after it: the balance of this moment counts as written. */
    method MarkPersisted(id: nat)
      requires Valid() && id < |miners|
      modifies miners
      ensures Valid() && View() == M.WithMiner(old(View()), id, M.Written(old(View()).miners[id]))
    {
      ghost var before := View();
      miners[id].persisted := miners[id].balance;
      assert States(miners) == before.miners[id := M.Written(before.miners[id])];
    }

    method SetActive(id: nat, active: bool)
      requires Valid()
      modifies miners
      ensures Valid() && M.Shaped(old(View())) && View() == M.Step(old(View()), M.OpActive(id, active))
    {
      ViewShaped();
      ghost var before := View();
      if id >= |miners| { return; }
      miners[id].active := active;
      assert States(miners) == before.miners[id := before.miners[id].(active := active)];
    }

    method WorkMiner(i: nat, now: int) returns (rate: real)
      requires Linked() && i < |miners| == |roundWork|
      modifies this`roundWork, miners
      ensures var m := old(States(miners))[i];
              && rate == M.Rate(M.Expired(m, now))
              && States(miners) == old(States(miners))[i := M.Expired(m, now)]
              && roundWork == old(roundWork)[i := old(roundWork)[i] + M.PolRate(m, now)]
    {
      rate := miners[i].Work(now);
      if miners[i].pol { roundWork := roundWork[i := roundWork[i] + rate]; }
    }

    method PayMiner(i: nat, total: real, userRewards: map<nat, real>)
      returns (r: map<nat, real>, taken: Option<R.Snapshot>)
      requires Linked() && i < |miners| == |roundWork| && total > 0.0
      modifies this`roundWork, this`minted, miners
      ensures roundWork == old(roundWork)[i := 0.0]
      ensures var m, work := old(States(miners))[i], old(roundWork)[i];
              var pay := M.Pay(rewardBase, work, total);
              && States(miners) == old(States(miners))[i := M.Paid(m, pay)]
              && minted == old(minted) + pay
              && r == (if work > 0.0 then userRewards[m.user := pay] else userRewards)
              && taken == SnapshotAt(m, work, rewardBase, total)
    {
      var work := roundWork[i];
      roundWork := roundWork[i := 0.0];
      if work <= 0.0 { return userRewards, None; }
      var balance, lifetime := miners[i].balance, miners[i].lifetime;
      var reward := rewardBase * (work / total);
      miners[i].Earn(reward);
      minted := minted + reward;
      r := userRewards[miners[i].user := reward];
      taken := Some(R.Snapshot(balance, lifetime, reward));
    }

    /** One pass over the miners: boosts end, POL miners' work grows. */
    method WorkMiners(now: int) returns (totalRate: real, active: nat)
      requires Linked() && |roundWork| == |miners|
      modifies this`roundWork, miners
      ensures States(miners) == M.ExpiredAll(old(States(miners)), now)
      ensures roundWork == M.Worked(old(roundWork), old(States(miners)), now)
      ensures totalRate == M.Sum(M.Rates(old(States(miners)), now))
      ensures active == M.CountPositive(M.Rates(old(States(miners)), now))
    {
      ghost var before, work := States(miners), roundWork;
      totalRate, active := 0.0, 0;
      for i := 0 to |miners|
        modifies this`roundWork, miners
        invariant WorkedUpTo(before, work, now, i, States(miners), roundWork, totalRate, active)
      {
        WorkedOneMore(before, work, now, i, States(miners), roundWork, totalRate, active);
        var rate := WorkMiner(i, now);
        totalRate := totalRate + rate;
        if rate > 0.0 { active := active + 1; }
      }
      WorkedAll(before, work, now, States(miners), roundWork, totalRate, active);
    }

    method TotalWork() returns (total: real)
      ensures total == M.Sum(roundWork)
    {
      total := 0.0;
      for i := 0 to |roundWork|
        invariant total == M.Sum(roundWork[..i])
      {
        TakeOneMore(roundWork, i);
        total := total + roundWork[i];
      }
      assert roundWork[..|roundWork|] == roundWork;
    }

    /** Pays each miner with work its share, keeps what it had before, and empties the round. */
    method PayMiners(total: real) returns (userRewards: map<nat, real>, taken: R.Snapshots)
      requires Linked() && |roundWork| == |miners| && total == M.Sum(roundWork) > 0.0
      modifies this`roundWork, this`minted, miners
      ensures roundWork == M.Zeros(|miners|)
      ensures var pays := M.Pays(rewardBase, old(roundWork));
              && States(miners) == M.PaidAll(old(States(miners)), pays)
              && minted == old(minted) + M.Sum(pays)
              && userRewards == M.UserRewards(old(States(miners)), old(roundWork), pays)
      ensures taken == SnapshotsUpTo(old(States(miners)), old(roundWork), rewardBase, |miners|)
    {
      ghost var before, works, was := States(miners), roundWork, minted;
      userRewards, taken := map[], [];
      for i := 0 to |miners|
        modifies this`roundWork, this`minted, miners
        invariant PaidUpTo(before, works, rewardBase, was, i, States(miners), roundWork, minted, userRewards, taken)
      {
        PaidOneMore(before, works, rewardBase, was, i, States(miners), roundWork, minted, userRewards, taken);
        var snapshot;
        userRewards, snapshot := PayMiner(i, total, userRewards);
        taken := taken + [snapshot];
      }
      PaidToAll(before, works, rewardBase, was, States(miners), roundWork, minted, userRewards, taken);
    }

    method RestoreMiner(i: nat, snapshot: R.Snapshot)
      requires Linked() && i < |miners|
      modifies this`minted, miners
      ensures States(miners) == old(States(miners))[i := R.RestoredAt(old(States(miners))[i], [Some(snapshot)], 0)]
      ensures minted == old(minted) - snapshot.reward
    {
      miners[i].Restore(snapshot);
      minted := minted - snapshot.reward;
    }

    /** What the engine does when a block's rewards could not be stored. */
    method RollBack(taken: R.Snapshots)
      requires Valid() && |taken| <= |miners|
      modifies this`minted, miners
      ensures Valid() && View() == R.RolledBack(old(View()), taken)
    {
      ghost var before, was := States(miners), minted;
      for i := 0 to |taken|
        modifies this`minted, miners
        invariant RestoredUpTo(before, taken, was, i, States(miners), minted)
      {
        RestoredOneMore(before, taken, was, i, States(miners), minted);
        if taken[i].Some? { RestoreMiner(i, taken[i].value); }
      }
      RestoredToAll(before, taken, was, States(miners), minted);
    }

    method ClearWork()
      requires Valid()
      modifies this`roundWork
      ensures roundWork == M.Zeros(|miners|)
    {
      for i := 0 to |miners|
        invariant |roundWork| == |miners|
        invariant forall k | 0 <= k < i :: roundWork[k] == 0.0
      {
        roundWork := roundWork[i := 0.0];
      }
    }

    /** Puts a block first and keeps the latest twelve. */
    method Record(b: M.Block)
      modifies this`history
      ensures history == M.Recorded(old(history), b)
    {
      history := [b] + history;
      if |history| > M.HISTORY { history := history[..M.HISTORY]; }
    }

    method FinalizeBlockDistribution(closed: int)
      modifies this`number, this`startedAt, this`nextAt, this`progress
      ensures number == old(number) + 1 && startedAt == closed && nextAt == closed + duration && progress == 0.0
    {
      number := number + 1;
      progress := 0.0;
      startedAt := closed;
      nextAt := startedAt + duration;
    }

    /** Records the block and starts the next one. */
    method CloseBlock(reward: real, userRewards: map<nat, real>, stamp: int, closed: int)
      requires Valid()
      modifies this`history, this`lastReward, this`number, this`startedAt, this`nextAt, this`progress
      ensures Valid()
      ensures View() == Closed(old(View()), reward, userRewards, stamp, closed)
    {
      Record(M.Block(number, reward, activeMiners, stamp, userRewards));
      lastReward := reward;
      FinalizeBlockDistribution(closed);
    }

    method DistributeNoReward(stamp: int, closed: int)
      requires Valid() && M.Sum(roundWork) <= 0.0
      modifies this`number, this`startedAt, this`nextAt, this`progress, this`lastReward, this`roundWork, this`history
      ensures Valid() && View() == M.Distribute(old(View()), stamp, closed)
    {
      DistributeNothing(View(), stamp, closed);
      ClearWork();
      CloseBlock(0.0, map[], stamp, closed);
    }

    method DistributeBlockReward(total: real, stamp: int, closed: int) returns (taken: R.Snapshots)
      requires Valid() && total == M.Sum(roundWork) > 0.0
      modifies this`number, this`startedAt, this`nextAt, this`progress, this`lastReward, this`roundWork, this`history
      modifies this`minted, miners
      ensures Valid() && View() == M.Distribute(old(View()), stamp, closed) && taken == R.Taken(old(View()))
    {
      DistributeReward(View(), stamp, closed);
      AllTaken(View());
      var userRewards;
      userRewards, taken := PayMiners(total);
      CloseBlock(rewardBase, userRewards, stamp, closed);
    }

    /** Closes the block; `taken` goes to the storing of its rewards, which rolls back by it when it fails. */
    method DistributeRewards(stamp: int, closed: int) returns (taken: R.Snapshots)
      requires Valid()
      modifies this`number, this`startedAt, this`nextAt, this`progress, this`lastReward, this`roundWork, this`history
      modifies this`minted, miners
      ensures Valid() && View() == M.Distribute(old(View()), stamp, closed) && taken == R.Taken(old(View()))
    {
      var total := TotalWork();
      taken := [];
      if total <= 0.0 {
        DistributeNoReward(stamp, closed);
      } else {
        taken := DistributeBlockReward(total, stamp, closed);
      }
    }

    method UpdateProgress(now: int)
      requires Valid()
      modifies this`progress
      ensures Valid() && View() == old(View()).(progress := M.Progress(old(View()), now))
    {
      var elapsed := if now - startedAt > 0 then now - startedAt else 0;
      var share := elapsed as real / duration as real * M.PROGRESS_TARGET;
      progress := if share < M.PROGRESS_TARGET then share else M.PROGRESS_TARGET;
    }

    method Tick(now: int, stamp: int, closed: int) returns (taken: R.Snapshots)
      requires Valid()
      modifies this`number, this`startedAt, this`nextAt, this`progress, this`minted, this`lastReward, this`roundWork
      modifies this`rate, this`activeMiners, this`history, miners
      ensures Valid()
      ensures View() == M.Tick(old(View()), now, stamp, closed)
      ensures M.Shaped(old(View())) && taken == R.Paying(old(View()), M.OpTick(now, stamp, closed))
    {
      ViewShaped();
      ghost var e := View();
      rate, activeMiners := WorkMiners(now);
      ghost var a := View();
      assert a == M.Accrued(e, now);
      taken := [];
      if now >= nextAt { taken := DistributeRewards(stamp, closed); }
      assert View() == if M.Closes(a, now) then M.Distribute(a, stamp, closed) else a;
      UpdateProgress(now);
    }
  }

  function Closed(e: M.Engine, reward: real, users: map<nat, real>, stamp: int, closed: int): M.Engine {
    e.(lastReward := reward, number := e.number + 1, startedAt := closed, nextAt := closed + e.duration,
       progress := 0.0,
       history := M.Recorded(e.history, M.Block(e.number, reward, e.activeMiners, stamp, users)))
  }

  lemma {:induction false} DistributeNothing(e: M.Engine, stamp: int, closed: int)
    requires |e.work| == |e.miners| && M.Sum(e.work) <= 0.0
    ensures M.Distribute(e, stamp, closed) == Closed(e.(work := M.Zeros(|e.miners|)), 0.0, map[], stamp, closed)
  {
    var pays := M.Pays(e.rewardBase, e.work);
    assert pays == M.Zeros(|e.miners|);
    T.SumZeros(|e.miners|);
    assert M.PaidAll(e.miners, pays) == e.miners;
  }

  lemma {:induction false} DistributeReward(e: M.Engine, stamp: int, closed: int)
    requires |e.work| == |e.miners| && M.Sum(e.work) > 0.0
    ensures var pays := M.Pays(e.rewardBase, e.work);
            var paid := e.(miners := M.PaidAll(e.miners, pays), work := M.Zeros(|e.miners|),
                           minted := e.minted + M.Sum(pays));
            M.Distribute(e, stamp, closed)
              == Closed(paid, e.rewardBase, M.UserRewards(e.miners, e.work, pays), stamp, closed)
  {
  }

  lemma {:induction false} NextRate(rates: seq<real>, i: nat)
    requires i < |rates|
    ensures M.Sum(rates[..i + 1]) == M.Sum(rates[..i]) + rates[i]
    ensures M.CountPositive(rates[..i + 1]) == M.CountPositive(rates[..i]) + if rates[i] > 0.0 then 1 else 0
  {
    assert rates[..i + 1][..i] == rates[..i];
  }

  lemma {:induction false} NextRewards(ms: seq<M.Miner>, work: seq<real>, pays: seq<real>, i: nat)
    requires i < |ms| == |work| == |pays|
    ensures var front := M.UserRewards(ms[..i], work[..i], pays[..i]);
            M.UserRewards(ms[..i + 1], work[..i + 1], pays[..i + 1])
              == if work[i] > 0.0 then front[ms[i].user := pays[i]] else front
  {
    assert ms[..i + 1][..i] == ms[..i] && work[..i + 1][..i] == work[..i] && pays[..i + 1][..i] == pays[..i];
  }
}
