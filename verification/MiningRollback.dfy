/** Blocks whose payout could not be stored: the engine takes their payment back, at any later moment. */
module MiningRollback {
  import opened Tables
  import opened MiningModel
  import opened MiningTheorems

  /** A paid miner before its pay, and the pay. */
  datatype Snapshot = Snapshot(balance: real, lifetime: real, reward: real)

  /** A block's snapshots by miner id. */
  type Snapshots = seq<Option<Snapshot>>

  /** What a closing tick keeps for a rollback; nothing if nobody is paid. */
  function Taken(a: Engine): Snapshots
    requires |a.work| == |a.miners|
  {
    if Sum(a.work) > 0.0 then
      seq(|a.miners|, i requires 0 <= i < |a.miners| =>
        if a.work[i] > 0.0
        then Some(Snapshot(a.miners[i].balance, a.miners[i].lifetime, Pay(a.rewardBase, a.work[i], Sum(a.work))))
        else None)
    else []
  }

  function Rewarded(t: Snapshots): real {
    if t == [] then 0.0
    else Rewarded(t[..|t| - 1]) + if t[|t| - 1].Some? then t[|t| - 1].value.reward else 0.0
  }

  function RestoredAt(m: Miner, t: Snapshots, i: nat): Miner {
    if i < |t| && t[i].Some? then m.(balance := t[i].value.balance, lifetime := t[i].value.lifetime) else m
  }

  function Restored(ms: seq<Miner>, t: Snapshots): seq<Miner> {
    seq(|ms|, i requires 0 <= i < |ms| => RestoredAt(ms[i], t, i))
  }

  /** Balances and lifetimes go back to what they were before the block, whatever happened since. */
  function RolledBack(e: Engine, t: Snapshots): Engine {
    e.(miners := Restored(e.miners, t), minted := e.minted - Rewarded(t))
  }

  // ---- Runs ----

  /** `paid` holds the paid blocks that were not rolled back, oldest first. */
  datatype System = System(e: Engine, paid: seq<Snapshots>)

  datatype Event =
    | Act(op: Op)
    | Lost(block: nat)

  function Paying(e: Engine, op: Op): Snapshots
    requires Shaped(e)
  {
    if op.OpTick? && Closes(e, op.now) then Taken(Accrued(e, op.now)) else []
  }

  function Next(s: System, ev: Event): (r: System)
    requires Shaped(s.e)
    ensures Shaped(r.e)
  {
    match ev
    case Act(op) => System(Step(s.e, op), if Paying(s.e, op) != [] then s.paid + [Paying(s.e, op)] else s.paid)
    case Lost(k) => if k < |s.paid| then System(RolledBack(s.e, s.paid[k]), s.paid[..k] + s.paid[k + 1..]) else s
  }

  function Run(s: System, evs: seq<Event>): (r: System)
    requires Shaped(s.e)
    ensures Shaped(r.e)
  {
    if evs == [] then s else Next(Run(s, evs[..|evs| - 1]), evs[|evs| - 1])
  }

  /** Lifetimes that new miners bring during the run. */
  function BroughtIn(s: System, evs: seq<Event>): real
    requires Shaped(s.e)
  {
    if evs == [] then 0.0
    else
      var front, ev := evs[..|evs| - 1], evs[|evs| - 1];
      BroughtIn(s, front) + if ev.Act? then BroughtBy(Run(s, front).e, ev.op) else 0.0
  }

  // ---- One rollback ----

  /** What the block's miners have gained since its snapshots. */
  function Gained(ms: seq<Miner>, t: Snapshots): real
    requires |t| <= |ms|
  {
    if t == [] then 0.0
    else
      var n := |t| - 1;
      Gained(ms, t[..n]) + if t[n].Some? then ms[n].lifetime - t[n].value.lifetime else 0.0
  }

  lemma {:induction false} RestoredLifetimes(ms: seq<Miner>, t: Snapshots)
    requires |t| <= |ms|
    ensures Lifetimes(Restored(ms, t)) == Lifetimes(ms) - Gained(ms, t)
    decreases |ms|
  {
    if ms == [] {
    } else {
      var n := |ms| - 1;
      if |t| == |ms| {
        RestoredLifetimes(ms[..n], t[..n]);
        GainedFront(ms, t[..n]);
        assert Restored(ms, t)[..n] == Restored(ms[..n], t[..n]);
      } else {
        RestoredLifetimes(ms[..n], t);
        GainedFront(ms, t);
        assert Restored(ms, t)[..n] == Restored(ms[..n], t);
      }
    }
  }

  /** Later miners do not matter. */
  lemma {:induction false} GainedFront(ms: seq<Miner>, t: Snapshots)
    requires |t| < |ms|
    ensures Gained(ms[..|ms| - 1], t) == Gained(ms, t)
  {
    if t != [] { GainedFront(ms, t[..|t| - 1]); }
  }

  /** Lifetimes less minting: what runs of the engine keep, apart from lifetimes brought in. */
  function Books(e: Engine): real {
    Lifetimes(e.miners) - e.minted
  }

  /** A rollback keeps lifetimes and minting in step exactly if the miners have gained no more than the block's pay. */
  lemma {:induction false} RollbackExactly(e: Engine, t: Snapshots)
    requires |t| <= |e.miners|
    ensures Books(RolledBack(e, t)) == Books(e) <==> Gained(e.miners, t) == Rewarded(t)
  {
    RestoredLifetimes(e.miners, t);
  }

  // ---- Rollbacks in a run ----

  /** Every block concerns miners that are there. */
  ghost predicate Known(s: System) {
    forall k | 0 <= k < |s.paid| :: |s.paid[k]| <= |s.e.miners|
  }

  lemma {:induction false} NextKnown(s: System, ev: Event)
    requires Shaped(s.e) && Known(s)
    ensures Known(Next(s, ev))
  {
    if ev.Act? {
      StepMiners(s.e, ev.op);
      var t := Next(s, ev);
      forall k | 0 <= k < |t.paid| ensures |t.paid[k]| <= |t.e.miners| {
        if k < |s.paid| { assert t.paid[k] == s.paid[k]; }
      }
    } else if ev.block < |s.paid| {
      var t := Next(s, ev);
      forall k | 0 <= k < |t.paid| ensures |t.paid[k]| <= |t.e.miners| {
        assert t.paid[k] == s.paid[if k < ev.block then k else k + 1];
      }
    }
  }

  lemma {:induction false} StepMiners(e: Engine, op: Op)
    requires Shaped(e)
    ensures |e.miners| <= |Step(e, op).miners|
    ensures |Paying(e, op)| <= |e.miners|
  {
  }

  lemma {:induction false} RunKnown(s: System, evs: seq<Event>)
    requires Shaped(s.e) && s.paid == []
    ensures Known(Run(s, evs))
    decreases |evs|
  {
    if evs != [] {
      RunKnown(s, evs[..|evs| - 1]);
      NextKnown(Run(s, evs[..|evs| - 1]), evs[|evs| - 1]);
    }
  }

  /** Throughout the run, minting has grown as lifetimes have. */
  ghost predicate BooksHold(s: System, evs: seq<Event>)
    requires Shaped(s.e)
  {
    && Books(Run(s, evs).e) == Books(s.e) + BroughtIn(s, evs)
    && (evs != [] ==> BooksHold(s, evs[..|evs| - 1]))
  }

  /** A rollback meets its miners with just the block's pay on top of their snapshots. */
  ghost predicate TakesBackPay(s: System, ev: Event)
    requires Shaped(s.e)
  {
    ev.Lost? && ev.block < |s.paid| && |s.paid[ev.block]| <= |s.e.miners| ==>
      Gained(s.e.miners, s.paid[ev.block]) == Rewarded(s.paid[ev.block])
  }

  ghost predicate AlwaysTakesBackPay(s: System, evs: seq<Event>)
    requires Shaped(s.e)
  {
    evs != [] ==>
      var front := evs[..|evs| - 1];
      AlwaysTakesBackPay(s, front) && TakesBackPay(Run(s, front), evs[|evs| - 1])
  }

  lemma {:induction false} NextBooksExactly(s: System, ev: Event)
    requires Shaped(s.e) && Known(s)
    ensures Books(Next(s, ev).e) == Books(s.e) + (if ev.Act? then BroughtBy(s.e, ev.op) else 0.0) <==>
              TakesBackPay(s, ev)
  {
    match ev
    case Act(op) => StepLifetimes(s.e, op);
    case Lost(k) => if k < |s.paid| { RollbackExactly(s.e, s.paid[k]); }
  }

  lemma {:induction false} BooksByGains(s: System, evs: seq<Event>)
    requires Shaped(s.e) && s.paid == []
    ensures BooksHold(s, evs) <==> AlwaysTakesBackPay(s, evs)
    decreases |evs|
  {
    if evs != [] {
      var front := evs[..|evs| - 1];
      BooksByGains(s, front);
      RunKnown(s, front);
      NextBooksExactly(Run(s, front), evs[|evs| - 1]);
    }
  }

  // ---- Blocks that share a miner ----

  predicate PaidMiner(t: Snapshots, i: nat) {
    i < |t| && t[i].Some?
  }

  function RewardAt(t: Snapshots, i: nat): real {
    if PaidMiner(t, i) then t[i].value.reward else 0.0
  }

  /** What miner `i` got from the standing blocks from `k` on. */
  function RewardsFrom(paid: seq<Snapshots>, k: nat, i: nat): real {
    if k >= |paid| then 0.0 else RewardsFrom(paid[..|paid| - 1], k, i) + RewardAt(paid[|paid| - 1], i)
  }

  /** A later block that was not rolled back paid one of block `k`'s miners too. */
  predicate SharesLater(paid: seq<Snapshots>, k: nat)
    requires k < |paid|
  {
    exists l, i :: k < l < |paid| && 0 <= i < |paid[k]| && PaidMiner(paid[k], i) && PaidMiner(paid[l], i)
  }

  predicate Clear(s: System, ev: Event) {
    ev.Lost? && ev.block < |s.paid| ==> !SharesLater(s.paid, ev.block)
  }

  /** No rollback of the run takes back a block of which a later standing one also paid a miner. */
  predicate AlwaysClear(s: System, evs: seq<Event>)
    requires Shaped(s.e)
  {
    evs != [] ==>
      var front := evs[..|evs| - 1];
      AlwaysClear(s, front) && Clear(Run(s, front), evs[|evs| - 1])
  }

  /** A miner paid by block `k` has its lifetime of before and what it got from this and the later standing blocks. */
  ghost predicate StandsAt(ms: seq<Miner>, paid: seq<Snapshots>, k: nat, i: nat)
    requires k < |paid|
  {
    PaidMiner(paid[k], i) ==> i < |ms| && ms[i].lifetime == paid[k][i].value.lifetime + RewardsFrom(paid, k, i)
  }

  ghost predicate Standing(ms: seq<Miner>, paid: seq<Snapshots>) {
    forall k: nat, i: nat | k < |paid| :: StandsAt(ms, paid, k, i)
  }

  ghost predicate Rewarding(paid: seq<Snapshots>) {
    forall k, i | 0 <= k < |paid| && 0 <= i < |paid[k]| && PaidMiner(paid[k], i) :: paid[k][i].value.reward > 0.0
  }

  lemma {:induction false} FromAppend(paid: seq<Snapshots>, t: Snapshots, k: nat, i: nat)
    requires k <= |paid|
    ensures RewardsFrom(paid + [t], k, i) == RewardsFrom(paid, k, i) + RewardAt(t, i)
  {
    assert (paid + [t])[..|paid|] == paid;
  }

  lemma {:induction false} FromNext(paid: seq<Snapshots>, k: nat, i: nat)
    requires k < |paid|
    ensures RewardsFrom(paid, k, i) == RewardAt(paid[k], i) + RewardsFrom(paid, k + 1, i)
    decreases |paid|
  {
    if k + 1 < |paid| {
      FromNext(paid[..|paid| - 1], k, i);
    } else {
      assert RewardsFrom(paid[..|paid| - 1], k, i) == 0.0;
    }
  }

  /** Without block `k`, sums from before it lack its reward, and sums from behind it move one place down. */
  lemma {:induction false} FromWithout(paid: seq<Snapshots>, k: nat, j: nat, i: nat)
    requires k < |paid|
    ensures RewardsFrom(paid[..k] + paid[k + 1..], j, i)
         == if j < k then RewardsFrom(paid, j, i) - RewardAt(paid[k], i) else RewardsFrom(paid, j + 1, i)
    decreases |paid|
  {
    var n := |paid| - 1;
    var less := paid[..k] + paid[k + 1..];
    if k == n {
      assert less == paid[..n];
    } else {
      assert less[..n - 1] == paid[..n][..k] + paid[..n][k + 1..];
      FromWithout(paid[..n], k, j, i);
    }
  }

  lemma {:induction false} NoneFrom(paid: seq<Snapshots>, k: nat, i: nat)
    requires forall l | k <= l < |paid| :: !PaidMiner(paid[l], i)
    ensures RewardsFrom(paid, k, i) == 0.0
    decreases |paid|
  {
    if k < |paid| { NoneFrom(paid[..|paid| - 1], k, i); }
  }

  lemma {:induction false} SomeFrom(paid: seq<Snapshots>, k: nat, i: nat)
    requires Rewarding(paid)
    ensures RewardsFrom(paid, k, i) >= 0.0
    ensures RewardsFrom(paid, k, i) > 0.0 <==> exists l :: k <= l < |paid| && PaidMiner(paid[l], i)
    decreases |paid|
  {
    if k < |paid| {
      var front, last := paid[..|paid| - 1], paid[|paid| - 1];
      SomeFrom(front, k, i);
      if l :| k <= l < |front| && PaidMiner(front[l], i) { assert PaidMiner(paid[l], i); }
      if l :| k <= l < |paid| && PaidMiner(paid[l], i) { assert l < |front| ==> PaidMiner(front[l], i); }
    }
  }

  // ---- What keeps standing ----

  /** A step adds to lifetimes what its block pays, and its snapshots are the lifetimes before. */
  lemma {:induction false} StepPays(e: Engine, op: Op, i: nat)
    requires Shaped(e) && i < |e.miners|
    ensures var t, ms := Paying(e, op), Step(e, op).miners;
            && i < |ms| && ms[i].lifetime == e.miners[i].lifetime + RewardAt(t, i)
            && (PaidMiner(t, i) ==> t[i].value.lifetime == e.miners[i].lifetime)
  {
    if op.OpTick? && Closes(e, op.now) {
      var a := Accrued(e, op.now);
      assert Step(e, op).miners == PaidAll(a.miners, Pays(a.rewardBase, a.work));
    }
  }

  lemma {:induction false} ActStanding(s: System, op: Op)
    requires Shaped(s.e) && Standing(s.e.miners, s.paid)
    ensures Standing(Next(s, Act(op)).e.miners, Next(s, Act(op)).paid)
  {
    var t, r := Paying(s.e, op), Next(s, Act(op));
    StepMiners(s.e, op);
    forall k: nat, i: nat | k < |r.paid| ensures StandsAt(r.e.miners, r.paid, k, i) {
      if PaidMiner(r.paid[k], i) {
        if k < |s.paid| { assert r.paid[k] == s.paid[k] && StandsAt(s.e.miners, s.paid, k, i); }
        StepPays(s.e, op, i);
        if t != [] {
          FromAppend(s.paid, t, k, i);
          if k == |s.paid| { assert RewardsFrom(s.paid, k, i) == 0.0; }
        }
      }
    }
  }

  lemma {:induction false} ClearTop(ms: seq<Miner>, paid: seq<Snapshots>, k: nat, i: nat)
    requires Standing(ms, paid) && k < |paid| && !SharesLater(paid, k) && PaidMiner(paid[k], i)
    ensures i < |ms| && ms[i].lifetime == paid[k][i].value.lifetime + paid[k][i].value.reward
  {
    assert StandsAt(ms, paid, k, i);
    FromNext(paid, k, i);
    NoneFrom(paid, k + 1, i);
  }

  lemma {:induction false} LostStanding(s: System, k: nat)
    requires Shaped(s.e) && Standing(s.e.miners, s.paid) && Clear(s, Lost(k))
    ensures Standing(Next(s, Lost(k)).e.miners, Next(s, Lost(k)).paid)
  {
    if k < |s.paid| {
      var r := Next(s, Lost(k));
      forall j: nat, i: nat | j < |r.paid| ensures StandsAt(r.e.miners, r.paid, j, i) {
        if PaidMiner(r.paid[j], i) { StillStands(s, k, j, i); }
      }
    }
  }

  /** A miner of another block: its lifetime falls by the pay of block `k`, if that paid it at all. */
  lemma {:induction false} StillStands(s: System, k: nat, j: nat, i: nat)
    requires Shaped(s.e) && Standing(s.e.miners, s.paid) && k < |s.paid| && !SharesLater(s.paid, k)
    requires var paid := s.paid[..k] + s.paid[k + 1..]; j < |paid| && PaidMiner(paid[j], i)
    ensures StandsAt(RolledBack(s.e, s.paid[k]).miners, s.paid[..k] + s.paid[k + 1..], j, i)
  {
    var was := if j < k then j else j + 1;
    assert (s.paid[..k] + s.paid[k + 1..])[j] == s.paid[was];
    assert StandsAt(s.e.miners, s.paid, was, i);
    FromWithout(s.paid, k, j, i);
    if PaidMiner(s.paid[k], i) {
      assert PaidMiner(s.paid[was], i);
      assert was < k;
      ClearTop(s.e.miners, s.paid, k, i);
    }
  }

  lemma {:induction false} ClearStanding(s: System, evs: seq<Event>)
    requires Shaped(s.e) && s.paid == [] && AlwaysClear(s, evs)
    ensures Standing(Run(s, evs).e.miners, Run(s, evs).paid)
    decreases |evs|
  {
    if evs != [] {
      var front, ev := evs[..|evs| - 1], evs[|evs| - 1];
      ClearStanding(s, front);
      match ev
      case Act(op) => ActStanding(Run(s, front), op);
      case Lost(k) => LostStanding(Run(s, front), k);
    }
  }

  lemma {:induction false} PayingRewards(e: Engine, op: Op)
    requires Shaped(e) && e.rewardBase > 0.0
    ensures forall i | 0 <= i < |Paying(e, op)| && PaidMiner(Paying(e, op), i) :: Paying(e, op)[i].value.reward > 0.0
  {
    if op.OpTick? && Closes(e, op.now) {
      var a := Accrued(e, op.now);
      if Sum(a.work) > 0.0 {
        forall i | 0 <= i < |a.work| && a.work[i] > 0.0 ensures Pay(a.rewardBase, a.work[i], Sum(a.work)) > 0.0 {
          PayPositive(a.rewardBase, a.work[i], Sum(a.work));
        }
      }
    }
  }

  lemma {:induction false} PayPositive(reward: real, work: real, total: real)
    requires reward > 0.0 && work > 0.0 && total > 0.0
    ensures Pay(reward, work, total) > 0.0
  {
    assert work / total > 0.0;
  }

  lemma {:induction false} RunRewards(s: System, evs: seq<Event>)
    requires Shaped(s.e) && s.paid == [] && s.e.rewardBase > 0.0
    ensures Run(s, evs).e.rewardBase == s.e.rewardBase && Rewarding(Run(s, evs).paid)
    decreases |evs|
  {
    if evs != [] {
      var front, ev := evs[..|evs| - 1], evs[|evs| - 1];
      RunRewards(s, front);
      NextRewards(Run(s, front), ev);
    }
  }

  lemma {:induction false} NextRewards(s: System, ev: Event)
    requires Shaped(s.e) && s.e.rewardBase > 0.0 && Rewarding(s.paid)
    ensures Next(s, ev).e.rewardBase == s.e.rewardBase && Rewarding(Next(s, ev).paid)
  {
    var r := Next(s, ev);
    match ev
    case Act(op) =>
      PayingRewards(s.e, op);
      RewardStep(s.e, op);
      forall k, i | 0 <= k < |r.paid| && 0 <= i < |r.paid[k]| && PaidMiner(r.paid[k], i)
        ensures r.paid[k][i].value.reward > 0.0
      {
        if k < |s.paid| { assert r.paid[k] == s.paid[k]; }
      }
    case Lost(j) =>
      if j < |s.paid| {
        forall k, i | 0 <= k < |r.paid| && 0 <= i < |r.paid[k]| && PaidMiner(r.paid[k], i)
          ensures r.paid[k][i].value.reward > 0.0
        {
          assert r.paid[k] == s.paid[if k < j then k else k + 1];
        }
      }
  }

  lemma {:induction false} RewardStep(e: Engine, op: Op)
    requires Shaped(e)
    ensures Step(e, op).rewardBase == e.rewardBase
  {
  }

  // ---- The exact condition ----

  /** What the first `n` miners of block `k`, as far as it paid them, got from later standing blocks. */
  function LaterRewards(paid: seq<Snapshots>, k: nat, n: nat): real
    requires k < |paid| && n <= |paid[k]|
  {
    if n == 0 then 0.0
    else LaterRewards(paid, k, n - 1) + if PaidMiner(paid[k], n - 1) then RewardsFrom(paid, k + 1, n - 1) else 0.0
  }

  lemma {:induction false} GainedSince(ms: seq<Miner>, paid: seq<Snapshots>, k: nat, n: nat)
    requires Standing(ms, paid) && k < |paid| && n <= |paid[k]| <= |ms|
    ensures Gained(ms, paid[k][..n]) == Rewarded(paid[k][..n]) + LaterRewards(paid, k, n)
  {
    if n > 0 {
      GainedSince(ms, paid, k, n - 1);
      assert paid[k][..n][..n - 1] == paid[k][..n - 1];
      FromNext(paid, k, n - 1);
      assert StandsAt(ms, paid, k, n - 1);
    }
  }

  lemma {:induction false} NoLaterRewards(paid: seq<Snapshots>, k: nat, n: nat)
    requires k < |paid| && n <= |paid[k]| && !SharesLater(paid, k)
    ensures LaterRewards(paid, k, n) == 0.0
  {
    if n > 0 {
      NoLaterRewards(paid, k, n - 1);
      if PaidMiner(paid[k], n - 1) { NoneFrom(paid, k + 1, n - 1); }
    }
  }

  lemma {:induction false} SomeLaterRewards(paid: seq<Snapshots>, k: nat, n: nat, l: nat, i: nat)
    requires k < l < |paid| && i < n <= |paid[k]| && PaidMiner(paid[k], i) && PaidMiner(paid[l], i) && Rewarding(paid)
    ensures LaterRewards(paid, k, n) > 0.0
  {
    SomeFrom(paid, k + 1, n - 1);
    if i < n - 1 {
      SomeLaterRewards(paid, k, n - 1, l, i);
    } else {
      LaterNotNegative(paid, k, n - 1);
    }
  }

  lemma {:induction false} LaterNotNegative(paid: seq<Snapshots>, k: nat, n: nat)
    requires k < |paid| && n <= |paid[k]| && Rewarding(paid)
    ensures LaterRewards(paid, k, n) >= 0.0
  {
    if n > 0 {
      LaterNotNegative(paid, k, n - 1);
      SomeFrom(paid, k + 1, n - 1);
    }
  }

  lemma {:induction false} WholeBlock(s: System, k: nat)
    requires Shaped(s.e) && Known(s) && Standing(s.e.miners, s.paid) && k < |s.paid|
    ensures Gained(s.e.miners, s.paid[k]) == Rewarded(s.paid[k]) + LaterRewards(s.paid, k, |s.paid[k]|)
  {
    GainedSince(s.e.miners, s.paid, k, |s.paid[k]|);
    assert s.paid[k][..|s.paid[k]|] == s.paid[k];
  }

  lemma {:induction false} ClearTakesBack(s: System, ev: Event)
    requires Shaped(s.e) && Known(s) && Standing(s.e.miners, s.paid) && Clear(s, ev)
    ensures TakesBackPay(s, ev)
  {
    if ev.Lost? && ev.block < |s.paid| {
      WholeBlock(s, ev.block);
      NoLaterRewards(s.paid, ev.block, |s.paid[ev.block]|);
    }
  }

  lemma {:induction false} SharedTakesMore(s: System, ev: Event)
    requires Shaped(s.e) && Known(s) && Standing(s.e.miners, s.paid) && Rewarding(s.paid) && !Clear(s, ev)
    ensures !TakesBackPay(s, ev)
  {
    var paid, k := s.paid, ev.block;
    var l, i :| k < l < |paid| && 0 <= i < |paid[k]| && PaidMiner(paid[k], i) && PaidMiner(paid[l], i);
    WholeBlock(s, k);
    SomeLaterRewards(paid, k, |paid[k]|, l, i);
  }

  lemma {:induction false} ClearAlwaysTakesBack(s: System, evs: seq<Event>)
    requires Shaped(s.e) && s.paid == [] && AlwaysClear(s, evs)
    ensures AlwaysTakesBackPay(s, evs)
    decreases |evs|
  {
    if evs != [] {
      var front := evs[..|evs| - 1];
      ClearAlwaysTakesBack(s, front);
      RunKnown(s, front);
      ClearStanding(s, front);
      ClearTakesBack(Run(s, front), evs[|evs| - 1]);
    }
  }

  lemma {:induction false} TakesBackOnlyClear(s: System, evs: seq<Event>)
    requires Shaped(s.e) && s.paid == [] && s.e.rewardBase > 0.0 && AlwaysTakesBackPay(s, evs)
    ensures AlwaysClear(s, evs)
    decreases |evs|
  {
    if evs != [] {
      var front := evs[..|evs| - 1];
      TakesBackOnlyClear(s, front);
      RunKnown(s, front);
      RunRewards(s, front);
      ClearStanding(s, front);
      if !Clear(Run(s, front), evs[|evs| - 1]) { SharedTakesMore(Run(s, front), evs[|evs| - 1]); }
    }
  }

  /**
   * With rollbacks of any blocks at any moment, minting agrees with lifetimes throughout a run if and only if no
   * rollback takes back a block of which a later block, not rolled back yet, also paid a miner.
   */
  lemma {:induction false} BooksHoldExactly(s: System, evs: seq<Event>)
    requires Shaped(s.e) && s.paid == [] && s.e.rewardBase > 0.0
    ensures BooksHold(s, evs) <==> AlwaysClear(s, evs)
  {
    BooksByGains(s, evs);
    if AlwaysTakesBackPay(s, evs) { TakesBackOnlyClear(s, evs); }
    if AlwaysClear(s, evs) { ClearAlwaysTakesBack(s, evs); }
  }

  /** Only the newest standing block is ever rolled back. */
  predicate NewestFirst(s: System, evs: seq<Event>)
    requires Shaped(s.e)
  {
    evs != [] ==>
      var front, ev := evs[..|evs| - 1], evs[|evs| - 1];
      NewestFirst(s, front) && (ev.Lost? ==> ev.block + 1 >= |Run(s, front).paid|)
  }

  lemma {:induction false} NewestIsClear(s: System, evs: seq<Event>)
    requires Shaped(s.e) && NewestFirst(s, evs)
    ensures AlwaysClear(s, evs)
    decreases |evs|
  {
    if evs != [] { NewestIsClear(s, evs[..|evs| - 1]); }
  }

  /** Newest first, such as each block before the next one pays, is clear, whatever the reward is. */
  lemma {:induction false} NewestFirstKeepsBooks(s: System, evs: seq<Event>)
    requires Shaped(s.e) && s.paid == [] && NewestFirst(s, evs)
    ensures BooksHold(s, evs)
  {
    NewestIsClear(s, evs);
    ClearAlwaysTakesBack(s, evs);
    BooksByGains(s, evs);
  }

  // ---- Balances ----

  ghost predicate SolventBlocks(paid: seq<Snapshots>) {
    forall k, i | 0 <= k < |paid| && 0 <= i < |paid[k]| && paid[k][i].Some? :: paid[k][i].value.balance >= 0.0
  }

  predicate CoveredEvents(s: System, evs: seq<Event>)
    requires Shaped(s.e)
  {
    evs != [] ==>
      var front, ev := evs[..|evs| - 1], evs[|evs| - 1];
      CoveredEvents(s, front) && (ev.Act? ==> Covered(Run(s, front).e, ev.op))
  }

  ghost predicate SolventThroughout(s: System, evs: seq<Event>)
    requires Shaped(s.e)
  {
    Solvent(Run(s, evs).e) && (evs != [] ==> SolventThroughout(s, evs[..|evs| - 1]))
  }

  lemma {:induction false} PayingSolvent(e: Engine, op: Op)
    requires Shaped(e) && Solvent(e)
    ensures forall i | 0 <= i < |Paying(e, op)| && Paying(e, op)[i].Some? :: Paying(e, op)[i].value.balance >= 0.0
  {
  }

  lemma {:induction false} NextSolvent(s: System, ev: Event)
    requires Shaped(s.e) && Solvent(s.e) && SolventBlocks(s.paid) && s.e.rewardBase >= 0.0
    ensures var t := Next(s, ev);
            && SolventBlocks(t.paid) && t.e.rewardBase == s.e.rewardBase
            && (Solvent(t.e) <==> (ev.Act? ==> Covered(s.e, ev.op)))
  {
    match ev
    case Act(op) =>
      StepSolvent(s.e, op);
      PayingSolvent(s.e, op);
    case Lost(k) =>
  }

  lemma {:induction false} SolventRun(s: System, evs: seq<Event>)
    requires Shaped(s.e) && Solvent(s.e) && s.paid == [] && s.e.rewardBase >= 0.0 && SolventThroughout(s, evs)
    ensures SolventBlocks(Run(s, evs).paid) && Run(s, evs).e.rewardBase == s.e.rewardBase && Solvent(Run(s, evs).e)
    decreases |evs|
  {
    if evs != [] {
      var front := evs[..|evs| - 1];
      SolventRun(s, front);
      NextSolvent(Run(s, front), evs[|evs| - 1]);
    }
  }

  /** Rollbacks, in whatever order they come, change nothing about when balances stay at zero or above. */
  lemma {:induction false} RunSolventWithRollbacks(s: System, evs: seq<Event>)
    requires Shaped(s.e) && Solvent(s.e) && s.paid == [] && s.e.rewardBase >= 0.0
    ensures SolventThroughout(s, evs) <==> CoveredEvents(s, evs)
    decreases |evs|
  {
    if evs != [] {
      var front := evs[..|evs| - 1];
      RunSolventWithRollbacks(s, front);
      if SolventThroughout(s, front) {
        SolventRun(s, front);
        NextSolvent(Run(s, front), evs[|evs| - 1]);
      }
    }
  }

  // ---- Rollbacks that come too late ----

  /** One miner with hash rate 1, a reward of 1, and a block that any tick from `nextAt` on closes. */
  ghost predicate Lone(e: Engine, m: Miner) {
    && Shaped(e) && e.miners == [m] && e.work == [0.0] && e.rewardBase == 1.0 && e.duration == 1
    && m.pol && m.active && m.base == 1.0 && m.boost == 1.0 && m.boostEndsAt == 0
  }

  lemma {:induction false} LoneBlock(e: Engine, m: Miner, now: int)
    requires Lone(e, m) && e.nextAt <= now
    ensures var op := OpTick(now, now, now);
            && Lone(Step(e, op), Paid(m, 1.0)) && Step(e, op).minted == e.minted + 1.0 && Step(e, op).nextAt == now + 1
            && Paying(e, op) == [Some(Snapshot(m.balance, m.lifetime, 1.0))]
  {
    var a := Accrued(e, now);
    assert a.work == [1.0] && a.miners == [m];
    assert Sum([1.0]) == 1.0;
    var pays := Pays(1.0, a.work);
    assert pays == [1.0] && PaidAll(a.miners, pays) == [Paid(m, 1.0)];
    assert Zeros(1) == [0.0];
  }

  lemma {:induction false} LoneRollback(e: Engine, m: Miner, balance: real, lifetime: real)
    requires Lone(e, m)
    ensures var r := RolledBack(e, [Some(Snapshot(balance, lifetime, 1.0))]);
            Lone(r, m.(balance := balance, lifetime := lifetime)) && r.minted == e.minted - 1.0
  {
    var t := [Some(Snapshot(balance, lifetime, 1.0))];
    assert t[..|t| - 1] == [];
    assert Rewarded(t) == 1.0;
    assert Restored(e.miners, t) == [m.(balance := balance, lifetime := lifetime)];
  }

  lemma {:induction false} LastEvent(s: System, evs: seq<Event>, ev: Event)
    requires Shaped(s.e)
    ensures Run(s, evs + [ev]) == Next(Run(s, evs), ev)
  {
    assert (evs + [ev])[..|evs|] == evs;
  }

  /** The engine after its one miner has joined. */
  function WithLone(): Engine {
    Step(Started(1.0, 1, 0), JoinWith(1, 1.0))
  }

  function LoneMiner(): Miner {
    NewMiner(1, JoinWith(1, 1.0).profile)
  }

  /** Two blocks are paid, and both are rolled back in the order they came. */
  function OldestFirst(): seq<Event> {
    [Act(OpTick(1, 1, 1))] + [Act(OpTick(2, 2, 2))] + [Lost(0)] + [Lost(0)]
  }

  ghost predicate Ends(s: System, minted: real, balance: real, lifetime: real) {
    s.paid == [] && s.e.minted == minted && |s.e.miners| == 1
    && s.e.miners[0].balance == balance && s.e.miners[0].lifetime == lifetime
  }

  lemma {:induction false} TwoBlocks(s: System)
    requires s == System(WithLone(), [])
    ensures var t := Run(s, [Act(OpTick(1, 1, 1))] + [Act(OpTick(2, 2, 2))]);
            && Lone(t.e, Paid(Paid(LoneMiner(), 1.0), 1.0)) && t.e.minted == 2.0
            && t.paid == [[Some(Snapshot(0.0, 0.0, 1.0))], [Some(Snapshot(1.0, 1.0, 1.0))]]
  {
    var one, two := Act(OpTick(1, 1, 1)), Act(OpTick(2, 2, 2));
    var none: seq<Event> := [];
    LastEvent(s, none, one);
    LastEvent(s, [one], two);
    assert none + [one] == [one];
    assert Lone(s.e, LoneMiner());
    LoneBlock(s.e, LoneMiner(), 1);
    LoneBlock(Step(s.e, one.op), Paid(LoneMiner(), 1.0), 2);
  }

  /** Nothing counts as minted in the end, and the miner still has one reward. */
  lemma {:induction false} OldestFirstLeavesReward(s: System)
    requires s == System(WithLone(), [])
    ensures Ends(Run(s, OldestFirst()), 0.0, 1.0, 1.0)
  {
    var front := [Act(OpTick(1, 1, 1))] + [Act(OpTick(2, 2, 2))];
    TwoBlocks(s);
    LastEvent(s, front, Lost(0));
    LastEvent(s, front + [Lost(0)], Lost(0));
    var t := Run(s, front);
    var m := Paid(Paid(LoneMiner(), 1.0), 1.0);
    LoneRollback(t.e, m, 0.0, 0.0);
    var u := Next(t, Lost(0));
    assert u.paid == [[Some(Snapshot(1.0, 1.0, 1.0))]];
    LoneRollback(u.e, m.(balance := 0.0, lifetime := 0.0), 1.0, 1.0);
  }

  /** A block is paid, its miner buys a boost, and the block is rolled back. */
  function BoostBetween(): seq<Event> {
    [Act(OpTick(1, 1, 1))] + [Act(OpBoost(0, 1))] + [Lost(0)]
  }

  /** The rollback gives back the boost's price with the reward's: the miner keeps the boost and has paid nothing. */
  lemma {:induction false} BoostForNothing(s: System)
    requires s == System(WithLone(), [])
    ensures Ends(Run(s, BoostBetween()), 0.0, 0.0, 0.0)
    ensures Run(s, BoostBetween()).e.miners[0].boost == 1.25
  {
    var one, boost := Act(OpTick(1, 1, 1)), Act(OpBoost(0, 1));
    var none: seq<Event> := [];
    LastEvent(s, none, one);
    LastEvent(s, [one], boost);
    LastEvent(s, [one] + [boost], Lost(0));
    assert none + [one] == [one];
    assert Lone(s.e, LoneMiner());
    LoneBlock(s.e, LoneMiner(), 1);
    var m := Paid(LoneMiner(), 1.0);
    var u := Run(s, [one] + [boost]);
    assert u.e.miners == [Boosted(m, 1)];
    assert u.paid == [[Some(Snapshot(0.0, 0.0, 1.0))]];
    var t := u.paid[0];
    assert t[..0] == [];
    assert Restored(u.e.miners, t) == [Boosted(m, 1).(balance := 0.0, lifetime := 0.0)];
  }
}
