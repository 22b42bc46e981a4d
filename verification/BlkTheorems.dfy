/** No window is paid twice, balances agree with the books, and emission per time is bounded. */
module BlkTheorems {
  import opened Tables
  import opened BlkPlan
  import opened BlkCycle

  // ---- Sums over the books ----

  function UserSum(logs: seq<Log>, user: nat): nat {
    if logs == [] then 0
    else UserSum(logs[..|logs| - 1], user) + if logs[|logs| - 1].user == user then logs[|logs| - 1].amount else 0
  }

  function WindowSum(logs: seq<Log>, window: int): nat {
    if logs == [] then 0
    else
      var last := logs[|logs| - 1];
      WindowSum(logs[..|logs| - 1], window) + if last.window == window then last.amount else 0
  }

  function LogSum(logs: seq<Log>): nat {
    if logs == [] then 0 else LogSum(logs[..|logs| - 1]) + logs[|logs| - 1].amount
  }

  /** Total distributed for windows in [from, to). */
  function PaidIn(cycles: seq<Cycle>, from: int, to: int): nat {
    if cycles == [] then 0
    else
      var c := cycles[|cycles| - 1];
      PaidIn(cycles[..|cycles| - 1], from, to) + if from <= c.window < to then c.distributed else 0
  }

  function PaidTotal(cycles: seq<Cycle>): nat {
    if cycles == [] then 0 else PaidTotal(cycles[..|cycles| - 1]) + cycles[|cycles| - 1].distributed
  }

  // ---- The ledger invariant ----

  ghost predicate WindowsUnique(cycles: seq<Cycle>) {
    forall i, j | 0 <= i < j < |cycles| :: cycles[i].window != cycles[j].window
  }

  /** `start` is the ledger's balances before any cycle. */
  ghost predicate LedgerOk(l: Ledger, start: map<nat, int>) {
    && WindowsUnique(l.cycles)
    && (forall i | 0 <= i < |l.cycles| ::
          && l.cycles[i].distributed == WindowSum(l.logs, l.cycles[i].window)
          && (l.cycles[i].distributed == 0 || l.cycles[i].distributed == l.cycles[i].totalReward))
    && (forall w | !Distributed(l, w) :: WindowSum(l.logs, w) == 0)
    && (forall u: nat :: BalanceOf(l, u) == (if u in start then start[u] else 0) + UserSum(l.logs, u))
    && LogSum(l.logs) == PaidTotal(l.cycles)
  }

  lemma {:induction false} CreditAllBooks(l: Ledger, window: int, ps: seq<Payment>)
    ensures var t := CreditAll(l, window, ps);
            && t.cycles == l.cycles
            && WindowSum(t.logs, window) == WindowSum(l.logs, window) + SumPaid(ps)
            && LogSum(t.logs) == LogSum(l.logs) + SumPaid(ps)
            && (forall w | w != window :: WindowSum(t.logs, w) == WindowSum(l.logs, w))
            && (forall u: nat :: BalanceOf(t, u) - UserSum(t.logs, u) == BalanceOf(l, u) - UserSum(l.logs, u))
  {
    if ps != [] {
      var front, p := ps[..|ps| - 1], ps[|ps| - 1];
      CreditAllBooks(l, window, front);
      var before := CreditAll(l, window, front);
      var logs := before.logs + [Log(window, p.user, p.amount)];
      assert logs[..|logs| - 1] == before.logs;
    }
  }

  /** `t` is `l` with cycle `c` recorded and its logs and increments made. */
  ghost predicate Recorded(l: Ledger, t: Ledger, c: Cycle) {
    && t.cycles == l.cycles + [c]
    && WindowSum(t.logs, c.window) == WindowSum(l.logs, c.window) + c.distributed
    && LogSum(t.logs) == LogSum(l.logs) + c.distributed
    && (forall w | w != c.window :: WindowSum(t.logs, w) == WindowSum(l.logs, w))
    && (forall u: nat :: BalanceOf(t, u) - UserSum(t.logs, u) == BalanceOf(l, u) - UserSum(l.logs, u))
  }

  lemma {:induction false} CommitRecords(l: Ledger, window: int, reward: nat, es: seq<Entry>) returns (c: Cycle)
    requires !Distributed(l, window) && Eligible(es)
    ensures Recorded(l, CommitCycle(l, window, reward, es), c)
    ensures c.window == window && c.totalReward == reward && c.distributed == if es == [] then 0 else reward
  {
    if es == [] {
      c := Cycle(window, reward, 0, 0);
    } else {
      TotalPositive(es);
      PlannedSum(es, reward, |es|);
      var ps := Planned(es, reward, |es|);
      c := Cycle(window, reward, SumPaid(ps), |ps|);
      CreditAllBooks(l.(cycles := l.cycles + [c]), window, ps);
    }
  }

  lemma {:induction false} RecordedKeeps(l: Ledger, t: Ledger, c: Cycle, start: map<nat, int>)
    requires LedgerOk(l, start) && Recorded(l, t, c) && !Distributed(l, c.window)
    requires c.distributed == 0 || c.distributed == c.totalReward
    ensures LedgerOk(t, start)
  {
    assert t.cycles[..|t.cycles| - 1] == l.cycles;
    assert t.cycles[|l.cycles|] == c;
    forall i | 0 <= i < |l.cycles| ensures l.cycles[i].window != c.window && t.cycles[i] == l.cycles[i] {
    }
    forall w | Distributed(l, w) ensures Distributed(t, w) {
      var i :| 0 <= i < |l.cycles| && l.cycles[i].window == w;
      assert t.cycles[i].window == w;
    }
  }

  lemma {:induction false} CommitKeeps(l: Ledger, window: int, reward: nat, es: seq<Entry>, start: map<nat, int>)
    requires LedgerOk(l, start) && Eligible(es)
    ensures LedgerOk(CommitCycle(l, window, reward, es), start)
  {
    if !Distributed(l, window) {
      var c := CommitRecords(l, window, reward, es);
      RecordedKeeps(l, CommitCycle(l, window, reward, es), c, start);
    }
  }

  // ---- Runs ----

  ghost predicate Inv(s: System, start: map<nat, int>) {
    && LedgerOk(s.ledger, start)
    && (forall i | 0 <= i < |s.runners| && s.runners[i].Ready? :: Eligible(s.runners[i].entries))
  }

  lemma {:induction false} StepKeeps(s: System, op: Op, start: map<nat, int>)
    requires Inv(s, start)
    ensures Inv(Step(s, op), start)
  {
    if op.runner < |s.runners| {
      var r := s.runners[op.runner];
      match op
      case Check(i, cfg, now) =>
      case Snapshot(i, active) =>
        if r.Checked? { SortKeepsEligible(Above(active, r.minHashrate)); }
      case Commit(i) =>
        if r.Ready? { CommitKeeps(s.ledger, r.window, r.reward, r.entries, start); }
    }
  }

  /** `runners` runners about to start, nothing distributed yet. */
  ghost predicate Initial(s: System) {
    s.ledger.cycles == [] && s.ledger.logs == [] && forall i | 0 <= i < |s.runners| :: s.runners[i].Idle?
  }

  /** Under every interleaving: unique windows, books in balance, each cycle paid in full or not at all. */
  lemma {:induction false} RunKeepsBooks(s: System, ops: seq<Op>)
    requires Initial(s)
    ensures Inv(Exec(s, ops), s.ledger.balance)
    decreases |ops|
  {
    if ops == [] {
    } else {
      RunKeepsBooks(s, ops[..|ops| - 1]);
      StepKeeps(Exec(s, ops[..|ops| - 1]), ops[|ops| - 1], s.ledger.balance);
    }
  }

  lemma {:induction false} CommitCycles(l: Ledger, window: int, reward: nat, es: seq<Entry>)
    ensures var t := CommitCycle(l, window, reward, es);
            && |l.cycles| <= |t.cycles| <= |l.cycles| + 1
            && t.cycles[..|l.cycles|] == l.cycles
            && (|t.cycles| > |l.cycles| ==>
                  t.cycles[|l.cycles|].window == window && t.cycles[|l.cycles|].totalReward == reward)
  {
    if !Distributed(l, window) && es != [] && TotalHashrate(es) > 0.0 {
      var ps := Planned(es, reward, |es|);
      CreditAllBooks(l.(cycles := l.cycles + [Cycle(window, reward, SumPaid(ps), |ps|)]), window, ps);
    }
  }

  /** A recorded cycle stays as it is, and no log row is ever removed. */
  lemma {:induction false} CycleStays(s: System, more: seq<Op>, i: nat)
    requires i < |s.ledger.cycles|
    ensures var t := Exec(s, more).ledger;
            && i < |t.cycles| && t.cycles[i] == s.ledger.cycles[i]
            && |s.ledger.logs| <= |t.logs| && t.logs[..|s.ledger.logs|] == s.ledger.logs
    decreases |more|
  {
    if more != [] {
      CycleStays(s, more[..|more| - 1], i);
      var before := Exec(s, more[..|more| - 1]);
      var op := more[|more| - 1];
      if op.Commit? && op.runner < |before.runners| && before.runners[op.runner].Ready? {
        var r := before.runners[op.runner];
        CommitCycles(before.ledger, r.window, r.reward, r.entries);
        CommitLogs(before.ledger, r.window, r.reward, r.entries);
        assert Exec(s, more).ledger == CommitCycle(before.ledger, r.window, r.reward, r.entries);
        var l, t := before.ledger.logs, Exec(s, more).ledger.logs;
        assert t[..|s.ledger.logs|] == l[..|s.ledger.logs|];
      }
    }
  }

  lemma {:induction false} CreditAllLogs(l: Ledger, window: int, ps: seq<Payment>)
    ensures |l.logs| <= |CreditAll(l, window, ps).logs| && CreditAll(l, window, ps).logs[..|l.logs|] == l.logs
  {
    if ps != [] { CreditAllLogs(l, window, ps[..|ps| - 1]); }
  }

  lemma {:induction false} CommitLogs(l: Ledger, window: int, reward: nat, es: seq<Entry>)
    ensures |l.logs| <= |CommitCycle(l, window, reward, es).logs|
    ensures CommitCycle(l, window, reward, es).logs[..|l.logs|] == l.logs
  {
    if !Distributed(l, window) && es != [] && TotalHashrate(es) > 0.0 {
      var ps := Planned(es, reward, |es|);
      CreditAllLogs(l.(cycles := l.cycles + [Cycle(window, reward, SumPaid(ps), |ps|)]), window, ps);
    }
  }

  lemma {:induction false} RunOn(s: System, ops: seq<Op>, more: seq<Op>)
    ensures Exec(s, ops + more) == Exec(Exec(s, ops), more)
    decreases |more|
  {
    if more == [] {
      assert ops + more == ops;
    } else {
      RunOn(s, ops, more[..|more| - 1]);
      assert (ops + more)[..|ops + more| - 1] == ops + more[..|more| - 1];
    }
  }

  /** Once a window's cycle is recorded, no later run changes that cycle or logs another unit for the window. */
  lemma {:induction false} PaidOnce(s: System, ops: seq<Op>, more: seq<Op>, i: nat)
    requires Initial(s) && i < |Exec(s, ops).ledger.cycles|
    ensures var l, t := Exec(s, ops).ledger, Exec(Exec(s, ops), more).ledger;
            && i < |t.cycles| && t.cycles[i] == l.cycles[i]
            && |l.logs| <= |t.logs| && t.logs[..|l.logs|] == l.logs
            && WindowSum(t.logs, l.cycles[i].window) == WindowSum(l.logs, l.cycles[i].window) == l.cycles[i].distributed
  {
    CycleStays(Exec(s, ops), more, i);
    RunKeepsBooks(s, ops);
    RunKeepsBooks(s, ops + more);
    RunOn(s, ops, more);
  }

  // ---- Emission per time, with one configuration ----

  ghost predicate OneConfig(ops: seq<Op>, cfg: Config) {
    forall i | 0 <= i < |ops| && ops[i].Check? :: ops[i].cfg == cfg
  }

  /** Start of bucket `k`: `k` bucket lengths after the epoch, or before it. */
  function BucketStart(k: int, m: int): int
    decreases if k < 0 then -k else k
  {
    if k == 0 then 0 else if k > 0 then BucketStart(k - 1, m) + m else BucketStart(k + 1, m) - m
  }

  lemma {:induction false} BucketStartTimes(k: int, m: int)
    ensures BucketStart(k, m) == k * m
    decreases if k < 0 then -k else k
  {
    if k > 0 {
      BucketStartTimes(k - 1, m);
    } else if k < 0 {
      BucketStartTimes(k + 1, m);
    }
  }

  /** The window is the start of some bucket. */
  ghost predicate Aligned(window: int, m: int) {
    exists k :: window == BucketStart(k, m)
  }

  ghost predicate OnSchedule(window: int, reward: nat, cfg: Config) {
    Aligned(window, IntervalSec(cfg) * 1000) && reward == RewardUnits(cfg)
  }

  ghost predicate Scheduled(s: System, cfg: Config) {
    && (forall i | 0 <= i < |s.runners| && !s.runners[i].Idle? ::
          OnSchedule(s.runners[i].window, s.runners[i].reward, cfg))
    && (forall i | 0 <= i < |s.ledger.cycles| ::
          OnSchedule(s.ledger.cycles[i].window, s.ledger.cycles[i].totalReward, cfg))
  }

  /** A bucket starts at a multiple of its length and contains its time. */
  lemma {:induction false} BucketContains(now: int, sec: nat)
    requires sec > 0
    ensures Aligned(Bucket(now, sec), sec * 1000)
    ensures Bucket(now, sec) <= now < Bucket(now, sec) + sec * 1000
  {
    var m := sec * 1000;
    BucketStartTimes(now / m, m);
    assert now == now / m * m + now % m;
  }

  lemma {:induction false} RunOnSchedule(s: System, ops: seq<Op>, cfg: Config)
    requires Initial(s) && OneConfig(ops, cfg)
    ensures Scheduled(Exec(s, ops), cfg)
    decreases |ops|
  {
    if ops != [] {
      RunOnSchedule(s, ops[..|ops| - 1], cfg);
      var before, op := Exec(s, ops[..|ops| - 1]), ops[|ops| - 1];
      if op.runner < |before.runners| {
        var r := before.runners[op.runner];
        match op
        case Check(i, c, now) => BucketContains(now, IntervalSec(cfg));
        case Snapshot(i, active) =>
        case Commit(i) =>
          if r.Ready? { CommitCycles(before.ledger, r.window, r.reward, r.entries); }
      }
    }
  }

  function WindowsIn(cycles: seq<Cycle>, from: int, to: int): (ws: set<int>)
    ensures forall w | w in ws :: from <= w < to && exists i :: 0 <= i < |cycles| && cycles[i].window == w
  {
    if cycles == [] then {}
    else
      var w := cycles[|cycles| - 1].window;
      WindowsIn(cycles[..|cycles| - 1], from, to) + if from <= w < to then {w} else {}
  }

  /** The last cycle adds its window and its payment, both counted only inside the range. */
  lemma {:induction false} LastCycleCounts(cycles: seq<Cycle>, from: int, to: int)
    requires cycles != [] && WindowsUnique(cycles)
    ensures var front, c := cycles[..|cycles| - 1], cycles[|cycles| - 1];
            if from <= c.window < to
            then |WindowsIn(cycles, from, to)| == |WindowsIn(front, from, to)| + 1
                 && PaidIn(cycles, from, to) == PaidIn(front, from, to) + c.distributed
            else WindowsIn(cycles, from, to) == WindowsIn(front, from, to)
                 && PaidIn(cycles, from, to) == PaidIn(front, from, to)
  {
    var front, w := cycles[..|cycles| - 1], cycles[|cycles| - 1].window;
    var before := WindowsIn(front, from, to);
    assert w !in before;
    assert WindowsIn(cycles, from, to) == before + if from <= w < to then {w} else {};
  }

  /** `n` rewards. */
  function Rewards(n: nat, reward: nat): nat {
    if n == 0 then 0 else Rewards(n - 1, reward) + reward
  }

  lemma {:induction false} RewardsTimes(n: nat, reward: nat)
    ensures Rewards(n, reward) == n * reward
  {
    if n > 0 {
      RewardsTimes(n - 1, reward);
      assert n * reward == (n - 1) * reward + reward;
    }
  }

  lemma {:induction false} RewardsMonotone(m: nat, n: nat, reward: nat)
    requires m <= n
    ensures Rewards(m, reward) <= Rewards(n, reward)
    decreases n
  {
    if m < n { RewardsMonotone(m, n - 1, reward); }
  }

  ghost predicate WithinReward(cycles: seq<Cycle>, reward: nat) {
    forall i | 0 <= i < |cycles| :: cycles[i].distributed <= reward
  }

  lemma {:induction false} PaidByWindows(cycles: seq<Cycle>, from: int, to: int, reward: nat)
    requires WindowsUnique(cycles) && WithinReward(cycles, reward)
    ensures PaidIn(cycles, from, to) <= Rewards(|WindowsIn(cycles, from, to)|, reward)
  {
    if cycles == [] {
    } else {
      var front, c := cycles[..|cycles| - 1], cycles[|cycles| - 1];
      PaidByWindows(front, from, to, reward);
      LastCycleCounts(cycles, from, to);
      assert c.distributed <= reward;
    }
  }

  lemma {:induction false} LaterStart(j: int, k: int, m: nat)
    requires j <= k
    ensures BucketStart(j, m) <= BucketStart(k, m)
    decreases k - j
  {
    if j < k { LaterStart(j, k - 1, m); }
  }

  /** Every one of these windows starts a bucket in [from, to). */
  ghost predicate BucketsIn(ws: set<int>, m: nat, from: int, to: int) {
    forall w | w in ws :: Aligned(w, m) && from <= w < to
  }

  /** Only one bucket starts in the last bucket length. */
  lemma {:induction false} BelowTop(w: int, m: nat, q: int)
    requires Aligned(w, m) && w < BucketStart(q, m) && w != BucketStart(q - 1, m)
    ensures w < BucketStart(q - 1, m)
  {
    var k :| w == BucketStart(k, m);
    if k >= q {
      LaterStart(q, k, m);
    } else {
      LaterStart(k, q - 1, m);
    }
  }

  /** At most `q - p` buckets start in [p, q) bucket lengths. */
  lemma {:induction false} AlignedInRange(ws: set<int>, m: nat, p: int, q: int)
    requires p <= q && BucketsIn(ws, m, BucketStart(p, m), BucketStart(q, m))
    ensures |ws| <= q - p
    decreases q - p
  {
    if p < q {
      var top := BucketStart(q - 1, m);
      forall w | w in ws - {top} ensures w < top {
        BelowTop(w, m, q);
      }
      AlignedInRange(ws - {top}, m, p, q - 1);
    } else {
      assert forall w | w in ws :: BucketStart(p, m) <= w < BucketStart(p, m);
      assert forall w :: w !in ws;
      assert ws == {};
    }
  }

  ghost predicate AllAligned(cycles: seq<Cycle>, m: nat) {
    forall i | 0 <= i < |cycles| :: Aligned(cycles[i].window, m)
  }

  lemma {:induction false} AlignedWindows(cycles: seq<Cycle>, m: nat, from: int, to: int)
    requires AllAligned(cycles, m)
    ensures BucketsIn(WindowsIn(cycles, from, to), m, from, to)
  {
    forall w | w in WindowsIn(cycles, from, to) ensures Aligned(w, m) && from <= w < to {
      var i :| 0 <= i < |cycles| && cycles[i].window == w;
    }
  }

  /** Recorded windows of buckets `p` to `q - 1`. */
  function WindowsOf(cycles: seq<Cycle>, m: nat, p: int, q: int): nat {
    |WindowsIn(cycles, BucketStart(p, m), BucketStart(q, m))|
  }

  /** Total distributed for them. */
  function PaidForBuckets(cycles: seq<Cycle>, m: nat, p: int, q: int): nat {
    PaidIn(cycles, BucketStart(p, m), BucketStart(q, m))
  }

  lemma {:induction false} WindowCount(cycles: seq<Cycle>, m: nat, p: int, q: int)
    requires p <= q && AllAligned(cycles, m)
    ensures WindowsOf(cycles, m, p, q) <= q - p
  {
    AlignedWindows(cycles, m, BucketStart(p, m), BucketStart(q, m));
    AlignedInRange(WindowsIn(cycles, BucketStart(p, m), BucketStart(q, m)), m, p, q);
  }

  lemma {:induction false} PaidByCount(cycles: seq<Cycle>, m: nat, p: int, q: int, reward: nat)
    requires WindowsUnique(cycles) && WithinReward(cycles, reward)
    ensures PaidForBuckets(cycles, m, p, q) <= Rewards(WindowsOf(cycles, m, p, q), reward)
  {
    PaidByWindows(cycles, BucketStart(p, m), BucketStart(q, m), reward);
  }

  lemma {:induction false} PaidByBuckets(cycles: seq<Cycle>, m: nat, reward: nat, p: int, q: int)
    requires p <= q && WindowsUnique(cycles) && WithinReward(cycles, reward) && AllAligned(cycles, m)
    ensures PaidForBuckets(cycles, m, p, q) <= Rewards(q - p, reward)
  {
    var n := WindowsOf(cycles, m, p, q);
    assert n <= q - p by { WindowCount(cycles, m, p, q); }
    assert PaidForBuckets(cycles, m, p, q) <= Rewards(n, reward) by { PaidByCount(cycles, m, p, q, reward); }
    RewardsMonotone(n, q - p, reward);
  }

  /** With one configuration, windows from bucket `p` up to bucket `q` are paid at most `q - p` rewards in all. */
  lemma {:induction false} EmissionBound(s: System, ops: seq<Op>, cfg: Config, p: int, q: int)
    requires Initial(s) && OneConfig(ops, cfg) && p <= q
    ensures PaidForBuckets(Exec(s, ops).ledger.cycles, IntervalSec(cfg) * 1000, p, q) <= (q - p) * RewardUnits(cfg)
  {
    RunPaidByBuckets(s, ops, cfg, p, q);
    RewardsTimes(q - p, RewardUnits(cfg));
  }

  lemma {:induction false} RunPaidByBuckets(s: System, ops: seq<Op>, cfg: Config, p: int, q: int)
    requires Initial(s) && OneConfig(ops, cfg) && p <= q
    ensures var paid := PaidForBuckets(Exec(s, ops).ledger.cycles, IntervalSec(cfg) * 1000, p, q);
            paid <= Rewards(q - p, RewardUnits(cfg))
  {
    RunKeepsBooks(s, ops);
    RunOnSchedule(s, ops, cfg);
    PaidByBuckets(Exec(s, ops).ledger.cycles, IntervalSec(cfg) * 1000, RewardUnits(cfg), p, q);
  }
}
