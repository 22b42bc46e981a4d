/** What a cycle does: when it runs, who takes part, and what each of them is paid. */
module BlkOutcomes {
  import opened Tables
  import opened BlkPlan
  import opened BlkCycle
  import T = BlkTheorems

  // ---- The check ----

  /** The reward of a cycle in whole units: a boost of 0 counts as 1 and a negative one as 0. */
  function Offered(cfg: Config): nat {
    var x := cfg.reward * (if cfg.boost == 0.0 then 1.0 else if cfg.boost < 0.0 then 0.0 else cfg.boost);
    if x > 0.0 then x.Floor else 0
  }

  ghost predicate Recorded(l: Ledger, window: int) {
    exists i :: 0 <= i < |l.cycles| && l.cycles[i].window == window
  }

  /** The bucket that holds `now` is the window, and a cycle starts for it unless cycles are paused or it has run. */
  lemma {:induction false} CheckOutcome(s: System, i: nat, cfg: Config, now: int, window: int)
    requires i < |s.runners| && s.runners[i].Idle?
    requires var ms := (if cfg.intervalSec == 0 then 600 else cfg.intervalSec) * 1000;
             T.Aligned(window, ms) && window <= now < window + ms
    ensures var t := Step(s, Check(i, cfg, now));
            && t.ledger == s.ledger && t.runners == s.runners[i := t.runners[i]]
            && t.runners[i] == if !cfg.paused && Offered(cfg) > 0 && !Recorded(s.ledger, window)
                               then Checked(window, Offered(cfg), cfg.minHashrate)
                               else Idle
  {
    var sec := IntervalSec(cfg);
    T.BucketContains(now, sec);
    OneBucket(window, Bucket(now, sec), now, sec * 1000);
    assert Recorded(s.ledger, window) <==> Distributed(s.ledger, window);
  }

  /** Every time is in one bucket only. */
  lemma {:induction false} OneBucket(v: int, w: int, now: int, m: nat)
    requires T.Aligned(v, m) && T.Aligned(w, m) && v <= now < v + m && w <= now < w + m
    ensures v == w
  {
    var j :| v == T.BucketStart(j, m);
    var k :| w == T.BucketStart(k, m);
    if j < k {
      T.LaterStart(j + 1, k, m);
    } else if k < j {
      T.LaterStart(k + 1, j, m);
    }
  }

  // ---- The snapshot ----

  /** The entry is above the least hashrate, or above 0 if that is negative. */
  predicate Counts(e: Entry, least: real) {
    e.hashrate > 0.0 && e.hashrate > least
  }

  /** Every entry that counts takes part as often as it is there, and nothing else does. */
  lemma {:induction false} AboveExactly(es: seq<Entry>, least: real, e: Entry)
    ensures multiset(Above(es, least))[e] == if Counts(e, least) then multiset(es)[e] else 0
  {
    if es != [] {
      var n := |es| - 1;
      AboveExactly(es[..n], least, e);
      assert es == es[..n] + [es[n]];
    }
  }

  lemma {:induction false} SnapshotOutcome(s: System, i: nat, active: seq<Entry>)
    requires i < |s.runners| && s.runners[i].Checked?
    ensures var t, r := Step(s, Snapshot(i, active)), s.runners[i];
            && t.ledger == s.ledger && t.runners == s.runners[i := t.runners[i]]
            && t.runners[i].Ready? && t.runners[i].window == r.window && t.runners[i].reward == r.reward
            && Ordered(t.runners[i].entries)
            && forall e: Entry ::
                 multiset(t.runners[i].entries)[e] == if Counts(e, r.minHashrate) then multiset(active)[e] else 0
  {
    var r := s.runners[i];
    SortOrders(Above(active, r.minHashrate));
    forall e: Entry
      ensures multiset(SortByUser(Above(active, r.minHashrate)))[e]
           == if Counts(e, r.minHashrate) then multiset(active)[e] else 0
    {
      AboveExactly(active, r.minHashrate, e);
    }
  }

  // ---- The payout ----

  /** All hashrates together, from the first on. */
  function Pool(es: seq<Entry>): real {
    if es == [] then 0.0 else es[0].hashrate + Pool(es[1..])
  }

  lemma {:induction false} PoolIsTotal(es: seq<Entry>)
    ensures Pool(es) == TotalHashrate(es)
  {
    if |es| == 1 {
      assert es[..0] == [] && es[1..] == [];
    } else if |es| > 1 {
      var n := |es| - 1;
      PoolIsTotal(es[1..]);
      PoolIsTotal(es[1..][..n - 1]);
      PoolIsTotal(es[..n]);
      assert es[..n][1..] == es[1..][..n - 1];
    }
  }

  /** The exact share of entry `i`, rounded down. */
  function Rounded(es: seq<Entry>, reward: nat, i: nat): int
    requires i < |es| && Pool(es) > 0.0
  {
    (reward as real * (es[i].hashrate / Pool(es))).Floor
  }

  function RoundedUpTo(es: seq<Entry>, reward: nat, n: nat): int
    requires n <= |es| && Pool(es) > 0.0
  {
    if n == 0 then 0 else RoundedUpTo(es, reward, n - 1) + Rounded(es, reward, n - 1)
  }

  /** What entry `i` gets: its share rounded down, and the last one what that leaves. */
  function Part(es: seq<Entry>, reward: nat, i: nat): int
    requires i < |es| && Pool(es) > 0.0
  {
    if i < |es| - 1 then Rounded(es, reward, i) else reward - RoundedUpTo(es, reward, |es| - 1)
  }

  lemma {:induction false} RoundedIsShare(es: seq<Entry>, reward: nat, i: nat)
    requires i < |es| && Eligible(es) && Pool(es) > 0.0 && TotalHashrate(es) == Pool(es)
    ensures Share(reward, es[i].hashrate, TotalHashrate(es)) == Rounded(es, reward, i)
  {
    ShareBounds(reward, es[i].hashrate, TotalHashrate(es));
  }

  lemma {:induction false} RoundedSums(es: seq<Entry>, reward: nat, n: nat)
    requires n <= |es| && Eligible(es) && Pool(es) > 0.0 && TotalHashrate(es) == Pool(es)
    ensures RoundedUpTo(es, reward, n) == SharesOf(es, reward, TotalHashrate(es), n)
  {
    if n > 0 {
      RoundedSums(es, reward, n - 1);
      RoundedIsShare(es, reward, n - 1);
    }
  }

  lemma {:induction false} PartIsDue(es: seq<Entry>, reward: nat, i: nat)
    requires i < |es| && Eligible(es) && Pool(es) > 0.0 && TotalHashrate(es) == Pool(es)
    ensures Part(es, reward, i) == Due(es, reward, i)
    ensures Part(es, reward, i) >= 0
  {
    RoundedIsShare(es, reward, i);
    RoundedSums(es, reward, |es| - 1);
    RemainderFits(es, reward);
  }

  ghost predicate UsersApart(es: seq<Entry>) {
    forall i, j | 0 <= i < j < |es| :: es[i].user != es[j].user
  }

  ghost predicate TakesPart(es: seq<Entry>, user: nat) {
    exists i :: 0 <= i < |es| && es[i].user == user
  }

  /** The logs of the first `n` entries: one for each that gets something, in their order. */
  function LogsOf(es: seq<Entry>, window: int, reward: nat, n: nat): seq<Log>
    requires n <= |es| && Pool(es) > 0.0
  {
    if n == 0 then []
    else
      LogsOf(es, window, reward, n - 1)
      + if Part(es, reward, n - 1) > 0 then [Log(window, es[n - 1].user, Part(es, reward, n - 1))] else []
  }

  /** One further log and increment. */
  ghost predicate GetsPart(t: Ledger, u: Ledger, user: nat, window: int, part: int) {
    && u.logs == t.logs + (if part > 0 then [Log(window, user, part)] else [])
    && forall v: nat :: BalanceOf(u, v) == BalanceOf(t, v) + if v == user then part else 0
  }

  lemma {:induction false} CreditOne(l: Ledger, window: int, ps: seq<Payment>, p: Payment)
    requires p.amount > 0
    ensures GetsPart(CreditAll(l, window, ps), CreditAll(l, window, ps + [p]), p.user, window, p.amount)
  {
    assert (ps + [p])[..|ps|] == ps;
  }

  lemma {:induction false} PlannedNext(es: seq<Entry>, reward: nat, n: nat)
    requires 0 < n <= |es| && Eligible(es) && Pool(es) > 0.0 && TotalHashrate(es) == Pool(es)
    ensures var part := Part(es, reward, n - 1);
            Planned(es, reward, n) == Planned(es, reward, n - 1)
              + if part > 0 then [Payment(es[n - 1].user, es[n - 1].hashrate, part)] else []
  {
    PartIsDue(es, reward, n - 1);
  }

  lemma {:induction false} CreditNext(l: Ledger, window: int, front: seq<Payment>, all: seq<Payment>,
                                      user: nat, hashrate: real, part: int)
    requires part >= 0 && all == front + if part > 0 then [Payment(user, hashrate, part)] else []
    ensures GetsPart(CreditAll(l, window, front), CreditAll(l, window, all), user, window, part)
  {
    if part > 0 {
      CreditOne(l, window, front, Payment(user, hashrate, part));
    } else {
      assert all == front;
    }
  }

  lemma {:induction false} OnePaid(l: Ledger, es: seq<Entry>, window: int, reward: nat, n: nat)
    requires 0 < n <= |es| && Eligible(es) && Pool(es) > 0.0 && TotalHashrate(es) == Pool(es)
    ensures GetsPart(CreditAll(l, window, Planned(es, reward, n - 1)), CreditAll(l, window, Planned(es, reward, n)),
                     es[n - 1].user, window, Part(es, reward, n - 1))
  {
    PlannedNext(es, reward, n);
    PartIsDue(es, reward, n - 1);
    CreditNext(l, window, Planned(es, reward, n - 1), Planned(es, reward, n),
               es[n - 1].user, es[n - 1].hashrate, Part(es, reward, n - 1));
  }

  /** The first `n` entries' users have their parts, the others are as before, and the logs say so. */
  ghost predicate PaidUpTo(l: Ledger, t: Ledger, es: seq<Entry>, window: int, reward: nat, n: nat)
    requires n <= |es| && Pool(es) > 0.0
  {
    && t.logs == l.logs + LogsOf(es, window, reward, n)
    && (forall i | 0 <= i < n :: BalanceOf(t, es[i].user) == BalanceOf(l, es[i].user) + Part(es, reward, i))
    && (forall u: nat | !TakesPart(es[..n], u) :: BalanceOf(t, u) == BalanceOf(l, u))
  }

  lemma {:induction false} PaidOneMore(l: Ledger, t: Ledger, u: Ledger, es: seq<Entry>, window: int, reward: nat,
                                       n: nat)
    requires 0 < n <= |es| && UsersApart(es) && Pool(es) > 0.0 && PaidUpTo(l, t, es, window, reward, n - 1)
    requires GetsPart(t, u, es[n - 1].user, window, Part(es, reward, n - 1))
    ensures PaidUpTo(l, u, es, window, reward, n)
  {
    var last := es[n - 1].user;
    assert forall i | 0 <= i < n - 1 :: es[..n - 1][i] == es[..n][i] == es[i];
    assert es[..n][n - 1] == es[n - 1];
    assert !TakesPart(es[..n - 1], last);
    forall v: nat | !TakesPart(es[..n], v) ensures BalanceOf(u, v) == BalanceOf(l, v) {
      assert !TakesPart(es[..n - 1], v);
    }
  }

  lemma {:induction false} AllPaid(l: Ledger, es: seq<Entry>, window: int, reward: nat, n: nat)
    requires n <= |es| && Eligible(es) && UsersApart(es) && Pool(es) > 0.0 && TotalHashrate(es) == Pool(es)
    ensures PaidUpTo(l, CreditAll(l, window, Planned(es, reward, n)), es, window, reward, n)
  {
    if n == 0 {
      assert LogsOf(es, window, reward, 0) == [];
    } else {
      var before := CreditAll(l, window, Planned(es, reward, n - 1));
      AllPaid(l, es, window, reward, n - 1);
      OnePaid(l, es, window, reward, n);
      PaidOneMore(l, before, CreditAll(l, window, Planned(es, reward, n)), es, window, reward, n);
    }
  }

  /** How many of the first `n` entries get something. */
  function PaidOf(es: seq<Entry>, reward: nat, n: nat): nat
    requires n <= |es| && Pool(es) > 0.0
  {
    if n == 0 then 0 else PaidOf(es, reward, n - 1) + if Part(es, reward, n - 1) > 0 then 1 else 0
  }

  lemma {:induction false} PlannedCount(es: seq<Entry>, reward: nat, n: nat)
    requires n <= |es| && Eligible(es) && Pool(es) > 0.0 && TotalHashrate(es) == Pool(es)
    ensures |Planned(es, reward, n)| == PaidOf(es, reward, n)
  {
    if n > 0 {
      PlannedCount(es, reward, n - 1);
      PartIsDue(es, reward, n - 1);
    }
  }

  /**
   * A commit for a new window raises the balance of each entry's user by the entry's part and no other, writes one log
   * row for each part above nothing, and records the cycle with the whole reward.
   */
  lemma {:induction false} CommitOutcome(l: Ledger, window: int, reward: nat, es: seq<Entry>)
    requires Eligible(es) && UsersApart(es) && es != [] && !Recorded(l, window)
    ensures Pool(es) > 0.0
    ensures var t := CommitCycle(l, window, reward, es);
            && PaidUpTo(l, t, es, window, reward, |es|)
            && t.cycles == l.cycles + [Cycle(window, reward, reward, PaidOf(es, reward, |es|))]
  {
    assert Distributed(l, window) <==> Recorded(l, window);
    PoolIsTotal(es);
    TotalPositive(es);
    PlannedSum(es, reward, |es|);
    PlannedCount(es, reward, |es|);
    var recorded := l.(cycles := l.cycles + [Cycle(window, reward, reward, PaidOf(es, reward, |es|))]);
    AllPaid(recorded, es, window, reward, |es|);
    SameCycles(recorded, window, Planned(es, reward, |es|));
  }

  lemma {:induction false} SameCycles(l: Ledger, window: int, ps: seq<Payment>)
    ensures CreditAll(l, window, ps).cycles == l.cycles
  {
    if ps != [] { SameCycles(l, window, ps[..|ps| - 1]); }
  }

  /** With nobody eligible only an empty cycle is recorded; a window that has run changes nothing. */
  lemma {:induction false} EmptyCommit(l: Ledger, window: int, reward: nat, es: seq<Entry>)
    ensures Recorded(l, window) ==> CommitCycle(l, window, reward, es) == l
    ensures !Recorded(l, window) && es == [] ==>
              CommitCycle(l, window, reward, es) == l.(cycles := l.cycles + [Cycle(window, reward, 0, 0)])
  {
    assert Distributed(l, window) <==> Recorded(l, window);
  }

  /** Two equal miners and ten units: five each. */
  lemma {:induction false} FiveEach(l: Ledger, es: seq<Entry>)
    requires l == Ledger([], [], map[]) && es == [Entry(1, 1.0), Entry(2, 1.0)]
    ensures var t := CommitCycle(l, 0, 10, es); BalanceOf(t, 1) == 5 && BalanceOf(t, 2) == 5
  {
    CommitOutcome(l, 0, 10, es);
    assert es[1..] == [Entry(2, 1.0)] && es[1..][1..] == [];
    assert Pool(es[1..]) == 1.0 && Pool(es) == 2.0;
    assert Rounded(es, 10, 0) == 5;
    assert RoundedUpTo(es, 10, 1) == RoundedUpTo(es, 10, 0) + Rounded(es, 10, 0);
    assert Part(es, 10, 0) == 5 && Part(es, 10, 1) == 5;
    assert es[0].user == 1 && es[1].user == 2;
  }
}
