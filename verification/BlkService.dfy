/** The reward cycle as the service runs it: tables updated row by row, a running remainder. */
module BlkService {
  import opened Tables
  import opened BlkPlan
  import opened BlkCycle

  datatype Outcome =
    | Paused
    | ZeroReward
    | AlreadyDistributed
    | DuplicateWindow
    | EmptyPool
    | Distributed(distributed: nat, minerCount: nat)

  lemma {:induction false} SharesGrow(es: seq<Entry>, reward: nat, total: real, m: nat, n: nat)
    requires m <= n <= |es| && total > 0.0
    ensures SharesOf(es, reward, total, m) <= SharesOf(es, reward, total, n)
    decreases n
  {
    if m < n { SharesGrow(es, reward, total, m, n - 1); }
  }

  class Service {
    var cycles: seq<Cycle>
    var logs: seq<Log>
    var balance: map<nat, int>

    constructor (start: map<nat, int>)
      ensures View() == Ledger([], [], start)
    {
      cycles, logs, balance := [], [], start;
    }

    ghost function View(): Ledger
      reads this
    {
      Ledger(cycles, logs, balance)
    }

    /** Sum of the hashrates, left to right. */
    static method SumHashrates(es: seq<Entry>) returns (total: real)
      ensures total == TotalHashrate(es)
    {
      total := 0.0;
      for i := 0 to |es|
        invariant total == TotalHashrate(es[..i])
      {
        TakeOneMore(es, i);
        total := total + es[i].hashrate;
      }
      assert es[..|es|] == es;
    }

    static method FilterActive(active: seq<Entry>, least: real) returns (es: seq<Entry>)
      ensures es == Above(active, least)
    {
      var floor := if least < 0.0 then 0.0 else least;
      es := [];
      for i := 0 to |active|
        invariant es == Above(active[..i], floor)
      {
        TakeOneMore(active, i);
        if active[i].hashrate > floor { es := es + [active[i]]; }
      }
      assert active[..|active|] == active;
      SameLeast(active, least);
    }

    /** The plan for a non-empty pool, with what is left carried from entry to entry. */
    static method Plan(es: seq<Entry>, reward: nat, total: real) returns (planned: seq<Payment>)
      requires Eligible(es) && es != [] && total == TotalHashrate(es) > 0.0
      ensures planned == Planned(es, reward, |es|)
    {
      planned := [];
      var remaining := reward as int;
      RemainderFits(es, reward);
      for i := 0 to |es|
        invariant planned == Planned(es, reward, i)
        invariant i < |es| ==> remaining == reward - SharesOf(es, reward, total, i)
      {
        var amount;
        SharesGrow(es, reward, total, i, |es| - 1);
        if i == |es| - 1 {
          amount := remaining;
        } else {
          amount := Share(reward, es[i].hashrate, total);
          SharesGrow(es, reward, total, i + 1, |es| - 1);
          remaining := if remaining - amount > 0 then remaining - amount else 0;
        }
        if amount > 0 { planned := planned + [Payment(es[i].user, es[i].hashrate, amount)]; }
      }
    }

    static method SumPlanned(planned: seq<Payment>) returns (sum: nat)
      ensures sum == SumPaid(planned)
    {
      sum := 0;
      for i := 0 to |planned|
        invariant sum == SumPaid(planned[..i])
      {
        TakeOneMore(planned, i);
        sum := sum + planned[i].amount;
      }
      assert planned[..|planned|] == planned;
    }

    method FindCycle(window: int) returns (found: bool)
      ensures found <==> BlkCycle.Distributed(View(), window)
    {
      found := false;
      for i := 0 to |cycles|
        invariant found <==> exists k :: 0 <= k < i && cycles[k].window == window
      {
        if cycles[i].window == window { found := true; }
      }
    }

    /** One transaction: the cycle row, then a log row and an increment for each payment. */
    method Record(window: int, reward: nat, planned: seq<Payment>)
      modifies this
      ensures var row := Cycle(window, reward, SumPaid(planned), |planned|);
              View() == CreditAll(old(View()).(cycles := old(cycles) + [row]), window, planned)
    {
      var sum := SumPlanned(planned);
      cycles := cycles + [Cycle(window, reward, sum, |planned|)];
      ghost var recorded := View();
      for i := 0 to |planned|
        invariant View() == CreditAll(recorded, window, planned[..i])
      {
        TakeOneMore(planned, i);
        var p := planned[i];
        logs := logs + [Log(window, p.user, p.amount)];
        balance := balance[p.user := (if p.user in balance then balance[p.user] else 0) + p.amount];
      }
      assert planned[..|planned|] == planned;
    }

    /** From the snapshot on: sum, sort, plan and commit, unless another runner took the window. */
    method Distribute(window: int, reward: nat, entries: seq<Entry>) returns (o: Outcome)
      requires Eligible(entries) && reward > 0
      modifies this
      ensures View() == CommitCycle(old(View()), window, reward, SortByUser(entries))
      ensures o.DuplicateWindow? <==> BlkCycle.Distributed(old(View()), window)
      ensures !o.DuplicateWindow? ==>
                if entries == [] then o == EmptyPool else o.Distributed? && o.distributed == reward
    {
      var es := SortByUser(entries);
      SortKeepsEligible(entries);
      var total := SumHashrates(es);
      var taken := FindCycle(window);
      if es == [] || total <= 0.0 {
        if es != [] { TotalPositive(es); }
        if taken { return DuplicateWindow; }
        cycles := cycles + [Cycle(window, reward, 0, 0)];
        return EmptyPool;
      }
      var planned := Plan(es, reward, total);
      PlanPaysReward(es, reward);
      if taken { return DuplicateWindow; }
      Record(window, reward, planned);
      return Distributed(reward, |planned|);
    }

    /** A runner that nothing interrupts: check, snapshot and commit in one go. */
    method RunCycle(cfg: Config, now: int, active: seq<Entry>) returns (o: Outcome)
      modifies this
      ensures View() == Exec(System(old(View()), [Idle]), [Check(0, cfg, now), Snapshot(0, active), Commit(0)]).ledger
      ensures o == Paused <==> cfg.paused
      ensures o != DuplicateWindow
      ensures o.Distributed? ==> o.distributed == RewardUnits(cfg)
    {
      ghost var s := System(View(), [Idle]);
      ThreeSteps(s, Check(0, cfg, now), Snapshot(0, active), Commit(0));
      var window := Bucket(now, IntervalSec(cfg));
      var reward := RewardUnits(cfg);
      if cfg.paused { return Paused; }
      if reward == 0 { return ZeroReward; }
      var taken := FindCycle(window);
      if taken { return AlreadyDistributed; }
      var entries := FilterActive(active, cfg.minHashrate);
      o := Distribute(window, reward, entries);
    }
  }

  lemma {:induction false} SameLeast(active: seq<Entry>, least: real)
    ensures Above(active, if least < 0.0 then 0.0 else least) == Above(active, least)
  {
    if active != [] { SameLeast(active[..|active| - 1], least); }
  }

  lemma {:induction false} ThreeSteps(s: System, a: Op, b: Op, c: Op)
    ensures Exec(s, [a, b, c]) == Step(Step(Step(s, a), b), c)
  {
    assert Exec(s, []) == s;
    assert [a][..0] == [] && [a, b][..1] == [a] && [a, b, c][..2] == [a, b];
    assert Exec(s, [a]) == Step(s, a);
    assert Exec(s, [a, b]) == Step(Step(s, a), b);
  }
}
