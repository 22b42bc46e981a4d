/** Emission cycles under any number of overlapping runners: check, snapshot, commit. */
module BlkCycle {
  import opened Tables
  import opened BlkPlan

  /** `reward` is in units of 1e-8 BLK, `intervalSec` in seconds. */
  datatype Config = Config(paused: bool, reward: real, boost: real, intervalSec: nat, minHashrate: real)

  datatype Cycle = Cycle(window: int, totalReward: nat, distributed: nat, minerCount: nat)
  datatype Log = Log(window: int, user: nat, amount: nat)

  datatype Ledger = Ledger(cycles: seq<Cycle>, logs: seq<Log>, balance: map<nat, int>)

  /** Where a runner is between its awaits. */
  datatype Runner =
    | Idle
    | Checked(window: int, reward: nat, minHashrate: real)
    | Ready(window: int, reward: nat, entries: seq<Entry>)

  datatype System = System(ledger: Ledger, runners: seq<Runner>)

  // ---- Configuration ----

  function IntervalSec(cfg: Config): (sec: nat)
    ensures sec > 0
  {
    if cfg.intervalSec == 0 then 600 else cfg.intervalSec
  }

  function Boost(cfg: Config): real {
    var b := if cfg.boost == 0.0 then 1.0 else cfg.boost;
    if b < 0.0 then 0.0 else b
  }

  function RewardUnits(cfg: Config): nat {
    FloorUnits(cfg.reward * Boost(cfg))
  }

  /** Start of the epoch bucket of `intervalSec` seconds that contains `now`. */
  function Bucket(now: int, intervalSec: int): int
    requires intervalSec > 0
  {
    now / (intervalSec * 1000) * (intervalSec * 1000)
  }

  /** Entries above the least hashrate, which counts as 0 when it is negative. */
  function Above(es: seq<Entry>, least: real): (r: seq<Entry>)
    ensures Eligible(r)
  {
    if es == [] then []
    else
      var rest, e := Above(es[..|es| - 1], least), es[|es| - 1];
      if e.hashrate > (if least < 0.0 then 0.0 else least) then rest + [e] else rest
  }

  // ---- The ledger ----

  predicate Distributed(l: Ledger, window: int) {
    exists i :: 0 <= i < |l.cycles| && l.cycles[i].window == window
  }

  function BalanceOf(l: Ledger, user: nat): int {
    if user in l.balance then l.balance[user] else 0
  }

  /** One log row and one increment. */
  function Credit(l: Ledger, window: int, p: Payment): Ledger {
    l.(logs := l.logs + [Log(window, p.user, p.amount)],
       balance := l.balance[p.user := BalanceOf(l, p.user) + p.amount])
  }

  function CreditAll(l: Ledger, window: int, ps: seq<Payment>): Ledger {
    if ps == [] then l else Credit(CreditAll(l, window, ps[..|ps| - 1]), window, ps[|ps| - 1])
  }

  /** The transaction that records a cycle with its logs and increments; the window is unique. */
  function CommitCycle(l: Ledger, window: int, reward: nat, es: seq<Entry>): Ledger {
    if Distributed(l, window) then l
    else if es == [] || TotalHashrate(es) <= 0.0 then l.(cycles := l.cycles + [Cycle(window, reward, 0, 0)])
    else
      var ps := Planned(es, reward, |es|);
      CreditAll(l.(cycles := l.cycles + [Cycle(window, reward, SumPaid(ps), |ps|)]), window, ps)
  }

  // ---- Runners ----

  datatype Op =
    | Check(runner: nat, cfg: Config, now: int)
    | Snapshot(runner: nat, active: seq<Entry>)
    | Commit(runner: nat)

  function CheckStep(l: Ledger, cfg: Config, now: int): Runner {
    var reward := RewardUnits(cfg);
    var window := Bucket(now, IntervalSec(cfg));
    if cfg.paused || reward == 0 || Distributed(l, window) then Idle
    else Checked(window, reward, cfg.minHashrate)
  }

  function Step(s: System, op: Op): System {
    if op.runner >= |s.runners| then s
    else
      var r := s.runners[op.runner];
      match op
      case Check(i, cfg, now) =>
        if r.Idle? then s.(runners := s.runners[i := CheckStep(s.ledger, cfg, now)]) else s
      case Snapshot(i, active) =>
        if r.Checked?
        then s.(runners := s.runners[i := Ready(r.window, r.reward, SortByUser(Above(active, r.minHashrate)))])
        else s
      case Commit(i) =>
        if r.Ready?
        then System(CommitCycle(s.ledger, r.window, r.reward, r.entries), s.runners[i := Idle])
        else s
  }

  function Exec(s: System, ops: seq<Op>): System {
    if ops == [] then s else Step(Exec(s, ops[..|ops| - 1]), ops[|ops| - 1])
  }
}
