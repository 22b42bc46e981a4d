/** Polling the chain for deposits with overlapping, failing and out-of-date polls. */
module BlockScanner {
  import opened Tables

  const LOOKBACK := 5000

  /**
   * A poll between its awaits: waiting for the logs of blocks `from` to `to`. It is a `first` poll if
   * nothing had been scanned when it began.
   */
  datatype Poll = Fetching(from: int, to: int, first: bool) | Over

  /**
   * `last` is the last scanned block. `fetched` and `starts` are history: the blocks of completed polls,
   * and the blocks that completed first polls started from.
   */
  datatype Scanner = Scanner(last: Option<int>, polls: seq<Poll>, fetched: set<int>, starts: set<int>)

  datatype Op =
    | Begin(latest: nat)
    | Complete(poll: nat)
    | Fail(poll: nat)

  /** Where a first poll starts: the configured block, or a fixed distance back. */
  function FirstBlock(latest: nat, configured: Option<nat>): int {
    if configured.Some? then configured.value
    else if latest > LOOKBACK then latest - LOOKBACK + 1
    else 0
  }

  function FromBlock(s: Scanner, latest: nat, configured: Option<nat>): int {
    if s.last.None? then FirstBlock(latest, configured) else s.last.value + 1
  }

  function Blocks(lo: int, hi: int): (bs: set<int>)
    ensures forall b :: b in bs <==> lo <= b <= hi
    decreases hi - lo + 1
  {
    if lo > hi then {} else Blocks(lo, hi - 1) + {hi}
  }

  function BeginPoll(s: Scanner, latest: nat, configured: Option<nat>): Scanner {
    var from := FromBlock(s, latest, configured);
    if from > latest then s.(last := Some(latest), polls := s.polls + [Over])
    else s.(polls := s.polls + [Fetching(from, latest, s.last.None?)])
  }

  predicate Waiting(s: Scanner, p: nat) {
    p < |s.polls| && s.polls[p].Fetching?
  }

  function Step(s: Scanner, op: Op, configured: Option<nat>): Scanner {
    match op
    case Begin(latest) => BeginPoll(s, latest, configured)
    case Complete(p) =>
      if !Waiting(s, p) then s
      else
        var poll := s.polls[p];
        Scanner(Some(poll.to), s.polls[p := Over], s.fetched + Blocks(poll.from, poll.to),
                if poll.first then s.starts + {poll.from} else s.starts)
    case Fail(p) => if p < |s.polls| then s.(polls := s.polls[p := Over]) else s
  }

  function Exec(s: Scanner, ops: seq<Op>, configured: Option<nat>): Scanner {
    if ops == [] then s else Step(Exec(s, ops[..|ops| - 1], configured), ops[|ops| - 1], configured)
  }

  const START := Scanner(None, [], {}, {})

  /** Latest blocks that the first polls of a run saw. */
  function FirstLatests(ops: seq<Op>, configured: Option<nat>): seq<nat> {
    if ops == [] then []
    else
      var front, op := ops[..|ops| - 1], ops[|ops| - 1];
      FirstLatests(front, configured)
      + if op.Begin? && Exec(START, front, configured).last.None? then [op.latest] else []
  }

  // ---- When there is no gap ----

  /** Every block from `from` to `to` was fetched by a poll that completed. */
  ghost predicate Covered(s: Scanner, from: int, to: int) {
    forall b | from <= b <= to :: b in s.fetched
  }

  /** From the start of every completed first poll to the last scanned block nothing was left out. */
  ghost predicate Continuous(s: Scanner) {
    s.last.Some? ==> forall f | f in s.starts :: Covered(s, f, s.last.value)
  }

  /** No first poll saw the chain further ahead of another than a first poll looks back. */
  predicate Near(latests: seq<nat>) {
    forall i, j | 0 <= i < |latests| && 0 <= j < |latests| :: latests[i] - latests[j] <= LOOKBACK
  }

  /** Block `m` and the one after it lie within reach of every first poll. */
  predicate Reaches(latest: nat, configured: Option<nat>, m: int) {
    var from := FirstBlock(latest, configured);
    from <= m + 1 && (from <= latest ==> m <= latest) && (from > latest ==> latest <= m)
  }

  ghost predicate Inv(s: Scanner, m: int) {
    && (s.last.Some? ==> Covered(s, m + 1, s.last.value))
    && (forall f | f in s.starts :: f <= m + 1 && Covered(s, f, m))
    && (forall p | 0 <= p < |s.polls| && s.polls[p].Fetching? ::
          if s.polls[p].first then s.polls[p].from <= m + 1 && m <= s.polls[p].to
          else Covered(s, m + 1, s.polls[p].from - 1))
  }

  lemma {:induction false} StepKeeps(s: Scanner, op: Op, configured: Option<nat>, m: int)
    requires Inv(s, m) && (op.Begin? && s.last.None? ==> Reaches(op.latest, configured, m))
    ensures Inv(Step(s, op, configured), m)
  {
    var t := Step(s, op, configured);
    forall p | 0 <= p < |t.polls| && t.polls[p].Fetching?
      ensures if t.polls[p].first then t.polls[p].from <= m + 1 && m <= t.polls[p].to
              else Covered(t, m + 1, t.polls[p].from - 1)
    {
      if p < |s.polls| { assert s.polls[p] == t.polls[p]; }
    }
  }

  ghost predicate AllReach(latests: seq<nat>, configured: Option<nat>, m: int) {
    forall i | 0 <= i < |latests| :: Reaches(latests[i], configured, m)
  }

  lemma {:induction false} RunKeeps(ops: seq<Op>, configured: Option<nat>, m: int)
    requires AllReach(FirstLatests(ops, configured), configured, m)
    ensures Inv(Exec(START, ops, configured), m)
    decreases |ops|
  {
    if ops == [] {
    } else {
      var front, op := ops[..|ops| - 1], ops[|ops| - 1];
      var latests := FirstLatests(ops, configured);
      forall i | 0 <= i < |FirstLatests(front, configured)|
        ensures Reaches(FirstLatests(front, configured)[i], configured, m)
      {
        assert latests[i] == FirstLatests(front, configured)[i];
      }
      RunKeeps(front, configured, m);
      if op.Begin? && Exec(START, front, configured).last.None? {
        assert latests[|latests| - 1] == op.latest;
      }
      StepKeeps(Exec(START, front, configured), op, configured, m);
    }
  }

  function Least(latests: seq<nat>): (m: nat)
    requires latests != []
    ensures m in latests && forall i | 0 <= i < |latests| :: m <= latests[i]
  {
    if |latests| == 1 then latests[0]
    else
      var front, last := Least(latests[..|latests| - 1]), latests[|latests| - 1];
      if front <= last then front else last
  }

  /** A configured block, or first polls near each other, have such a block `m` in common. */
  lemma {:induction false} CommonBlock(latests: seq<nat>, configured: Option<nat>) returns (m: int)
    requires configured.Some? || Near(latests)
    ensures AllReach(latests, configured, m)
    ensures configured.Some? ==> m == configured.value - 1
  {
    if configured.Some? {
      m := configured.value - 1;
    } else if latests == [] {
      m := 0;
    } else {
      m := Least(latests);
      var j :| 0 <= j < |latests| && latests[j] == m;
      forall i | 0 <= i < |latests| ensures Reaches(latests[i], configured, m) {
        assert latests[i] - latests[j] <= LOOKBACK;
      }
    }
  }

  /**
   * With a configured first block, or first polls that saw the chain no more than the look-back apart:
   * however polls overlap, fail or see an older latest block, nothing is left out from the start of
   * any completed first poll to the last scanned block.
   */
  lemma {:induction false} NoGap(ops: seq<Op>, configured: Option<nat>)
    requires configured.Some? || Near(FirstLatests(ops, configured))
    ensures Continuous(Exec(START, ops, configured))
  {
    var m := CommonBlock(FirstLatests(ops, configured), configured);
    RunKeeps(ops, configured, m);
    var s := Exec(START, ops, configured);
    forall f, b | s.last.Some? && f in s.starts && f <= b <= s.last.value ensures b in s.fetched {
      assert Covered(s, f, m) && Covered(s, m + 1, s.last.value);
    }
  }

  /** With a configured block everything from that block on is covered, whether or not a first poll completed. */
  lemma {:induction false} ConfiguredNoGap(ops: seq<Op>, first: nat)
    ensures var s := Exec(START, ops, Some(first));
            && (forall f | f in s.starts :: f == first)
            && (s.last.Some? ==> Covered(s, first, s.last.value))
  {
    var m := CommonBlock(FirstLatests(ops, Some(first)), Some(first));
    RunKeeps(ops, Some(first), m);
    ConfiguredStarts(ops, first);
  }

  ghost predicate StartsAt(s: Scanner, first: int) {
    && (forall f | f in s.starts :: f == first)
    && (forall p | 0 <= p < |s.polls| && s.polls[p].Fetching? && s.polls[p].first :: s.polls[p].from == first)
  }

  lemma {:induction false} StepStarts(s: Scanner, op: Op, first: nat)
    requires StartsAt(s, first)
    ensures StartsAt(Step(s, op, Some(first)), first)
  {
    var t := Step(s, op, Some(first));
    forall p | 0 <= p < |t.polls| && t.polls[p].Fetching? && t.polls[p].first ensures t.polls[p].from == first {
      if p < |s.polls| { assert t.polls[p] == s.polls[p]; }
    }
  }

  lemma {:induction false} ConfiguredStarts(ops: seq<Op>, first: nat)
    ensures StartsAt(Exec(START, ops, Some(first)), first)
    decreases |ops|
  {
    if ops != [] {
      ConfiguredStarts(ops[..|ops| - 1], first);
      StepStarts(Exec(START, ops[..|ops| - 1], Some(first)), ops[|ops| - 1], first);
    }
  }

  /** Without a configured block something has been scanned only if a first poll has completed. */
  lemma {:induction false} ScannedFromAStart(ops: seq<Op>)
    ensures var s := Exec(START, ops, None);
            && (s.last.Some? ==> s.starts != {})
            && (s.last.None? ==> forall p | 0 <= p < |s.polls| && s.polls[p].Fetching? :: s.polls[p].first)
    decreases |ops|
  {
    if ops != [] { ScannedFromAStart(ops[..|ops| - 1]); }
  }

  /** Once something has been scanned, no later poll is a first one. */
  lemma {:induction false} FirstsSettle(ops: seq<Op>, more: seq<Op>, configured: Option<nat>)
    requires Exec(START, ops, configured).last.Some?
    ensures Exec(START, ops + more, configured).last.Some?
    ensures FirstLatests(ops + more, configured) == FirstLatests(ops, configured)
    decreases |more|
  {
    if more == [] {
      assert ops + more == ops;
    } else {
      assert (ops + more)[..|ops + more| - 1] == ops + more[..|more| - 1];
      FirstsSettle(ops, more[..|more| - 1], configured);
    }
  }

  // ---- When there is one ----

  function Begins(latests: seq<nat>): seq<Op> {
    seq(|latests|, i requires 0 <= i < |latests| => Begin(latests[i]))
  }

  function FirstPolls(latests: seq<nat>): seq<Poll> {
    seq(|latests|, i requires 0 <= i < |latests| => Fetching(FirstBlock(latests[i], None), latests[i], true))
  }

  lemma {:induction false} AllBegun(latests: seq<nat>)
    ensures Exec(START, Begins(latests), None) == Scanner(None, FirstPolls(latests), {}, {})
    ensures FirstLatests(Begins(latests), None) == latests
  {
    if latests == [] {
    } else {
      var n := |latests| - 1;
      AllBegun(latests[..n]);
      assert Begins(latests)[..n] == Begins(latests[..n]);
      assert FirstPolls(latests) ==
        FirstPolls(latests[..n]) + [Fetching(FirstBlock(latests[n], None), latests[n], true)];
    }
  }

  lemma {:induction false} LastStep(s: Scanner, ops: seq<Op>, op: Op, configured: Option<nat>)
    ensures Exec(s, ops + [op], configured) == Step(Exec(s, ops, configured), op, configured)
  {
    assert (ops + [op])[..|ops|] == ops;
  }

  /** All polls of `latests` begin, `low` completes first and then `high`. */
  function FarApart(latests: seq<nat>, low: nat, high: nat): seq<Op> {
    Begins(latests) + [Complete(low)] + [Complete(high)]
  }

  /** Of two first polls too far apart, the lower completing first leaves the next block out. */
  lemma {:induction false} GapBetween(latests: seq<nat>, low: nat, high: nat)
    requires low < |latests| && high < |latests| && latests[high] - latests[low] > LOOKBACK
    ensures var s := Exec(START, FarApart(latests, low, high), None);
            && FirstLatests(FarApart(latests, low, high), None) == latests
            && s.last == Some(latests[high]) && FirstBlock(latests[low], None) in s.starts
            && FirstBlock(latests[low], None) <= latests[low] + 1 <= latests[high]
            && latests[low] + 1 !in s.fetched
  {
    var begins := Begins(latests);
    AllBegun(latests);
    LastStep(START, begins, Complete(low), None);
    LastStep(START, begins + [Complete(low)], Complete(high), None);
    assert (begins + [Complete(low)])[..|begins|] == begins;
    assert FarApart(latests, low, high)[..|begins| + 1] == begins + [Complete(low)];
  }

  /** No run whose first polls saw these latest blocks leaves anything out. */
  ghost predicate NeverAGap(latests: seq<nat>, configured: Option<nat>) {
    forall ops: seq<Op> | FirstLatests(ops, configured) == latests :: Continuous(Exec(START, ops, configured))
  }

  /** The exact condition: a configured block, or first polls no further apart than the look-back. */
  lemma {:induction false} NoGapExactly(latests: seq<nat>, configured: Option<nat>)
    ensures NeverAGap(latests, configured) <==> configured.Some? || Near(latests)
  {
    if configured.Some? || Near(latests) {
      forall ops: seq<Op> | FirstLatests(ops, configured) == latests ensures Continuous(Exec(START, ops, configured)) {
        NoGap(ops, configured);
      }
    } else {
      var high, low :| 0 <= high < |latests| && 0 <= low < |latests| && latests[high] - latests[low] > LOOKBACK;
      GapBetween(latests, low, high);
      var s := Exec(START, FarApart(latests, low, high), None);
      assert !Covered(s, FirstBlock(latests[low], None), latests[high]);
    }
  }

  /** Two first polls at 10000 and 16000: block 10001 is never fetched, and the next poll starts at 16001. */
  lemma {:induction false} GapExample()
    ensures var s := Exec(START, FarApart([10000, 16000], 0, 1), None);
            && s.last == Some(16000) && 5001 in s.starts && 10001 !in s.fetched
            && FromBlock(s, 17000, None) == 16001
  {
    GapBetween([10000, 16000], 0, 1);
  }

  // ---- The module variable and its polls ----

  class Sync {
    const configured: Option<nat>
    var lastScannedBlock: Option<int>
    var polls: seq<Poll>
    ghost var fetched: set<int>
    ghost var starts: set<int>

    constructor (configured: Option<nat>)
      ensures this.configured == configured && View() == START
    {
      this.configured := configured;
      lastScannedBlock, polls := None, [];
      fetched, starts := {}, {};
    }

    ghost function View(): Scanner
      reads this
    {
      Scanner(lastScannedBlock, polls, fetched, starts)
    }

    /** A poll up to its request for logs; it is over at once when there is nothing new. */
    method BeginPoll(latest: nat)
      modifies this
      ensures View() == Step(old(View()), Begin(latest), configured)
    {
      var fromBlock: int;
      if lastScannedBlock.None? {
        if configured.Some? {
          fromBlock := configured.value;
        } else {
          fromBlock := if latest > LOOKBACK then latest - LOOKBACK + 1 else 0;
        }
      } else {
        fromBlock := lastScannedBlock.value + 1;
      }
      if fromBlock > latest {
        lastScannedBlock := Some(latest);
        polls := polls + [Over];
        return;
      }
      polls := polls + [Fetching(fromBlock, latest, lastScannedBlock.None?)];
    }

    /** The logs have arrived and their rows are in. */
    method CompletePoll(p: nat)
      requires p < |polls| && polls[p].Fetching?
      modifies this
      ensures View() == Step(old(View()), Complete(p), configured)
    {
      var poll := polls[p];
      polls := polls[p := Over];
      fetched := fetched + Blocks(poll.from, poll.to);
      if poll.first { starts := starts + {poll.from}; }
      lastScannedBlock := Some(poll.to);
    }

    method FailPoll(p: nat)
      requires p < |polls|
      modifies this`polls
      ensures View() == Step(old(View()), Fail(p), configured)
    {
      polls := polls[p := Over];
    }
  }
}
