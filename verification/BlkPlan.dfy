/** Splitting one cycle's reward over the eligible miners. Amounts are whole units of 1e-8 BLK. */
module BlkPlan {

  datatype Entry = Entry(user: nat, hashrate: real)

  datatype Payment = Payment(user: nat, hashrate: real, amount: nat)

  function FloorUnits(x: real): nat {
    if x > 0.0 then x.Floor else 0
  }

  function TotalHashrate(es: seq<Entry>): real {
    if es == [] then 0.0 else TotalHashrate(es[..|es| - 1]) + es[|es| - 1].hashrate
  }

  /** A miner's exact share of `reward` units. */
  function Exact(reward: nat, hashrate: real, total: real): real
    requires total > 0.0
  {
    reward as real * (hashrate / total)
  }

  function Share(reward: nat, hashrate: real, total: real): nat
    requires total > 0.0
  {
    FloorUnits(Exact(reward, hashrate, total))
  }

  ghost predicate Eligible(es: seq<Entry>) {
    forall i | 0 <= i < |es| :: es[i].hashrate > 0.0
  }

  /** What the first `n` entries would be given, rounded down each. */
  function SharesOf(es: seq<Entry>, reward: nat, total: real, n: nat): nat
    requires n <= |es| && total > 0.0
  {
    if n == 0 then 0 else SharesOf(es, reward, total, n - 1) + Share(reward, es[n - 1].hashrate, total)
  }

  // ---- Sorting by user id ----

  function InsertByUser(e: Entry, es: seq<Entry>): (r: seq<Entry>)
    ensures multiset(r) == multiset(es) + multiset{e}
  {
    if es == [] then [e]
    else if e.user < es[0].user then [e] + es
    else
      assert es == [es[0]] + es[1..];
      [es[0]] + InsertByUser(e, es[1..])
  }

  function SortByUser(es: seq<Entry>): (r: seq<Entry>)
    ensures multiset(r) == multiset(es)
  {
    if es == [] then []
    else
      assert es == es[..|es| - 1] + [es[|es| - 1]];
      InsertByUser(es[|es| - 1], SortByUser(es[..|es| - 1]))
  }

  ghost predicate Ordered(es: seq<Entry>) {
    forall i, j | 0 <= i < j < |es| :: es[i].user <= es[j].user
  }

  lemma {:induction false} InsertKeepsOrder(e: Entry, es: seq<Entry>)
    requires Ordered(es)
    ensures Ordered(InsertByUser(e, es))
  {
    if es != [] && e.user >= es[0].user {
      InsertKeepsOrder(e, es[1..]);
      var r := InsertByUser(e, es[1..]);
      forall i | 0 <= i < |r| ensures es[0].user <= r[i].user {
        assert r[i] in multiset(r);
        assert r[i] == e || r[i] in multiset(es[1..]);
      }
    }
  }

  lemma {:induction false} SortOrders(es: seq<Entry>)
    ensures Ordered(SortByUser(es))
  {
    if es != [] {
      SortOrders(es[..|es| - 1]);
      InsertKeepsOrder(es[|es| - 1], SortByUser(es[..|es| - 1]));
    }
  }

  lemma {:induction false} SortKeepsEligible(es: seq<Entry>)
    requires Eligible(es)
    ensures Eligible(SortByUser(es)) && |SortByUser(es)| == |es|
  {
    var r := SortByUser(es);
    assert |multiset(r)| == |multiset(es)|;
    forall i | 0 <= i < |r| ensures r[i].hashrate > 0.0 {
      assert r[i] in multiset(r);
      assert r[i] in es;
    }
  }

  // ---- The exact sums ----

  lemma {:induction false} SplitShare(reward: nat, a: real, b: real, total: real)
    requires total > 0.0
    ensures Exact(reward, a + b, total) == Exact(reward, a, total) + Exact(reward, b, total)
  {
    assert (a + b) / total == a / total + b / total;
  }

  lemma {:induction false} ShareBounds(reward: nat, hashrate: real, total: real)
    requires total > 0.0 && hashrate > 0.0
    ensures Exact(reward, hashrate, total) >= 0.0
    ensures reward > 0 ==> Exact(reward, hashrate, total) > 0.0
    ensures var share := Share(reward, hashrate, total) as real;
            share <= Exact(reward, hashrate, total) < share + 1.0
  {
    assert hashrate / total > 0.0;
  }

  lemma {:induction false} TotalOfPrefix(es: seq<Entry>, n: nat)
    requires n < |es|
    ensures TotalHashrate(es[..n + 1]) == TotalHashrate(es[..n]) + es[n].hashrate
  {
    assert es[..n + 1][..n] == es[..n];
  }

  /** Rounding down loses less than one unit an entry. */
  lemma {:induction false} SharesBounds(es: seq<Entry>, reward: nat, total: real, n: nat)
    requires n <= |es| && total > 0.0 && Eligible(es)
    ensures SharesOf(es, reward, total, n) as real <= Exact(reward, TotalHashrate(es[..n]), total)
    ensures Exact(reward, TotalHashrate(es[..n]), total) <= SharesOf(es, reward, total, n) as real + n as real
    ensures n > 0 ==> Exact(reward, TotalHashrate(es[..n]), total) < SharesOf(es, reward, total, n) as real + n as real
  {
    if n > 0 {
      SharesBounds(es, reward, total, n - 1);
      TotalOfPrefix(es, n - 1);
      SplitShare(reward, TotalHashrate(es[..n - 1]), es[n - 1].hashrate, total);
      ShareBounds(reward, es[n - 1].hashrate, total);
    }
  }

  lemma {:induction false} TotalPositive(es: seq<Entry>)
    requires Eligible(es) && es != []
    ensures TotalHashrate(es) > 0.0
  {
    if |es| > 1 {
      TotalPositive(es[..|es| - 1]);
    } else {
      assert TotalHashrate(es[..|es| - 1]) == 0.0;
    }
  }

  lemma {:induction false} WholeShare(reward: nat, total: real)
    requires total > 0.0
    ensures Exact(reward, total, total) == reward as real
  {
    assert total / total == 1.0;
  }

  /** The remainder: at least the last entry's exact share, and less than the number of entries above it. */
  lemma {:induction false} RemainderBounds(es: seq<Entry>, reward: nat)
    requires Eligible(es) && es != []
    ensures TotalHashrate(es) > 0.0
    ensures var total, n := TotalHashrate(es), |es|;
            var exact := Exact(reward, es[n - 1].hashrate, total);
            var rest := reward as real - SharesOf(es, reward, total, n - 1) as real;
            exact <= rest < exact + n as real
    ensures reward > 0 ==> reward > SharesOf(es, reward, TotalHashrate(es), |es| - 1)
    ensures reward >= SharesOf(es, reward, TotalHashrate(es), |es| - 1)
  {
    TotalPositive(es);
    var total, n := TotalHashrate(es), |es|;
    SharesBounds(es, reward, total, n - 1);
    TotalOfPrefix(es, n - 1);
    assert es[..n - 1 + 1] == es;
    SplitShare(reward, TotalHashrate(es[..n - 1]), es[n - 1].hashrate, total);
    WholeShare(reward, total);
    ShareBounds(reward, es[n - 1].hashrate, total);
  }

  lemma {:induction false} RemainderFits(es: seq<Entry>, reward: nat)
    requires Eligible(es) && es != [] && TotalHashrate(es) > 0.0
    ensures reward >= SharesOf(es, reward, TotalHashrate(es), |es| - 1)
  {
    RemainderBounds(es, reward);
  }

  // ---- The plan ----

  /** What entry `i` is due: its rounded share, except that the last entry gets what is left. */
  function Due(es: seq<Entry>, reward: nat, i: nat): int
    requires i < |es| && TotalHashrate(es) > 0.0
  {
    var total := TotalHashrate(es);
    if i == |es| - 1 then reward - SharesOf(es, reward, total, i) else Share(reward, es[i].hashrate, total)
  }

  /** Payments of the first `n` entries; entries due nothing are left out. */
  function Planned(es: seq<Entry>, reward: nat, n: nat): seq<Payment>
    requires n <= |es| && (n > 0 ==> TotalHashrate(es) > 0.0)
  {
    if n == 0 then []
    else
      var due := Due(es, reward, n - 1);
      Planned(es, reward, n - 1) + if due > 0 then [Payment(es[n - 1].user, es[n - 1].hashrate, due)] else []
  }

  function SumPaid(ps: seq<Payment>): nat {
    if ps == [] then 0 else SumPaid(ps[..|ps| - 1]) + ps[|ps| - 1].amount
  }

  lemma {:induction false} SumPaidAppend(ps: seq<Payment>, p: Payment)
    ensures SumPaid(ps + [p]) == SumPaid(ps) + p.amount
  {
    assert (ps + [p])[..|ps|] == ps;
  }

  lemma {:induction false} PlannedSum(es: seq<Entry>, reward: nat, n: nat)
    requires Eligible(es) && es != [] && n <= |es| && TotalHashrate(es) > 0.0
    ensures SumPaid(Planned(es, reward, n)) == if n == |es| then reward else SharesOf(es, reward, TotalHashrate(es), n)
  {
    if n > 0 {
      PlannedSum(es, reward, n - 1);
      RemainderFits(es, reward);
      var due := Due(es, reward, n - 1);
      if due > 0 {
        SumPaidAppend(Planned(es, reward, n - 1), Payment(es[n - 1].user, es[n - 1].hashrate, due));
      } else {
        assert Planned(es, reward, n) == Planned(es, reward, n - 1);
      }
    }
  }

  /** A cycle with someone eligible pays out its reward exactly, and so always pays someone. */
  lemma {:induction false} PlanPaysReward(es: seq<Entry>, reward: nat)
    requires Eligible(es) && es != [] && reward > 0
    ensures TotalHashrate(es) > 0.0
    ensures SumPaid(Planned(es, reward, |es|)) == reward
    ensures Planned(es, reward, |es|) != []
  {
    TotalPositive(es);
    PlannedSum(es, reward, |es|);
  }

  /** Entry `i` is due its exact share rounded down, or for the last entry up by less than `|es|` units. */
  lemma {:induction false} PlanIsFair(es: seq<Entry>, reward: nat, i: nat)
    requires Eligible(es) && i < |es|
    ensures TotalHashrate(es) > 0.0
    ensures var exact := Exact(reward, es[i].hashrate, TotalHashrate(es));
            if i < |es| - 1
            then Due(es, reward, i) as real <= exact < Due(es, reward, i) as real + 1.0
            else exact <= Due(es, reward, i) as real < exact + |es| as real
  {
    TotalPositive(es);
    RemainderBounds(es, reward);
    ShareBounds(reward, es[i].hashrate, TotalHashrate(es));
  }

  lemma {:induction false} ShareMonotone(reward: nat, a: real, b: real, total: real)
    requires total > 0.0 && 0.0 < a <= b
    ensures Exact(reward, a, total) <= Exact(reward, b, total)
    ensures Share(reward, a, total) <= Share(reward, b, total)
  {
    assert a / total <= b / total;
  }

  /** Among all but the last entry, more hashrate is never due less. */
  lemma {:induction false} PlanIsMonotone(es: seq<Entry>, reward: nat, i: nat, j: nat)
    requires Eligible(es) && i < |es| - 1 && j < |es| - 1 && es[i].hashrate <= es[j].hashrate
    ensures TotalHashrate(es) > 0.0 && Due(es, reward, i) <= Due(es, reward, j)
  {
    TotalPositive(es);
    ShareMonotone(reward, es[i].hashrate, es[j].hashrate, TotalHashrate(es));
  }
}
