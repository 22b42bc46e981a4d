/** Balances and claim limits of an offer: read before the compare-and-set, so not always kept. */
module StockLimits {
  import opened Tables
  import opened StockModel
  import opened StockTheorems

  /** No purse is below zero, and no user is above the claim limit of a free offer that has one. */
  ghost predicate WithinLimits(s: Shop, o: Offer) {
    && (forall p: Purse :: BalanceOf(s, p) >= 0.0)
    && (o.free && o.claimLimit > 0 ==> forall u: nat :: Claims(s.purchases, u) <= o.claimLimit)
  }

  /** What the guard reads about the buyer. */
  predicate Affordable(s: Shop, o: Offer, user: nat, quantity: nat) {
    if o.free then o.claimLimit > 0 ==> Claims(s.purchases, user) + quantity <= o.claimLimit
    else BalanceOf(s, PurseOf(o, user)) >= Total(o, quantity)
  }

  /** The step is a compare-and-set that wins. */
  predicate Wins(sys: System, op: Op) {
    op.buyer < |sys.buyers| && sys.buyers[op.buyer].stage.Seen? && sys.buyers[op.buyer].stage.sold == sys.shop.sold
  }

  // ---- The exact condition ----

  lemma {:induction false} CommitWithinExactly(s: Shop, o: Offer, user: nat, quantity: nat)
    requires WithinLimits(s, o)
    ensures WithinLimits(Committed(s, o, user, quantity), o) <==> Affordable(s, o, user, quantity)
  {
    var t, p := Committed(s, o, user, quantity), PurseOf(o, user);
    forall u: nat ensures Claims(t.purchases, u) == Claims(s.purchases, u) + if u == user then quantity else 0 {
      ClaimsAppend(s.purchases, o, user, quantity, u);
    }
    if o.free {
      assert forall q: Purse :: BalanceOf(t, q) == BalanceOf(s, q);
    } else {
      assert BalanceOf(t, p) == BalanceOf(s, p) - Total(o, quantity);
      assert forall q: Purse | q != p :: BalanceOf(t, q) == BalanceOf(s, q);
    }
  }

  lemma {:induction false} OtherStepsKeepShop(sys: System, o: Offer, op: Op)
    requires !Wins(sys, op)
    ensures Advance(sys, o, op.buyer, op.now).shop == sys.shop
  {
  }

  ghost predicate AlwaysWithinLimits(sys: System, o: Offer, ops: seq<Op>) {
    WithinLimits(Exec(sys, o, ops).shop, o) && (ops != [] ==> AlwaysWithinLimits(sys, o, ops[..|ops| - 1]))
  }

  /** At every won compare-and-set of the run the guard's reads still hold. */
  predicate WonSwapsAffordable(sys: System, o: Offer, ops: seq<Op>) {
    ops != [] ==>
      var front, op := ops[..|ops| - 1], ops[|ops| - 1];
      var before := Exec(sys, o, front);
      && WonSwapsAffordable(sys, o, front)
      && (Wins(before, op) ==>
            Affordable(before.shop, o, before.buyers[op.buyer].user, before.buyers[op.buyer].quantity))
  }

  /** The limits hold throughout a run exactly if every won compare-and-set could have passed the guard again. */
  lemma {:induction false} LimitsKeptExactly(sys: System, o: Offer, ops: seq<Op>)
    requires WithinLimits(sys.shop, o)
    ensures AlwaysWithinLimits(sys, o, ops) <==> WonSwapsAffordable(sys, o, ops)
    decreases |ops|
  {
    if ops == [] {
    } else {
      var front, op := ops[..|ops| - 1], ops[|ops| - 1];
      var before := Exec(sys, o, front);
      LimitsKeptExactly(sys, o, front);
      if AlwaysWithinLimits(sys, o, front) {
        if Wins(before, op) {
          CommitWithinExactly(before.shop, o, before.buyers[op.buyer].user, before.buyers[op.buyer].quantity);
        } else {
          OtherStepsKeepShop(before, o, op);
        }
      }
    }
  }

  // ---- One request of a user at a time ----

  /** Past its guard and not yet decided. */
  predicate InFlight(b: Buyer) {
    b.stage.Looking? || b.stage.Seen?
  }

  ghost predicate OneEach(sys: System) {
    forall i, j | 0 <= i < |sys.buyers| && 0 <= j < |sys.buyers| && i != j
      && InFlight(sys.buyers[i]) && InFlight(sys.buyers[j]) :: sys.buyers[i].user != sys.buyers[j].user
  }

  ghost predicate AlwaysOneEach(sys: System, o: Offer, ops: seq<Op>) {
    OneEach(Exec(sys, o, ops)) && (ops != [] ==> AlwaysOneEach(sys, o, ops[..|ops| - 1]))
  }

  ghost predicate FlightsAffordable(sys: System, o: Offer) {
    forall b | 0 <= b < |sys.buyers| && InFlight(sys.buyers[b]) ::
      Affordable(sys.shop, o, sys.buyers[b].user, sys.buyers[b].quantity)
  }

  lemma {:induction false} OthersStayAffordable(s: Shop, o: Offer, user: nat, quantity: nat, other: nat, n: nat)
    requires user != other && Affordable(s, o, other, n)
    ensures Affordable(Committed(s, o, user, quantity), o, other, n)
  {
    ClaimsAppend(s.purchases, o, user, quantity, other);
  }

  lemma {:induction false} GuardIsAffordable(s: Shop, o: Offer, user: nat, quantity: nat, now: int)
    requires Guard(s, o, user, quantity, now).None?
    ensures Affordable(s, o, user, quantity)
  {
  }

  lemma {:induction false} StepAffordable(sys: System, o: Offer, op: Op)
    requires FlightsAffordable(sys, o) && OneEach(sys)
    ensures FlightsAffordable(Advance(sys, o, op.buyer, op.now), o)
  {
    var t := Advance(sys, o, op.buyer, op.now);
    forall b | 0 <= b < |t.buyers| && InFlight(t.buyers[b])
      ensures Affordable(t.shop, o, t.buyers[b].user, t.buyers[b].quantity)
    {
      if Wins(sys, op) {
        assert t.buyers[b] == sys.buyers[b];
        OthersStayAffordable(sys.shop, o, sys.buyers[op.buyer].user, sys.buyers[op.buyer].quantity,
                             sys.buyers[b].user, sys.buyers[b].quantity);
      } else {
        OtherStepsKeepShop(sys, o, op);
        if b == op.buyer && sys.buyers[b].stage == Start {
          GuardIsAffordable(sys.shop, o, sys.buyers[b].user, sys.buyers[b].quantity, op.now);
        }
      }
    }
  }

  lemma {:induction false} RunAffordable(sys: System, o: Offer, ops: seq<Op>)
    requires FlightsAffordable(sys, o) && AlwaysOneEach(sys, o, ops)
    ensures FlightsAffordable(Exec(sys, o, ops), o) && WonSwapsAffordable(sys, o, ops)
    decreases |ops|
  {
    if ops != [] {
      var front := ops[..|ops| - 1];
      RunAffordable(sys, o, front);
      AlwaysNow(sys, o, front);
      StepAffordable(Exec(sys, o, front), o, ops[|ops| - 1]);
    }
  }

  lemma {:induction false} AlwaysNow(sys: System, o: Offer, ops: seq<Op>)
    requires AlwaysOneEach(sys, o, ops)
    ensures OneEach(Exec(sys, o, ops))
  {
  }

  /**
   * If no two requests of one user are ever between their guard and their compare-and-set together, no
   * purse goes below zero and nobody gets above the claim limit.
   */
  lemma {:induction false} LimitsKeptOneAtATime(sys: System, o: Offer, ops: seq<Op>)
    requires Initial(sys, o) && WithinLimits(sys.shop, o) && AlwaysOneEach(sys, o, ops)
    ensures AlwaysWithinLimits(sys, o, ops)
  {
    RunAffordable(sys, o, ops);
    LimitsKeptExactly(sys, o, ops);
  }

  // ---- Two requests of one user together ----

  function TwoRequests(balance: map<Purse, real>): System {
    System(Shop(0, balance, [], []), [Buyer(1, 1, Start), Buyer(1, 1, Start)])
  }

  /** Both pass the guard, and then each looks and wins. */
  const TOGETHER := [Op(0, 0), Op(1, 0), Op(0, 0), Op(0, 0), Op(1, 0), Op(1, 0)]

  lemma {:induction false} ExecAppend(sys: System, o: Offer, ops: seq<Op>, op: Op)
    ensures Exec(sys, o, ops + [op]) == Advance(Exec(sys, o, ops), o, op.buyer, op.now)
  {
    assert (ops + [op])[..|ops|] == ops;
  }

  lemma {:induction false} BothBuy(o: Offer, balance: map<Purse, real>)
    requires o.unlimited && Guard(TwoRequests(balance).shop, o, 1, 1, 0).None?
    ensures Initial(TwoRequests(balance), o)
    ensures var s := TwoRequests(balance).shop;
            Exec(TwoRequests(balance), o, TOGETHER).shop == Committed(Committed(s, o, 1, 1), o, 1, 1)
  {
    var sys := TwoRequests(balance);
    var s := sys.shop;
    var t := Committed(s, o, 1, 1);
    var none: seq<Op> := [];
    ExecAppend(sys, o, none, Op(0, 0));
    assert none + [Op(0, 0)] == [Op(0, 0)];
    assert Exec(sys, o, [Op(0, 0)]) == System(s, [Buyer(1, 1, Looking(0)), Buyer(1, 1, Start)]);
    ExecAppend(sys, o, [Op(0, 0)], Op(1, 0));
    assert Exec(sys, o, [Op(0, 0)] + [Op(1, 0)]) == System(s, [Buyer(1, 1, Looking(0)), Buyer(1, 1, Looking(0))]);
    ExecAppend(sys, o, [Op(0, 0)] + [Op(1, 0)], Op(0, 0));
    ExecAppend(sys, o, [Op(0, 0)] + [Op(1, 0)] + [Op(0, 0)], Op(0, 0));
    assert Exec(sys, o, [Op(0, 0)] + [Op(1, 0)] + [Op(0, 0)] + [Op(0, 0)])
        == System(t, [Buyer(1, 1, Bought), Buyer(1, 1, Looking(0))]);
    ExecAppend(sys, o, [Op(0, 0)] + [Op(1, 0)] + [Op(0, 0)] + [Op(0, 0)], Op(1, 0));
    ExecAppend(sys, o, [Op(0, 0)] + [Op(1, 0)] + [Op(0, 0)] + [Op(0, 0)] + [Op(1, 0)], Op(1, 0));
    assert TOGETHER == [Op(0, 0)] + [Op(1, 0)] + [Op(0, 0)] + [Op(0, 0)] + [Op(1, 0)] + [Op(1, 0)];
  }

  const FREE_OFFER := Offer(false, true, 0, 9, true, true, None, true, 1, 0.0, None, 1.0, 1)
  const PAID_OFFER := Offer(false, true, 0, 9, true, true, None, false, 0, 10.0, None, 1.0, 1)

  /** A claim limit of 1 and two claims. */
  lemma {:induction false} ClaimLimitPassed()
    ensures Initial(TwoRequests(map[]), FREE_OFFER) && WithinLimits(TwoRequests(map[]).shop, FREE_OFFER)
    ensures FREE_OFFER.claimLimit == 1 && Claims(Exec(TwoRequests(map[]), FREE_OFFER, TOGETHER).shop.purchases, 1) == 2
  {
    BothBuy(FREE_OFFER, map[]);
    var s := TwoRequests(map[]).shop;
    ClaimsAppend(s.purchases, FREE_OFFER, 1, 1, 1);
    ClaimsAppend(Committed(s, FREE_OFFER, 1, 1).purchases, FREE_OFFER, 1, 1, 1);
  }

  /** A purse of 10 that ends at -10. */
  lemma {:induction false} PurseOverdrawn()
    ensures var purse := Purse(1, POL);
            var sys := TwoRequests(map[purse := 10.0]);
            && Initial(sys, PAID_OFFER) && WithinLimits(sys.shop, PAID_OFFER)
            && BalanceOf(Exec(sys, PAID_OFFER, TOGETHER).shop, purse) == -10.0
  {
    BothBuy(PAID_OFFER, map[Purse(1, POL) := 10.0]);
  }
}
