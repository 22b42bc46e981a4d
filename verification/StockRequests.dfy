/** An unlimited offer: which requests no interleaving can push past a balance or the claim limit. */
module StockRequests {
  import opened Tables
  import opened StockModel
  import opened StockTheorems
  import opened StockLimits

  /** An offer that is open at its start, and that stock never closes. */
  predicate OpenOffer(o: Offer) {
    !o.deleted && o.eventActive && o.active && o.unlimited && o.startsAt <= o.endsAt
  }

  /** The request passes the guard if it comes alone. */
  predicate PassesAlone(s: Shop, o: Offer, b: Buyer) {
    Guard(s, o, b.user, b.quantity, o.startsAt).None?
  }

  /** What a user's requests that each pass alone ask for together. */
  function Asked(s: Shop, o: Offer, buyers: seq<Buyer>, u: nat): nat {
    if buyers == [] then 0
    else
      var b := buyers[|buyers| - 1];
      Asked(s, o, buyers[..|buyers| - 1], u) + if b.user == u && PassesAlone(s, o, b) then b.quantity else 0
  }

  ghost predicate FitTogether(s: Shop, o: Offer, buyers: seq<Buyer>) {
    forall u: nat :: Affordable(s, o, u, Asked(s, o, buyers, u))
  }

  ghost predicate NoInterleavingBreaks(sys: System, o: Offer) {
    forall ops: seq<Op> :: WithinLimits(Exec(sys, o, ops).shop, o)
  }

  // ---- What has been sold to a user ----

  /** `t` comes of `s` by selling `n` to user `u`, and any number to others. */
  ghost predicate SoldTo(s: Shop, t: Shop, o: Offer, u: nat, n: nat) {
    && Claims(t.purchases, u) == Claims(s.purchases, u) + n
    && BalanceOf(t, PurseOf(o, u)) == BalanceOf(s, PurseOf(o, u)) - Total(o, n)
  }

  ghost predicate SameElsewhere(s: Shop, t: Shop, o: Offer) {
    && t.balance.Keys == s.balance.Keys
    && forall p: Purse | p.currency != CurrencyOf(o) :: BalanceOf(t, p) == BalanceOf(s, p)
  }

  lemma {:induction false} TotalOfMore(o: Offer, m: nat, n: nat)
    ensures Total(o, m + n) == Total(o, m) + Total(o, n)
  {
  }

  lemma {:induction false} TotalMonotone(o: Offer, m: nat, n: nat)
    requires m <= n && (o.free || o.price > 0.0)
    ensures Total(o, m) <= Total(o, n)
  {
    TotalOfMore(o, m, n - m);
  }

  lemma {:induction false} NothingSold(s: Shop, o: Offer, u: nat)
    ensures SoldTo(s, s, o, u, 0)
  {
  }

  lemma {:induction false} CommitSold(s: Shop, t: Shop, o: Offer, u: nat, n: nat, user: nat, quantity: nat)
    requires SoldTo(s, t, o, u, n)
    ensures SoldTo(s, Committed(t, o, user, quantity), o, u, n + if user == u then quantity else 0)
  {
    ClaimsAppend(t.purchases, o, user, quantity, u);
    TotalOfMore(o, n, quantity);
    if o.free { FreeTotal(o, quantity); }
  }

  // ---- Nothing breaks if the requests fit ----

  /** A buyer past its guard would pass it alone, and sold is what the buyers bought. */
  ghost predicate Accounted(start: System, sys: System, o: Offer) {
    && |sys.buyers| == |start.buyers| && SameElsewhere(start.shop, sys.shop, o)
    && (forall b | 0 <= b < |sys.buyers| :: SameRequest(start, sys, o, b))
    && (forall u: nat :: SoldTo(start.shop, sys.shop, o, u, Won(sys.buyers, u)))
  }

  ghost predicate SameRequest(start: System, sys: System, o: Offer, b: nat)
    requires b < |sys.buyers| == |start.buyers|
  {
    && sys.buyers[b].user == start.buyers[b].user && sys.buyers[b].quantity == start.buyers[b].quantity
    && (InFlight(sys.buyers[b]) || sys.buyers[b].stage.Bought? ==> PassesAlone(start.shop, o, start.buyers[b]))
  }

  /** Guards only get stricter. */
  lemma {:induction false} StricterGuard(start: System, sys: System, o: Offer, b: nat, now: int)
    requires Accounted(start, sys, o) && OpenOffer(o) && b < |sys.buyers|
    requires Guard(sys.shop, o, sys.buyers[b].user, sys.buyers[b].quantity, now).None?
    ensures PassesAlone(start.shop, o, start.buyers[b])
  {
    var u := sys.buyers[b].user;
    assert SameRequest(start, sys, o, b);
    assert SoldTo(start.shop, sys.shop, o, u, Won(sys.buyers, u));
    if o.free || o.price > 0.0 { TotalMonotone(o, 0, Won(sys.buyers, u)); }
  }

  lemma {:induction false} PurseThere(s: Shop, o: Offer, b: Buyer)
    requires PassesAlone(s, o, b)
    ensures o.free || PurseOf(o, b.user) in s.balance
  {
  }

  lemma {:induction false} StepRequests(start: System, sys: System, o: Offer, op: Op, b: nat)
    requires Accounted(start, sys, o) && OpenOffer(o) && b < |sys.buyers|
    ensures SameRequest(start, Advance(sys, o, op.buyer, op.now), o, b)
  {
    assert SameRequest(start, sys, o, b);
    if b == op.buyer && Guard(sys.shop, o, sys.buyers[b].user, sys.buyers[b].quantity, op.now).None? {
      StricterGuard(start, sys, o, b, op.now);
    }
  }

  lemma {:induction false} StepSold(start: System, sys: System, o: Offer, op: Op, u: nat)
    requires Accounted(start, sys, o) && op.buyer < |sys.buyers|
    ensures var t := Advance(sys, o, op.buyer, op.now); SoldTo(start.shop, t.shop, o, u, Won(t.buyers, u))
  {
    var t := Advance(sys, o, op.buyer, op.now);
    assert t.buyers == sys.buyers[op.buyer := t.buyers[op.buyer]];
    assert SoldTo(start.shop, sys.shop, o, u, Won(sys.buyers, u));
    WonUpdate(sys.buyers, op.buyer, t.buyers[op.buyer], u);
    if Wins(sys, op) {
      CommitSold(start.shop, sys.shop, o, u, Won(sys.buyers, u), sys.buyers[op.buyer].user,
                 sys.buyers[op.buyer].quantity);
    } else {
      OtherStepsKeepShop(sys, o, op);
    }
  }

  lemma {:induction false} StepElsewhere(start: System, sys: System, o: Offer, op: Op)
    requires Accounted(start, sys, o)
    ensures SameElsewhere(start.shop, Advance(sys, o, op.buyer, op.now).shop, o)
  {
    if Wins(sys, op) {
      assert SameRequest(start, sys, o, op.buyer);
      PurseThere(start.shop, o, start.buyers[op.buyer]);
    } else {
      OtherStepsKeepShop(sys, o, op);
    }
  }

  lemma {:induction false} StepAccounted(start: System, sys: System, o: Offer, op: Op)
    requires Accounted(start, sys, o) && OpenOffer(o)
    ensures Accounted(start, Advance(sys, o, op.buyer, op.now), o)
  {
    var t := Advance(sys, o, op.buyer, op.now);
    if op.buyer < |sys.buyers| {
      assert |t.buyers| == |sys.buyers|;
      StepElsewhere(start, sys, o, op);
      forall b | 0 <= b < |t.buyers| ensures SameRequest(start, t, o, b) {
        StepRequests(start, sys, o, op, b);
      }
      forall u: nat ensures SoldTo(start.shop, t.shop, o, u, Won(t.buyers, u)) {
        StepSold(start, sys, o, op, u);
      }
    }
  }

  lemma {:induction false} RunAccounted(sys: System, o: Offer, ops: seq<Op>)
    requires Initial(sys, o) && OpenOffer(o)
    ensures Accounted(sys, Exec(sys, o, ops), o)
    decreases |ops|
  {
    if ops == [] {
      forall u: nat ensures SoldTo(sys.shop, sys.shop, o, u, Won(sys.buyers, u)) {
        NoneWon(sys.buyers, u);
      }
    } else {
      RunAccounted(sys, o, ops[..|ops| - 1]);
      StepAccounted(sys, Exec(sys, o, ops[..|ops| - 1]), o, ops[|ops| - 1]);
    }
  }

  lemma {:induction false} NoneWon(buyers: seq<Buyer>, u: nat)
    requires forall b | 0 <= b < |buyers| :: buyers[b].stage == Start
    ensures Won(buyers, u) == 0
  {
    if buyers != [] { NoneWon(buyers[..|buyers| - 1], u); }
  }

  /** A user's won requests are among those that pass alone. */
  lemma {:induction false} WonIsAsked(s: Shop, o: Offer, start: seq<Buyer>, buyers: seq<Buyer>, u: nat)
    requires |start| == |buyers|
    requires forall b | 0 <= b < |buyers| ::
               && buyers[b].user == start[b].user && buyers[b].quantity == start[b].quantity
               && (buyers[b].stage.Bought? ==> PassesAlone(s, o, start[b]))
    ensures Won(buyers, u) <= Asked(s, o, start, u)
  {
    if buyers != [] { WonIsAsked(s, o, start[..|start| - 1], buyers[..|buyers| - 1], u); }
  }

  lemma {:induction false} NoneAsked(s: Shop, o: Offer, buyers: seq<Buyer>, u: nat)
    requires !o.free && o.price <= 0.0
    ensures Asked(s, o, buyers, u) == 0
  {
    if buyers != [] { NoneAsked(s, o, buyers[..|buyers| - 1], u); }
  }

  lemma {:induction false} SoldWithin(start: System, sys: System, o: Offer, u: nat)
    requires Accounted(start, sys, o) && WithinLimits(start.shop, o) && FitTogether(start.shop, o, start.buyers)
    ensures BalanceOf(sys.shop, PurseOf(o, u)) >= 0.0
    ensures o.free && o.claimLimit > 0 ==> Claims(sys.shop.purchases, u) <= o.claimLimit
  {
    var asked, won := Asked(start.shop, o, start.buyers, u), Won(sys.buyers, u);
    forall b | 0 <= b < |sys.buyers|
      ensures sys.buyers[b].user == start.buyers[b].user && sys.buyers[b].quantity == start.buyers[b].quantity
      ensures sys.buyers[b].stage.Bought? ==> PassesAlone(start.shop, o, start.buyers[b])
    {
      assert SameRequest(start, sys, o, b);
    }
    WonIsAsked(start.shop, o, start.buyers, sys.buyers, u);
    assert Affordable(start.shop, o, u, asked);
    assert SoldTo(start.shop, sys.shop, o, u, won);
    if o.free {
      FreeTotal(o, won);
    } else if o.price > 0.0 {
      TotalMonotone(o, won, asked);
    } else {
      NoneAsked(start.shop, o, start.buyers, u);
    }
  }

  lemma {:induction false} FittingKeepsLimits(sys: System, o: Offer, ops: seq<Op>)
    requires Initial(sys, o) && OpenOffer(o) && WithinLimits(sys.shop, o) && FitTogether(sys.shop, o, sys.buyers)
    ensures WithinLimits(Exec(sys, o, ops).shop, o)
  {
    var t := Exec(sys, o, ops);
    RunAccounted(sys, o, ops);
    forall p: Purse ensures BalanceOf(t.shop, p) >= 0.0 {
      if p.currency == CurrencyOf(o) {
        SoldWithin(sys, t, o, p.user);
      } else {
        assert BalanceOf(t.shop, p) == BalanceOf(sys.shop, p);
      }
    }
    forall u: nat ensures o.free && o.claimLimit > 0 ==> Claims(t.shop.purchases, u) <= o.claimLimit {
      SoldWithin(sys, t, o, u);
    }
  }

  // ---- An interleaving that breaks a limit if they do not ----

  /** The first `n` buyers pass their guards, one after another. */
  function Starts(o: Offer, n: nat): seq<Op> {
    if n == 0 then [] else Starts(o, n - 1) + [Op(n - 1, o.startsAt)]
  }

  /** Then the first `n` buyers look and swap. */
  function Swaps(o: Offer, n: nat): seq<Op> {
    if n == 0 then [] else Swaps(o, n - 1) + [Op(n - 1, o.startsAt)] + [Op(n - 1, o.startsAt)]
  }

  function Admitted(s: Shop, o: Offer, b: Buyer): Buyer {
    var guard := Guard(s, o, b.user, b.quantity, o.startsAt);
    b.(stage := if guard.Some? then Refused(guard.value) else Looking(0))
  }

  lemma {:induction false} AllStart(sys: System, o: Offer, n: nat)
    requires Initial(sys, o) && n <= |sys.buyers|
    ensures var t := Exec(sys, o, Starts(o, n));
            && t.shop == sys.shop && |t.buyers| == |sys.buyers|
            && forall b | 0 <= b < |sys.buyers| ::
                 t.buyers[b] == if b < n then Admitted(sys.shop, o, sys.buyers[b]) else sys.buyers[b]
  {
    if n > 0 {
      AllStart(sys, o, n - 1);
      ExecAppend(sys, o, Starts(o, n - 1), Op(n - 1, o.startsAt));
    }
  }

  /** The shop after all of these buyers bought that pass alone. */
  function AllSold(s: Shop, o: Offer, buyers: seq<Buyer>): Shop {
    if buyers == [] then s
    else
      var t, b := AllSold(s, o, buyers[..|buyers| - 1]), buyers[|buyers| - 1];
      if PassesAlone(s, o, b) then Committed(t, o, b.user, b.quantity) else t
  }

  lemma {:induction false} AllSoldTo(s: Shop, o: Offer, buyers: seq<Buyer>, u: nat)
    ensures SoldTo(s, AllSold(s, o, buyers), o, u, Asked(s, o, buyers, u))
  {
    if buyers == [] {
      NothingSold(s, o, u);
    } else {
      var front, b := buyers[..|buyers| - 1], buyers[|buyers| - 1];
      AllSoldTo(s, o, front, u);
      CommitSold(s, AllSold(s, o, front), o, u, Asked(s, o, front, u), b.user, b.quantity);
    }
  }

  /** A buyer that was admitted looks and wins; one that was refused does nothing. */
  lemma {:induction false} LookAndSwap(sys: System, o: Offer, s: Shop, b: nat, was: Buyer)
    requires o.unlimited && b < |sys.buyers| && sys.buyers[b] == Admitted(s, o, was)
    ensures var t := Advance(Advance(sys, o, b, o.startsAt), o, b, o.startsAt);
            && t.shop == (if PassesAlone(s, o, was) then Committed(sys.shop, o, was.user, was.quantity) else sys.shop)
            && |t.buyers| == |sys.buyers| && forall k | 0 <= k < |sys.buyers| && k != b :: t.buyers[k] == sys.buyers[k]
  {
  }

  lemma {:induction false} TwiceMore(sys: System, o: Offer, ops: seq<Op>, op: Op)
    ensures Exec(sys, o, ops + [op] + [op])
         == Advance(Advance(Exec(sys, o, ops), o, op.buyer, op.now), o, op.buyer, op.now)
  {
    ExecAppend(sys, o, ops, op);
    ExecAppend(sys, o, ops + [op], op);
  }

  lemma {:induction false} OneMoreSold(s: Shop, o: Offer, buyers: seq<Buyer>, n: nat)
    requires 0 < n <= |buyers|
    ensures var t, b := AllSold(s, o, buyers[..n - 1]), buyers[n - 1];
            AllSold(s, o, buyers[..n]) == if PassesAlone(s, o, b) then Committed(t, o, b.user, b.quantity) else t
  {
    assert buyers[..n][..n - 1] == buyers[..n - 1];
  }

  /** After the first `n` buyers' swaps; the others are still as they were admitted. */
  ghost predicate SwappedUpTo(sys: System, o: Offer, t: System, n: nat) {
    && n <= |sys.buyers| == |t.buyers| && t.shop == AllSold(sys.shop, o, sys.buyers[..n])
    && forall b | n <= b < |sys.buyers| :: t.buyers[b] == Admitted(sys.shop, o, sys.buyers[b])
  }

  lemma {:induction false} OneMoreSwap(sys: System, o: Offer, t: System, n: nat)
    requires o.unlimited && 0 < n <= |sys.buyers| && SwappedUpTo(sys, o, t, n - 1)
    ensures SwappedUpTo(sys, o, Advance(Advance(t, o, n - 1, o.startsAt), o, n - 1, o.startsAt), n)
  {
    OneMoreSold(sys.shop, o, sys.buyers, n);
    LookAndSwap(t, o, sys.shop, n - 1, sys.buyers[n - 1]);
  }

  lemma {:induction false} AllSwap(sys: System, o: Offer, n: nat)
    requires Initial(sys, o) && o.unlimited && n <= |sys.buyers|
    ensures SwappedUpTo(sys, o, Exec(sys, o, Starts(o, |sys.buyers|) + Swaps(o, n)), n)
  {
    var starts := Starts(o, |sys.buyers|);
    if n == 0 {
      AllStart(sys, o, |sys.buyers|);
      assert starts + Swaps(o, 0) == starts;
    } else {
      var op := Op(n - 1, o.startsAt);
      var front := starts + Swaps(o, n - 1);
      AllSwap(sys, o, n - 1);
      assert starts + Swaps(o, n) == front + [op] + [op];
      TwiceMore(sys, o, front, op);
      OneMoreSwap(sys, o, Exec(sys, o, front), n);
    }
  }

  lemma {:induction false} UnfittingBreaks(sys: System, o: Offer, u: nat)
    requires Initial(sys, o) && OpenOffer(o) && !Affordable(sys.shop, o, u, Asked(sys.shop, o, sys.buyers, u))
    ensures !WithinLimits(Exec(sys, o, Starts(o, |sys.buyers|) + Swaps(o, |sys.buyers|)).shop, o)
  {
    AllSwap(sys, o, |sys.buyers|);
    AllSoldTo(sys.shop, o, sys.buyers, u);
    assert sys.buyers[..|sys.buyers|] == sys.buyers;
  }

  /**
   * No interleaving of these requests brings a purse below zero or a user above the claim limit if and only if each
   * user's requests that would pass the guard alone also fit together.
   */
  lemma {:induction false} RequestsFitExactly(sys: System, o: Offer)
    requires Initial(sys, o) && OpenOffer(o) && WithinLimits(sys.shop, o)
    ensures NoInterleavingBreaks(sys, o) <==> FitTogether(sys.shop, o, sys.buyers)
  {
    if FitTogether(sys.shop, o, sys.buyers) {
      forall ops: seq<Op> ensures WithinLimits(Exec(sys, o, ops).shop, o) {
        FittingKeepsLimits(sys, o, ops);
      }
    } else {
      var u: nat :| !Affordable(sys.shop, o, u, Asked(sys.shop, o, sys.buyers, u));
      UnfittingBreaks(sys, o, u);
    }
  }
}
