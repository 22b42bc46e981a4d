/** What each step of a purchase request does, in terms of the offer as it is stored. */
module StockOutcomes {
  import opened Tables
  import opened StockModel
  import opened StockTheorems

  /** The purse a request pays from: in the offer's currency, or in POL if it names none. */
  ghost predicate IsPayer(p: Purse, o: Offer, user: nat) {
    p.user == user && (if o.currency.Some? then p.currency == o.currency.value else p.currency.POL?)
  }

  predicate OnSale(o: Offer, now: int) {
    o.eventActive && o.startsAt <= now && now <= o.endsAt
  }

  predicate Available(o: Offer, sold: nat) {
    o.active && (o.unlimited || (o.stock.Some? && o.stock.value > sold))
  }

  /** Purchase rows of a user. */
  function RowsOf(ps: seq<Purchase>, user: nat): set<nat> {
    set i | 0 <= i < |ps| && ps[i].purse.user == user
  }

  lemma {:induction false} ClaimsAreRows(ps: seq<Purchase>, user: nat)
    ensures Claims(ps, user) == |RowsOf(ps, user)|
  {
    if ps == [] {
      assert RowsOf(ps, user) == {};
    } else {
      var n := |ps| - 1;
      ClaimsAreRows(ps[..n], user);
      var front := RowsOf(ps[..n], user);
      assert RowsOf(ps, user) == front + if ps[n].purse.user == user then {n} else {};
    }
  }

  predicate OverLimit(s: Shop, o: Offer, user: nat, quantity: nat) {
    o.free && o.claimLimit > 0 && |RowsOf(s.purchases, user)| + quantity > o.claimLimit
  }

  /** Only the stage of buyer `b` changes. */
  ghost predicate OnlyStage(sys: System, t: System, b: nat)
    requires b < |sys.buyers|
  {
    && t.shop == sys.shop && |t.buyers| == |sys.buyers|
    && (forall k | 0 <= k < |sys.buyers| && k != b :: t.buyers[k] == sys.buyers[k])
    && t.buyers[b] == sys.buyers[b].(stage := t.buyers[b].stage)
  }

  // ---- The guard ----

  /** The first thing that is wrong with a request decides its refusal; one with nothing wrong goes on. */
  lemma {:induction false} GuardOutcome(sys: System, o: Offer, b: nat, now: int, payer: Purse)
    requires b < |sys.buyers| && sys.buyers[b].stage == Start && IsPayer(payer, o, sys.buyers[b].user)
    ensures var t, s, buyer := Advance(sys, o, b, now), sys.shop, sys.buyers[b];
            && OnlyStage(sys, t, b)
            && t.buyers[b].stage ==
                 if o.deleted then Refused(Missing)
                 else if !OnSale(o, now) then Refused(NotLive)
                 else if !Available(o, s.sold) then Refused(Unavailable)
                 else if OverLimit(s, o, buyer.user, buyer.quantity) then Refused(ClaimLimit)
                 else if o.free then Looking(0)
                 else if o.price <= 0.0 then Refused(InvalidPrice)
                 else if payer !in s.balance then Refused(UserNotFound)
                 else if s.balance[payer] < o.price * buyer.quantity as real then Refused(Insufficient)
                 else Looking(0)
  {
    ClaimsAreRows(sys.shop.purchases, sys.buyers[b].user);
    assert payer == PurseOf(o, sys.buyers[b].user);
  }

  // ---- The optimistic loop ----

  /** A look finds enough left, or the request is refused. */
  lemma {:induction false} LookOutcome(sys: System, o: Offer, b: nat, now: int)
    requires b < |sys.buyers| && sys.buyers[b].stage.Looking?
    ensures var t, s, buyer := Advance(sys, o, b, now), sys.shop, sys.buyers[b];
            && OnlyStage(sys, t, b)
            && t.buyers[b].stage ==
                 if o.unlimited || s.sold + buyer.quantity <= (if o.stock.Some? then o.stock.value else 0)
                 then Seen(buyer.stage.attempt, s.sold)
                 else Refused(OutOfStock)
  {
  }

  /** A lost compare-and-set looks again, up to ten times in all. */
  lemma {:induction false} LostOutcome(sys: System, o: Offer, b: nat, now: int)
    requires b < |sys.buyers| && sys.buyers[b].stage.Seen? && sys.buyers[b].stage.sold != sys.shop.sold
    ensures var t, tried := Advance(sys, o, b, now), sys.buyers[b].stage.attempt + 1;
            && OnlyStage(sys, t, b)
            && t.buyers[b].stage == if tried < 10 then Looking(tried) else Refused(Busy)
  {
  }

  /** The purse in the offer's currency pays quantity times price and no other balance changes; free costs nothing. */
  ghost predicate Paid(s: Shop, t: Shop, o: Offer, payer: Purse, quantity: nat) {
    if o.free then t.balance == s.balance
    else forall p: Purse ::
           BalanceOf(t, p) == BalanceOf(s, p) - if p == payer then o.price * quantity as real else 0.0
  }

  ghost predicate NewRows(s: Shop, t: Shop, o: Offer, payer: Purse, quantity: nat) {
    && |t.purchases| == |s.purchases| + quantity && t.purchases[..|s.purchases|] == s.purchases
    && forall i | |s.purchases| <= i < |t.purchases| ::
         t.purchases[i] == Purchase(payer, if o.free then 0.0 else o.price)
  }

  ghost predicate NewMachines(s: Shop, t: Shop, o: Offer, user: nat, quantity: nat) {
    && |t.inventory| == |s.inventory| + quantity && t.inventory[..|s.inventory|] == s.inventory
    && forall i | |s.inventory| <= i < |t.inventory| ::
         t.inventory[i] == Item(user, o.hashRate, if o.slotSize == 2 then 2 else 1)
  }

  lemma {:induction false} CommitOutcome(s: Shop, o: Offer, user: nat, quantity: nat, payer: Purse)
    requires IsPayer(payer, o, user)
    ensures var t := Committed(s, o, user, quantity);
            && t.sold == s.sold + quantity && Paid(s, t, o, payer, quantity)
            && NewRows(s, t, o, payer, quantity) && NewMachines(s, t, o, user, quantity)
  {
    assert payer == PurseOf(o, user);
  }

  /** A won compare-and-set counts the quantity, takes the price from one purse, and makes the rows and machines. */
  lemma {:induction false} SwapOutcome(sys: System, o: Offer, b: nat, now: int, payer: Purse)
    requires b < |sys.buyers| && sys.buyers[b].stage.Seen? && sys.buyers[b].stage.sold == sys.shop.sold
    requires IsPayer(payer, o, sys.buyers[b].user)
    ensures var t, s, user, quantity := Advance(sys, o, b, now), sys.shop, sys.buyers[b].user, sys.buyers[b].quantity;
            && t.buyers == sys.buyers[b := sys.buyers[b].(stage := Bought)]
            && t.shop.sold == s.sold + quantity && Paid(s, t.shop, o, payer, quantity)
            && NewRows(s, t.shop, o, payer, quantity) && NewMachines(s, t.shop, o, user, quantity)
  {
    CommitOutcome(sys.shop, o, sys.buyers[b].user, sys.buyers[b].quantity, payer);
  }

  /** A request that is decided stays so and does nothing more. */
  lemma {:induction false} DecidedOutcome(sys: System, o: Offer, b: nat, now: int)
    requires b < |sys.buyers| ==> sys.buyers[b].stage.Bought? || sys.buyers[b].stage.Refused?
    ensures Advance(sys, o, b, now) == sys
  {
  }

  /** The quantity asked for, when it is from 1 to 25, and otherwise the nearest of these; 1 if it is no number. */
  lemma {:induction false} QuantityOutcome(requested: Option<int>)
    ensures Quantity(None) == 1
    ensures requested.Some? ==>
              && (1 <= requested.value <= 25 ==> Quantity(requested) == requested.value)
              && (requested.value > 25 ==> Quantity(requested) == 25)
              && (requested.value < 1 ==> Quantity(requested) == 1)
  {
  }

  /** One piece at ten USDT: the POL purse stays and the USDT purse is empty. */
  lemma {:induction false} UsdtPays(s: Shop, o: Offer)
    requires s == Shop(0, map[Purse(1, POL) := 50.0, Purse(1, USDT) := 10.0], [], [])
    requires o == Offer(false, true, 0, 9, true, true, None, false, 0, 10.0, Some(USDT), 1.0, 1)
    ensures var t := Committed(s, o, 1, 1);
            BalanceOf(t, Purse(1, POL)) == 50.0 && BalanceOf(t, Purse(1, USDT)) == 0.0
  {
    CommitOutcome(s, o, 1, 1, Purse(1, USDT));
  }
}
