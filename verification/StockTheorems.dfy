/** Under every interleaving of buyers: no overselling, and counts, rows and debits agree. */
module StockTheorems {
  import opened Tables
  import opened StockModel

  /** What a purse has paid according to the purchase rows. */
  function Spent(ps: seq<Purchase>, p: Purse): real {
    if ps == [] then 0.0
    else Spent(ps[..|ps| - 1], p) + if ps[|ps| - 1].purse == p then ps[|ps| - 1].pricePaid else 0.0
  }

  function Machines(items: seq<Item>, user: nat): nat {
    if items == [] then 0 else Machines(items[..|items| - 1], user) + if items[|items| - 1].user == user then 1 else 0
  }

  lemma {:induction false} SpentAppend(ps: seq<Purchase>, o: Offer, user: nat, n: nat, p: Purse)
    ensures Spent(ps + Purchases(o, user, n), p)
              == Spent(ps, p) + if p == PurseOf(o, user) then Total(o, n) else 0.0
  {
    if n == 0 {
      assert ps + Purchases(o, user, 0) == ps;
    } else {
      var all := ps + Purchases(o, user, n);
      assert all[..|all| - 1] == ps + Purchases(o, user, n - 1);
      SpentAppend(ps, o, user, n - 1, p);
      OneMore(o, n);
    }
  }

  lemma {:induction false} OneMore(o: Offer, n: nat)
    requires n > 0
    ensures Total(o, n) == Total(o, n - 1) + Price(o)
  {
  }

  lemma {:induction false} FreeTotal(o: Offer, n: nat)
    requires o.free
    ensures Total(o, n) == 0.0
  {
  }

  lemma {:induction false} ClaimsAppend(ps: seq<Purchase>, o: Offer, user: nat, n: nat, u: nat)
    ensures Claims(ps + Purchases(o, user, n), u) == Claims(ps, u) + if u == user then n else 0
  {
    if n == 0 {
      assert ps + Purchases(o, user, 0) == ps;
    } else {
      var all := ps + Purchases(o, user, n);
      assert all[..|all| - 1] == ps + Purchases(o, user, n - 1);
      ClaimsAppend(ps, o, user, n - 1, u);
    }
  }

  lemma {:induction false} MachinesAppend(items: seq<Item>, o: Offer, user: nat, n: nat, u: nat)
    ensures Machines(items + Items(o, user, n), u) == Machines(items, u) + if u == user then n else 0
  {
    if n == 0 {
      assert items + Items(o, user, 0) == items;
    } else {
      var all := items + Items(o, user, n);
      assert all[..|all| - 1] == items + Items(o, user, n - 1);
      MachinesAppend(items, o, user, n - 1, u);
    }
  }

  // ---- Invariants ----

  /** `from` is the shop before the first buyer ran. */
  ghost predicate BooksOk(s: Shop, from: Shop) {
    && s.sold >= from.sold
    && s.sold - from.sold == |s.purchases| - |from.purchases| == |s.inventory| - |from.inventory|
    && (forall u: nat ::
          Claims(s.purchases, u) - Claims(from.purchases, u) == Machines(s.inventory, u) - Machines(from.inventory, u))
    && (forall p: Purse :: BalanceOf(s, p) + Spent(s.purchases, p) == BalanceOf(from, p) + Spent(from.purchases, p))
  }

  ghost predicate StockOk(s: Shop, o: Offer) {
    !o.unlimited && o.stock.Some? ==> s.sold <= o.stock.value
  }

  /** How many requests have gone through. */
  function Sales(buyers: seq<Buyer>): nat {
    if buyers == [] then 0 else Sales(buyers[..|buyers| - 1]) + if buyers[|buyers| - 1].stage.Bought? then 1 else 0
  }

  lemma {:induction false} SalesUpdate(buyers: seq<Buyer>, i: nat, b: Buyer)
    requires i < |buyers|
    ensures Sales(buyers[i := b]) == Sales(buyers)
              - (if buyers[i].stage.Bought? then 1 else 0) + if b.stage.Bought? then 1 else 0
  {
    var n := |buyers| - 1;
    if i < n {
      SalesUpdate(buyers[..n], i, b);
      assert buyers[i := b][..n] == buyers[..n][i := b];
    } else {
      assert buyers[i := b][..n] == buyers[..n];
    }
  }

  /** What a buyer has seen is not ahead of the count and left room when seen; each lost race was another's purchase. */
  ghost predicate BuyerOk(b: Buyer, s: Shop, o: Offer, sales: nat) {
    && b.quantity >= 1
    && match b.stage
       case Looking(attempt) => attempt < ATTEMPTS && sales >= attempt
       case Seen(attempt, sold) =>
         && attempt < ATTEMPTS && sold <= s.sold && Covers(o, sold, b.quantity)
         && sales >= attempt && (sold < s.sold ==> sales > attempt)
       case Refused(why) => why == Busy ==> sales >= ATTEMPTS
       case _ => true
  }

  ghost predicate Inv(sys: System, o: Offer, from: Shop) {
    && BooksOk(sys.shop, from) && StockOk(sys.shop, o)
    && forall b | 0 <= b < |sys.buyers| :: BuyerOk(sys.buyers[b], sys.shop, o, Sales(sys.buyers))
  }

  /** A sale takes from the purse what its rows say. */
  lemma {:induction false} CommitSpends(s: Shop, o: Offer, user: nat, quantity: nat, p: Purse)
    ensures var t := Committed(s, o, user, quantity);
            BalanceOf(t, p) + Spent(t.purchases, p) == BalanceOf(s, p) + Spent(s.purchases, p)
  {
    SpentAppend(s.purchases, o, user, quantity, p);
    if o.free { FreeTotal(o, quantity); }
  }

  lemma {:induction false} CommitCounts(s: Shop, o: Offer, user: nat, quantity: nat, u: nat)
    ensures var t := Committed(s, o, user, quantity);
            Claims(t.purchases, u) - Machines(t.inventory, u) == Claims(s.purchases, u) - Machines(s.inventory, u)
  {
    ClaimsAppend(s.purchases, o, user, quantity, u);
    MachinesAppend(s.inventory, o, user, quantity, u);
  }

  lemma {:induction false} CommitKeepsBooks(s: Shop, o: Offer, user: nat, quantity: nat, from: Shop)
    requires BooksOk(s, from)
    ensures BooksOk(Committed(s, o, user, quantity), from)
  {
    var t := Committed(s, o, user, quantity);
    forall u: nat
      ensures Claims(t.purchases, u) - Claims(from.purchases, u) ==
                Machines(t.inventory, u) - Machines(from.inventory, u)
    {
      CommitCounts(s, o, user, quantity, u);
    }
    forall p: Purse ensures BalanceOf(t, p) + Spent(t.purchases, p) == BalanceOf(from, p) + Spent(from.purchases, p) {
      CommitSpends(s, o, user, quantity, p);
    }
  }

  /** A buyer's own step, when it does not buy. */
  lemma {:induction false} StageKeeps(sys: System, o: Offer, b: nat, now: int, from: Shop)
    requires Inv(sys, o, from) && b < |sys.buyers|
    requires sys.buyers[b].stage.Seen? ==> sys.shop.sold != sys.buyers[b].stage.sold
    ensures Inv(Advance(sys, o, b, now), o, from)
  {
    var t := Advance(sys, o, b, now);
    assert t.shop == sys.shop && t.buyers == sys.buyers[b := t.buyers[b]];
    SalesUpdate(sys.buyers, b, t.buyers[b]);
    assert BuyerOk(sys.buyers[b], sys.shop, o, Sales(sys.buyers));
    assert BuyerOk(t.buyers[b], sys.shop, o, Sales(sys.buyers));
    forall k | 0 <= k < |t.buyers| ensures BuyerOk(t.buyers[k], t.shop, o, Sales(t.buyers)) {
      if k != b { assert t.buyers[k] == sys.buyers[k]; }
    }
  }

  lemma {:induction false} BuyKeeps(sys: System, o: Offer, b: nat, now: int, from: Shop)
    requires Inv(sys, o, from) && b < |sys.buyers|
    requires sys.buyers[b].stage.Seen? && sys.shop.sold == sys.buyers[b].stage.sold
    ensures Inv(Advance(sys, o, b, now), o, from)
  {
    var t := Advance(sys, o, b, now);
    CommitKeepsBooks(sys.shop, o, sys.buyers[b].user, sys.buyers[b].quantity, from);
    assert BuyerOk(sys.buyers[b], sys.shop, o, Sales(sys.buyers));
    assert t.buyers == sys.buyers[b := t.buyers[b]];
    SalesUpdate(sys.buyers, b, t.buyers[b]);
    forall k | 0 <= k < |t.buyers| ensures BuyerOk(t.buyers[k], t.shop, o, Sales(t.buyers)) {
      assert BuyerOk(sys.buyers[k], sys.shop, o, Sales(sys.buyers));
    }
  }

  lemma {:induction false} AdvanceKeeps(sys: System, o: Offer, b: nat, now: int, from: Shop)
    requires Inv(sys, o, from)
    ensures Inv(Advance(sys, o, b, now), o, from)
  {
    if b < |sys.buyers| {
      if sys.buyers[b].stage.Seen? && sys.shop.sold == sys.buyers[b].stage.sold {
        BuyKeeps(sys, o, b, now, from);
      } else {
        StageKeeps(sys, o, b, now, from);
      }
    }
  }

  /** Buyers about to start; a limited offer is not oversold yet. */
  ghost predicate Initial(sys: System, o: Offer) {
    && StockOk(sys.shop, o)
    && forall b | 0 <= b < |sys.buyers| :: sys.buyers[b].quantity >= 1 && sys.buyers[b].stage == Start
  }

  /**
   * Under every interleaving the sold count of a limited offer stays within its stock; it grows by
   * exactly the purchase rows and the machines created, for each buyer as many of one as of the other;
   * what a purse lost is the sum of its rows' prices; and a buyer is told to retry only when ten
   * other requests have gone through.
   */
  lemma {:induction false} RunKeeps(sys: System, o: Offer, ops: seq<Op>)
    requires Initial(sys, o)
    ensures Inv(Exec(sys, o, ops), o, sys.shop)
    decreases |ops|
  {
    if ops == [] {
    } else {
      var front, op := ops[..|ops| - 1], ops[|ops| - 1];
      RunKeeps(sys, o, front);
      AdvanceKeeps(Exec(sys, o, front), o, op.buyer, op.now, sys.shop);
    }
  }

  // ---- What one buyer gets ----

  /** Rows of the buyer grow only in the step that makes it a buyer, and then by its quantity. */
  lemma {:induction false} BoughtOnce(sys: System, o: Offer, op: Op, u: nat)
    ensures var t := Advance(sys, o, op.buyer, op.now);
            var won :=
              op.buyer < |sys.buyers| && !sys.buyers[op.buyer].stage.Bought? && t.buyers[op.buyer].stage.Bought?;
            Claims(t.shop.purchases, u)
              == Claims(sys.shop.purchases, u)
                 + if won && sys.buyers[op.buyer].user == u then sys.buyers[op.buyer].quantity else 0
  {
    if op.buyer < |sys.buyers| {
      var b := sys.buyers[op.buyer];
      ClaimsAppend(sys.shop.purchases, o, b.user, b.quantity, u);
    }
  }

  /** Quantities of a user's requests that went through. */
  function Won(buyers: seq<Buyer>, u: nat): nat {
    if buyers == [] then 0
    else
      var b := buyers[|buyers| - 1];
      Won(buyers[..|buyers| - 1], u) + if b.user == u && b.stage.Bought? then b.quantity else 0
  }

  lemma {:induction false} WonUpdate(buyers: seq<Buyer>, i: nat, b: Buyer, u: nat)
    requires i < |buyers| && b.user == buyers[i].user && b.quantity == buyers[i].quantity
    ensures Won(buyers[i := b], u) == Won(buyers, u)
              - (if b.user == u && buyers[i].stage.Bought? then b.quantity else 0)
              + if b.user == u && b.stage.Bought? then b.quantity else 0
  {
    var n := |buyers| - 1;
    if i < n {
      WonUpdate(buyers[..n], i, b, u);
      assert buyers[i := b][..n] == buyers[..n][i := b];
    } else {
      assert buyers[i := b][..n] == buyers[..n];
    }
  }

  /** Every user ends with as many purchase rows as its successful requests asked for. */
  lemma {:induction false} EachGetsItsQuantity(sys: System, o: Offer, ops: seq<Op>, u: nat)
    requires Initial(sys, o)
    ensures Claims(Exec(sys, o, ops).shop.purchases, u) - Won(Exec(sys, o, ops).buyers, u)
              == Claims(sys.shop.purchases, u) - Won(sys.buyers, u)
    decreases |ops|
  {
    if ops != [] {
      var front, op := ops[..|ops| - 1], ops[|ops| - 1];
      var before := Exec(sys, o, front);
      EachGetsItsQuantity(sys, o, front, u);
      BoughtOnce(before, o, op, u);
      if op.buyer < |before.buyers| {
        var after := Advance(before, o, op.buyer, op.now);
        WonUpdate(before.buyers, op.buyer, after.buyers[op.buyer], u);
        assert after.buyers == before.buyers[op.buyer := after.buyers[op.buyer]];
      }
    }
  }
}
