/**
 * A purchase request as the server runs it, cut at its awaits: the guard, each look at the sold
 * count, and each compare-and-set with the writes that follow it in the same transaction.
 */
module StockService {
  import opened Tables
  import opened StockModel

  class Service {
    const offer: Offer
    var sold: nat
    var balance: map<Purse, real>
    var purchases: seq<Purchase>
    var inventory: seq<Item>
    var buyers: seq<Buyer>

    constructor (offer: Offer, sold: nat, balance: map<Purse, real>)
      ensures this.offer == offer && View() == System(Shop(sold, balance, [], []), [])
    {
      this.offer, this.sold, this.balance := offer, sold, balance;
      purchases, inventory, buyers := [], [], [];
    }

    ghost function View(): System
      reads this
    {
      System(Shop(sold, balance, purchases, inventory), buyers)
    }

    /** A new request; the quantity is brought into range. */
    method Request(user: nat, requested: Option<int>) returns (b: nat)
      modifies this`buyers
      ensures b == |old(buyers)| && buyers == old(buyers) + [Buyer(user, Quantity(requested), Start)]
    {
      b := |buyers|;
      buyers := buyers + [Buyer(user, Quantity(requested), Start)];
    }

    method MoveTo(b: nat, stage: Stage)
      requires b < |buyers|
      modifies this`buyers
      ensures View() == At(old(View()), b, stage)
    {
      buyers := buyers[b := buyers[b].(stage := stage)];
    }

    method CountClaims(user: nat) returns (n: nat)
      ensures n == Claims(purchases, user)
    {
      n := 0;
      for i := 0 to |purchases|
        invariant n == Claims(purchases[..i], user)
      {
        TakeOneMore(purchases, i);
        if purchases[i].purse.user == user { n := n + 1; }
      }
      assert purchases[..|purchases|] == purchases;
    }

    method CheckOffer(b: nat, now: int)
      requires b < |buyers| && buyers[b].stage == Start
      modifies this`buyers
      ensures View() == Advance(old(View()), offer, b, now)
    {
      var user, quantity := buyers[b].user, buyers[b].quantity;
      if offer.deleted { MoveTo(b, Refused(Missing)); return; }
      if !Live(offer, now) { MoveTo(b, Refused(NotLive)); return; }
      if !offer.active || !HasStock(offer, sold) { MoveTo(b, Refused(Unavailable)); return; }
      if offer.free {
        if offer.claimLimit > 0 {
          var claims := CountClaims(user);
          if claims + quantity > offer.claimLimit { MoveTo(b, Refused(ClaimLimit)); return; }
        }
      } else {
        if offer.price <= 0.0 { MoveTo(b, Refused(InvalidPrice)); return; }
        var total := Total(offer, quantity);
        var purse := PurseOf(offer, user);
        if purse !in balance { MoveTo(b, Refused(UserNotFound)); return; }
        if balance[purse] < total { MoveTo(b, Refused(Insufficient)); return; }
      }
      MoveTo(b, Looking(0));
    }

    method LookAtStock(b: nat, now: int)
      requires b < |buyers| && buyers[b].stage.Looking?
      modifies this`buyers
      ensures View() == Advance(old(View()), offer, b, now)
    {
      if !offer.unlimited {
        var remaining := (if offer.stock.Some? then offer.stock.value else 0) - sold;
        if remaining < buyers[b].quantity { MoveTo(b, Refused(OutOfStock)); return; }
      }
      MoveTo(b, Seen(buyers[b].stage.attempt, sold));
    }

    method CreatePurchases(user: nat, quantity: nat)
      modifies this`purchases
      ensures purchases == old(purchases) + Purchases(offer, user, quantity)
    {
      ghost var before := purchases;
      for i := 0 to quantity
        invariant purchases == before + Purchases(offer, user, i)
      {
        purchases := purchases + [Purchase(PurseOf(offer, user), if offer.free then 0.0 else offer.price)];
      }
    }

    method CreateMachines(user: nat, quantity: nat)
      modifies this`inventory
      ensures inventory == old(inventory) + Items(offer, user, quantity)
    {
      ghost var before := inventory;
      for i := 0 to quantity
        invariant inventory == before + Items(offer, user, i)
      {
        inventory := inventory + [Item(user, offer.hashRate, SlotSize(offer))];
      }
    }

    method SwapSoldCount(b: nat, now: int)
      requires b < |buyers| && buyers[b].stage.Seen?
      modifies this
      ensures View() == Advance(old(View()), offer, b, now)
    {
      var user, quantity := buyers[b].user, buyers[b].quantity;
      var attempt, seen := buyers[b].stage.attempt, buyers[b].stage.sold;
      if sold != seen {
        MoveTo(b, if attempt + 1 < ATTEMPTS then Looking(attempt + 1) else Refused(Busy));
        return;
      }
      sold := sold + quantity;
      if !offer.free {
        var purse, total := PurseOf(offer, user), Total(offer, quantity);
        balance := balance[purse := (if purse in balance then balance[purse] else 0.0) - total];
      }
      CreatePurchases(user, quantity);
      CreateMachines(user, quantity);
      MoveTo(b, Bought);
    }
  }
}
