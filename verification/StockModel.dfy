/** Buying from a limited offer: guards, then compare-and-set on the sold count, then the rows. */
module StockModel {
  import opened Tables

  const ATTEMPTS := 10
  const MAX_QUANTITY := 25

  datatype Currency = POL | BTC | ETH | USDT | USDC | ZER

  /** The offer and its event; nothing here changes while buyers run. */
  datatype Offer = Offer(
    deleted: bool, eventActive: bool, startsAt: int, endsAt: int, active: bool,
    unlimited: bool, stock: Option<nat>, free: bool, claimLimit: nat, price: real, currency: Option<Currency>,
    hashRate: real, slotSize: int)

  datatype Purse = Purse(user: nat, currency: Currency)
  datatype Purchase = Purchase(purse: Purse, pricePaid: real)
  datatype Item = Item(user: nat, hashRate: real, slotSize: int)

  /** Every user has a purse in each currency; a purse that is not in `balance` belongs to no user. */
  datatype Shop = Shop(sold: nat, balance: map<Purse, real>, purchases: seq<Purchase>, inventory: seq<Item>)

  datatype Refusal =
    | Missing | NotLive | Unavailable | ClaimLimit | InvalidPrice | UserNotFound | Insufficient | OutOfStock | Busy

  datatype Stage =
    | Start
    | Looking(attempt: nat)
    | Seen(attempt: nat, sold: nat)
    | Bought
    | Refused(why: Refusal)

  datatype Buyer = Buyer(user: nat, quantity: nat, stage: Stage)

  datatype System = System(shop: Shop, buyers: seq<Buyer>)

  /** The requested quantity; 0 and anything that is not a number count as 1. */
  function Quantity(requested: Option<int>): (q: nat)
    ensures 1 <= q <= MAX_QUANTITY
  {
    var n := if requested.None? || requested.value == 0 then 1 else requested.value;
    if n > MAX_QUANTITY then MAX_QUANTITY else if n < 1 then 1 else n
  }

  function CurrencyOf(o: Offer): Currency {
    if o.currency.Some? then o.currency.value else POL
  }

  function PurseOf(o: Offer, user: nat): Purse {
    Purse(user, CurrencyOf(o))
  }

  function SlotSize(o: Offer): int {
    if 1 <= o.slotSize <= 2 then o.slotSize else 1
  }

  function BalanceOf(s: Shop, p: Purse): real {
    if p in s.balance then s.balance[p] else 0.0
  }

  predicate Live(o: Offer, now: int) {
    o.eventActive && o.startsAt <= now <= o.endsAt
  }

  predicate HasStock(o: Offer, sold: nat) {
    o.active && (o.unlimited || (o.stock.Some? && sold < o.stock.value))
  }

  function Claims(ps: seq<Purchase>, user: nat): nat {
    if ps == [] then 0 else Claims(ps[..|ps| - 1], user) + if ps[|ps| - 1].purse.user == user then 1 else 0
  }

  function Price(o: Offer): real {
    if o.free then 0.0 else o.price
  }

  function Total(o: Offer, quantity: nat): real {
    Price(o) * quantity as real
  }

  /** The reads before the compare-and-set loop. */
  function Guard(s: Shop, o: Offer, user: nat, quantity: nat, now: int): Option<Refusal> {
    if o.deleted then Some(Missing)
    else if !Live(o, now) then Some(NotLive)
    else if !HasStock(o, s.sold) then Some(Unavailable)
    else if o.free then
      if o.claimLimit > 0 && Claims(s.purchases, user) + quantity > o.claimLimit then Some(ClaimLimit) else None
    else if o.price <= 0.0 then Some(InvalidPrice)
    else if PurseOf(o, user) !in s.balance then Some(UserNotFound)
    else if BalanceOf(s, PurseOf(o, user)) < Total(o, quantity) then Some(Insufficient)
    else None
  }

  predicate Covers(o: Offer, sold: nat, quantity: nat) {
    o.unlimited || (if o.stock.Some? then o.stock.value else 0) - sold >= quantity
  }

  function Purchases(o: Offer, user: nat, n: nat): seq<Purchase> {
    seq(n, i => Purchase(PurseOf(o, user), Price(o)))
  }

  function Items(o: Offer, user: nat, n: nat): seq<Item> {
    seq(n, i => Item(user, o.hashRate, SlotSize(o)))
  }

  /** What a won compare-and-set commits: the count, the debit, the purchase rows and the machines. */
  function Committed(s: Shop, o: Offer, user: nat, quantity: nat): Shop {
    var p := PurseOf(o, user);
    Shop(
      s.sold + quantity,
      if o.free then s.balance else s.balance[p := BalanceOf(s, p) - Total(o, quantity)],
      s.purchases + Purchases(o, user, quantity),
      s.inventory + Items(o, user, quantity))
  }

  /** One step of one buyer: the guard, one look at the row, or one compare-and-set. */
  function Advance(sys: System, o: Offer, b: nat, now: int): System {
    if b >= |sys.buyers| then sys
    else
      var s, buyer := sys.shop, sys.buyers[b];
      match buyer.stage
      case Start =>
        var guard := Guard(s, o, buyer.user, buyer.quantity, now);
        At(sys, b, if guard.Some? then Refused(guard.value) else Looking(0))
      case Looking(attempt) =>
        At(sys, b, if Covers(o, s.sold, buyer.quantity) then Seen(attempt, s.sold) else Refused(OutOfStock))
      case Seen(attempt, sold) =>
        if s.sold == sold then At(sys, b, Bought).(shop := Committed(s, o, buyer.user, buyer.quantity))
        else At(sys, b, if attempt + 1 < ATTEMPTS then Looking(attempt + 1) else Refused(Busy))
      case _ => sys
  }

  function At(sys: System, b: nat, stage: Stage): System
    requires b < |sys.buyers|
  {
    sys.(buyers := sys.buyers[b := sys.buyers[b].(stage := stage)])
  }

  datatype Op = Op(buyer: nat, now: int)

  function Exec(sys: System, o: Offer, ops: seq<Op>): System {
    if ops == [] then sys
    else Advance(Exec(sys, o, ops[..|ops| - 1]), o, ops[|ops| - 1].buyer, ops[|ops| - 1].now)
  }
}
