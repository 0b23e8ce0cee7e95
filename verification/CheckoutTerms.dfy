/**
 * What a checkout means for the customer: when it succeeds, what the order then says, and
 * what it costs. Everything here is put in terms of the rows and the request.
 */
module CheckoutTerms {
  import opened Sums
  import opened Pricing
  import opened OrderNumbers
  import opened Ledger
  import opened LedgerInvariants
  import opened Grouping

  // ---------------------------------------------------------------- when a coupon applies

  /** The coupon can be used for this subtotal, at this time, by this customer. */
  predicate CouponApplies(c: Coupon, subtotal: int, now: int, user: Option<User>, uses: int)
  {
    && c.active
    && (c.startsAt.Some? ==> c.startsAt.value <= now)
    && (c.endsAt.Some? ==> now < c.endsAt.value)
    && (c.usageLimit.Some? ==> c.usedCount < c.usageLimit.value)
    && c.minOrder <= subtotal
    && (c.perUserLimit.Some? ==> user.Some? && uses < c.perUserLimit.value)
  }

  /** What each complaint about a coupon says of it. */
  predicate ProblemIsReal(coupon: Option<Coupon>, subtotal: int, now: int, user: Option<User>, uses: int, problem: CouponProblem)
  {
    if coupon.None? then problem == CouponNotFound
    else
      var c := coupon.value;
      match problem
      case CouponNotFound => false
      case CouponInactive => !c.active
      case CouponNotStarted => c.startsAt.Some? && now < c.startsAt.value
      case CouponExpired => c.endsAt.Some? && c.endsAt.value <= now
      case CouponExhausted => c.usageLimit.Some? && c.usageLimit.value <= c.usedCount
      case CouponBelowMinimum => subtotal < c.minOrder
      case CouponNeedsAccount => c.perUserLimit.Some? && user.None?
      case CouponUsedUp => c.perUserLimit.Some? && user.Some? && c.perUserLimit.value <= uses
  }

  /** What an error of a refused checkout says of the rows it read. */
  predicate ErrorIsReal(rows: map<Id, Product>, coupon: Option<Coupon>, uses: int, request: CheckoutRequest, error: Error)
  {
    match error
    case ProductNotFound(p) => p !in rows && exists line :: line in request.items && line.product == p
    case ProductInactive(p) => p in rows && !rows[p].active && exists line :: line in request.items && line.product == p
    case InsufficientStock(p) => p in rows && rows[p].stock < Sum(request.items, Wanted(p))
    case CouponRejected(problem) =>
      && request.couponCode.Some?
      && ProblemIsReal(coupon, CartValue(rows, request.items), request.now, request.user, uses, problem)
    case _ => false
  }

  lemma JustifiedIsReal(rows: map<Id, Product>, coupon: Option<Coupon>, uses: int, request: CheckoutRequest, error: Error)
    requires Justifies(rows, coupon, uses, request, error)
    ensures ErrorIsReal(rows, coupon, uses, request, error)
  {
    hide Sum, CartValue;
  }

  // ---------------------------------------------------------------- when a checkout succeeds

  /** Every product of the cart is on sale and in stock, the lines of one product taken together. */
  predicate CartCanBeSold(rows: map<Id, Product>, cart: seq<CartLine>)
  {
    forall line :: line in cart ==>
      && line.product in rows && rows[line.product].active
      && Sum(cart, Wanted(line.product)) <= rows[line.product].stock
  }

  /** A new checkout succeeds exactly when its cart can be sold and its coupon, if any, applies. */
  lemma CheckoutSucceedsIff(db: DB, request: CheckoutRequest)
    requires FindKey(db.orders, request.key).None?
    ensures CheckoutAnswer(db, request).Some? <==>
              && CartCanBeSold(db.products, request.items)
              && (request.couponCode.Some? ==>
                    && request.couponCode.value in db.coupons
                    && CouponApplies(db.coupons[request.couponCode.value], CartValue(db.products, request.items), request.now,
                                     request.user, UserUses(db.redemptions, request.couponCode, request.user)))
    ensures CheckoutAnswer(db, request).Some? ==> CheckoutAnswer(db, request) == Some(|db.orders|)
    ensures CheckoutAnswer(db, request).None? ==> Checkout(db, request) == db
  {
    hide CartValue, ItemsOf, UserUses;
    var rows, cart := db.products, request.items;
    CanBeSoldIff(rows, cart);
  }

  lemma CanBeSoldIff(rows: map<Id, Product>, cart: seq<CartLine>)
    ensures Available(rows, cart) && InStock(rows, cart) <==> CartCanBeSold(rows, cart)
  {
    hide Sum;
    if Available(rows, cart) && InStock(rows, cart) {
      forall line | line in cart
        ensures Sum(cart, Wanted(line.product)) <= rows[line.product].stock
      {
        assert Demand(cart, line.product) <= rows[line.product].stock;
      }
    }
    if CartCanBeSold(rows, cart) {
      forall p | p in ProductIds(cart)
        ensures p in rows && rows[p].active && Demand(cart, p) <= rows[p].stock
      {
      }
    }
  }

  // ---------------------------------------------------------------- what counts as a use

  /** The rows that a condition picks, by position. */
  ghost function Rows(redemptions: seq<Redemption>, p: Redemption -> bool): set<nat>
  {
    set i: nat | i < |redemptions| && p(redemptions[i])
  }

  lemma {:induction false} SumCountsRows(redemptions: seq<Redemption>, p: Redemption -> bool, f: Redemption -> int)
    requires forall r :: f(r) == if p(r) then 1 else 0
    ensures Sum(redemptions, f) == |Rows(redemptions, p)|
  {
    if redemptions == [] {
      assert Rows(redemptions, p) == {};
    } else {
      var n := |redemptions| - 1;
      var before := Rows(redemptions[..n], p);
      SumCountsRows(redemptions[..n], p, f);
      assert n !in before;
      if p(redemptions[n]) {
        assert Rows(redemptions, p) == before + {n};
      } else {
        assert Rows(redemptions, p) == before;
      }
    }
  }

  /** The uses that the limits compare with are numbers of redemption rows: of the coupon, and of one account. */
  lemma UsesAreRows(redemptions: seq<Redemption>, code: Code, user: Id)
    ensures Sum(redemptions, UsesOf(code)) == |Rows(redemptions, (r: Redemption) => r.coupon == code)|
    ensures Sum(redemptions, UsedBy(code, user))
         == |Rows(redemptions, (r: Redemption) => r.coupon == code && r.user == Some(user))|
  {
    SumCountsRows(redemptions, (r: Redemption) => r.coupon == code, UsesOf(code));
    SumCountsRows(redemptions, (r: Redemption) => r.coupon == code && r.user == Some(user), UsedBy(code, user));
  }

  // ---------------------------------------------------------------- what an order costs

  /** The sale price where it is a discount on the list price, else the list price. */
  predicate ChargedPrice(product: Product, price: int)
  {
    if product.salePrice.Some? && 0 < product.salePrice.value && product.salePrice.value < product.price
    then price == product.salePrice.value
    else price == product.price
  }

  /** The amount before any limit: a fixed one, or the percentage to the nearest hundredth, ties to even. */
  predicate UncappedDiscount(rule: DiscountRule, subtotal: int, amount: int)
  {
    match rule.kind
    case Fixed => amount == rule.value
    case Percent => RoundsTo(subtotal * rule.value, 100 * 100, amount)
  }

  /** d is the uncapped amount, brought down to the cap and to the subtotal where it exceeds them, and up to zero. */
  ghost predicate IsDiscount(rule: DiscountRule, subtotal: int, d: int)
  {
    exists amount ::
      && UncappedDiscount(rule, subtotal, amount)
      && var top := if rule.maxDiscount.Some? && rule.maxDiscount.value < subtotal then rule.maxDiscount.value else subtotal;
         d == if top < 0 || amount < 0 then 0 else if amount < top then amount else top
  }

  lemma DiscountAmount(rule: DiscountRule, subtotal: int)
    ensures IsDiscount(rule, subtotal, ComputeDiscount(rule, subtotal))
  {
    var raw := RawDiscount(rule, subtotal);
    assert UncappedDiscount(rule, subtotal, raw);
  }

  /** Bottles of water among the items. */
  function WaterIn(rows: map<Id, Product>): OrderItem -> int
  {
    (item: OrderItem) => if item.product in rows && rows[item.product].category == Water then item.quantity else 0
  }

  function FeeFor(rows: map<Id, Product>): OrderItem -> int
  {
    (item: OrderItem) => 500000 * WaterIn(rows)(item)
  }

  /** The delivery fee is 5000 dong for each bottle of water, and nothing for gas. */
  lemma FeeIsForWater(rows: map<Id, Product>, cart: seq<CartLine>)
    requires Available(rows, cart)
    ensures CartFee(rows, cart) == 500000 * Sum(ItemsOf(rows, cart), WaterIn(rows))
  {
    hide Sum, Demand;
    var keys, items := Keys(cart), ItemsOf(rows, cart);
    GroupedFee(rows, cart);
    forall i | 0 <= i < |keys|
      ensures OnProduct(FeeOf(rows), cart)(keys[i]) == FeeFor(rows)(items[i])
    {
      assert keys[i] in keys;
      assert items[i] == ItemOf(rows, cart, keys[i]);
      var fee, units := FeePerUnit(rows[keys[i]].category), Demand(cart, keys[i]);
      assert OnProduct(FeeOf(rows), cart)(keys[i]) == fee * units;
      assert items[i].product == keys[i] && items[i].quantity == units;
      assert rows[keys[i]].category == Water ==> fee == 500000 && WaterIn(rows)(items[i]) == units;
      assert rows[keys[i]].category != Water ==> fee == 0 && WaterIn(rows)(items[i]) == 0;
    }
    SumPointwise(keys, items, OnProduct(FeeOf(rows), cart), FeeFor(rows));
    SumScaled(items, 500000, WaterIn(rows), FeeFor(rows));
  }

  /** One item of a new order: a product of the cart, all it asks for, at the price charged now. */
  predicate ItemIsRight(rows: map<Id, Product>, cart: seq<CartLine>, item: OrderItem)
  {
    && item.product in rows && ChargedPrice(rows[item.product], item.unitPrice)
    && item.quantity == Sum(cart, Wanted(item.product))
    && item.subtotal == item.unitPrice * item.quantity
    && (item.exchange <==> exists line :: line in cart && line.product == item.product && line.exchange)
  }

  /** The rows and the request decide all of a new order but its number. */
  ghost predicate OrderIsRight(db: DB, request: CheckoutRequest, order: Order)
  {
    && order.key == request.key && order.phone == request.phone && order.coupon == request.couponCode
    && order.user == (if request.user.Some? then Some(request.user.value.id) else None)
    && order.status == Pending && order.deliveries == []
    && (forall i :: 0 <= i < |order.items| ==> ItemIsRight(db.products, request.items, order.items[i]))
    && (forall line :: line in request.items ==> exists i :: 0 <= i < |order.items| && order.items[i].product == line.product)
    && order.shippingFee == 500000 * Sum(order.items, WaterIn(db.products))
    && order.subtotal == Sum(order.items, (item: OrderItem) => item.subtotal)
    && order.total == order.subtotal + order.shippingFee - order.discount
    && (order.coupon.None? ==> order.discount == 0)
    && (order.coupon.Some? ==>
          && order.coupon.value in db.coupons
          && IsDiscount(db.coupons[order.coupon.value].rule, order.subtotal, order.discount)
          && CouponApplies(db.coupons[order.coupon.value], order.subtotal, request.now, request.user,
                           UserUses(db.redemptions, order.coupon, request.user)))
  }

  lemma ItemsAreRight(rows: map<Id, Product>, cart: seq<CartLine>)
    requires Available(rows, cart)
    ensures
      var items := ItemsOf(rows, cart);
      && (forall i :: 0 <= i < |items| ==> ItemIsRight(rows, cart, items[i]))
      && (forall line :: line in cart ==> exists i :: 0 <= i < |items| && items[i].product == line.product)
  {
    hide Sum;
    var keys, items := Keys(cart), ItemsOf(rows, cart);
    forall i | 0 <= i < |items|
      ensures ItemIsRight(rows, cart, items[i])
    {
      assert keys[i] in keys;
      assert items[i] == ItemOf(rows, cart, keys[i]);
    }
    forall line | line in cart
      ensures exists i :: 0 <= i < |items| && items[i].product == line.product
    {
      assert line.product in keys;
      var i :| 0 <= i < |keys| && keys[i] == line.product;
      assert items[i].product == line.product;
    }
  }

  /** The order that a successful new checkout stores is right, and the stock falls by what the cart asked for. */
  lemma NewOrderIsRight(db: DB, request: CheckoutRequest)
    requires Invariant(db)
    requires FindKey(db.orders, request.key).None? && CheckoutAnswer(db, request).Some?
    ensures
      var after := Checkout(db, request);
      && |after.orders| == |db.orders| + 1 && after.orders[..|db.orders|] == db.orders
      && OrderIsRight(db, request, after.orders[|db.orders|])
      && after.products.Keys == db.products.Keys
      && forall p :: p in db.products ==>
           after.products[p] == db.products[p].(stock := db.products[p].stock - Sum(request.items, Wanted(p)))
  {
    hide Sum, NextNumber, Numbers, Invariant, Keys, ItemsOf, ComputeDiscount, CartValue, CartFee, CouponVerdict, UserUses, IsDiscount, ItemIsRight;
    var rows, cart := db.products, request.items;
    ItemsAreRight(rows, cart);
    FeeIsForWater(rows, cart);
    MoneyOfNewOrder(db, request);
    CheckoutSucceedsIff(db, request);
    if request.couponCode.Some? {
      DiscountAmount(db.coupons[request.couponCode.value].rule, CartValue(rows, cart));
    }
  }

  lemma MoneyOfNewOrder(db: DB, request: CheckoutRequest)
    requires Invariant(db)
    requires FindKey(db.orders, request.key).None? && CheckoutAnswer(db, request).Some?
    ensures
      var order := Checkout(db, request).orders[|db.orders|];
      && order.total == order.subtotal + order.shippingFee - order.discount
      && order.subtotal == Sum(order.items, (item: OrderItem) => item.subtotal)
  {
    hide Checkout, CheckoutAnswer;
    CheckoutKeeps(db, request);
    assert |Checkout(db, request).orders| == |db.orders| + 1 by {
      GrowsByOne(db, request);
    }
    var order := Checkout(db, request).orders[|db.orders|];
    assert OrderOk(order, |db.orders|, Checkout(db, request).products.Keys);
    SumCongruent(order.items, SubtotalOf(), (item: OrderItem) => item.subtotal);
  }

  lemma GrowsByOne(db: DB, request: CheckoutRequest)
    requires FindKey(db.orders, request.key).None? && CheckoutAnswer(db, request).Some?
    ensures |Checkout(db, request).orders| == |db.orders| + 1
  {
  }
}
