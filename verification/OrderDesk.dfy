/**
 * The services that read and write the ledger, step by step as they do it. Every
 * method is proved to leave the ledger as the corresponding function of Ledger says,
 * with the invariant intact.
 */
module OrderDesk {
  import opened Sums
  import opened Pricing
  import opened OrderNumbers
  import opened Ledger
  import opened Grouping
  import opened LedgerInvariants
  import opened CheckoutTerms
  import opened OrderRules

  function Get<K>(m: map<K, int>, k: K): int
  {
    if k in m then m[k] else 0
  }

  // ---------------------------------------------------------------- the pieces of create_order

  /** Look for a product of the cart that cannot be sold. The products come from a set, in no particular order. */
  method CheckProducts(rows: map<Id, Product>, cart: seq<CartLine>) returns (problem: Option<Error>)
    ensures problem.None? <==> Available(rows, cart)
    ensures problem.Some? ==>
              || (problem.value.ProductNotFound? && problem.value.product in ProductIds(cart) - rows.Keys)
              || (problem.value.ProductInactive? && problem.value.product in ProductIds(cart) * rows.Keys
                  && !rows[problem.value.product].active)
  {
    var ids := ProductIds(cart);
    while ids != {}
      invariant ids <= ProductIds(cart)
      invariant forall p :: p in ProductIds(cart) - ids ==> p in rows && rows[p].active
      decreases ids
    {
      var p :| p in ids;
      if p !in rows {
        return Some(ProductNotFound(p));
      }
      if !rows[p].active {
        return Some(ProductInactive(p));
      }
      ids := ids - {p};
    }
    problem := None;
  }

  /** Group the lines of a cart: the products in order of first occurrence, the quantities and the exchange flags. */
  method GroupLines(cart: seq<CartLine>)
    returns (keys: seq<Id>, requested: map<Id, Quantity>, exchange: map<Id, bool>)
    ensures keys == Keys(cart)
    ensures requested.Keys == exchange.Keys == ProductIds(cart)
    ensures forall p :: p in requested ==> requested[p] == Demand(cart, p) && exchange[p] == AnyExchange(cart, p)
  {
    keys, requested, exchange := [], map[], map[];
    EmptyCart();
    hide Grouped;
    for i := 0 to |cart|
      invariant Grouped(cart[..i], keys, requested, exchange)
    {
      var line := cart[i];
      var p := line.product;
      assert cart[..i + 1] == cart[..i] + [line];
      GroupStep(cart[..i], line, keys, requested, exchange);
      if p !in requested {
        keys := keys + [p];
      }
      requested := requested[p := (if p in requested then requested[p] else 0) + line.quantity];
      exchange := exchange[p := (if p in exchange then exchange[p] else false) || line.exchange];
    }
    assert cart[..|cart|] == cart;
    GroupedMeans(cart, keys, requested, exchange);
  }

  /** An accepted checkout finds its products in stock and its coupon on record. */
  lemma DecidedIsSellable(rows: map<Id, Product>, coupons: map<Code, Coupon>, uses: int, request: CheckoutRequest)
    requires Decide(rows, CouponRow(coupons, request.couponCode), uses, request).Some?
    ensures Available(rows, request.items) && InStock(rows, request.items)
    ensures request.couponCode.Some? ==> request.couponCode.value in coupons
  {
  }

  predicate Grouped(cart: seq<CartLine>, keys: seq<Id>, requested: map<Id, Quantity>, exchange: map<Id, bool>)
  {
    && keys == Keys(cart)
    && requested.Keys == exchange.Keys == ProductIds(cart)
    && forall p :: p in requested ==> requested[p] == Demand(cart, p) && exchange[p] == AnyExchange(cart, p)
  }

  lemma GroupedMeans(cart: seq<CartLine>, keys: seq<Id>, requested: map<Id, Quantity>, exchange: map<Id, bool>)
    requires Grouped(cart, keys, requested, exchange)
    ensures keys == Keys(cart) && requested.Keys == exchange.Keys == ProductIds(cart)
    ensures forall p :: p in requested ==> requested[p] == Demand(cart, p) && exchange[p] == AnyExchange(cart, p)
  {
  }

  lemma EmptyCart()
    ensures Grouped([], [], map[], map[])
  {
  }

  /** One more line joins its group or opens a new one. */
  lemma GroupStep(front: seq<CartLine>, line: CartLine, keys: seq<Id>, requested: map<Id, Quantity>, exchange: map<Id, bool>)
    requires Grouped(front, keys, requested, exchange)
    ensures
      var p := line.product;
      Grouped(front + [line], if p in requested then keys else keys + [p],
              requested[p := (if p in requested then requested[p] else 0) + line.quantity],
              exchange[p := (if p in exchange then exchange[p] else false) || line.exchange])
  {
    hide Sum, Demand, Keys, AnyExchange;
    GroupSnoc(front, line);
  }

  /** What one more line adds to the groups. */
  lemma GroupSnoc(front: seq<CartLine>, line: CartLine)
    ensures
      var cart, p := front + [line], line.product;
      && ProductIds(cart) == ProductIds(front) + {p}
      && Keys(cart) == (if p in ProductIds(front) then Keys(front) else Keys(front) + [p])
      && Demand(cart, p) == (if p in ProductIds(front) then Demand(front, p) else 0) + line.quantity
      && AnyExchange(cart, p) == ((p in ProductIds(front) && AnyExchange(front, p)) || line.exchange)
    ensures forall q :: q != line.product ==>
              && Demand(front + [line], q) == Demand(front, q)
              && AnyExchange(front + [line], q) == AnyExchange(front, q)
  {
    hide Sum;
    ExchangeSnoc(front, line);
    KeysSnoc(front, line);
    forall q
      ensures Demand(front + [line], q) == Demand(front, q) + if line.product == q then line.quantity else 0
    {
      DemandSnoc(front, line, q);
    }
  }

  lemma ExchangeSnoc(front: seq<CartLine>, line: CartLine)
    ensures ProductIds(front + [line]) == ProductIds(front) + {line.product}
    ensures forall p :: AnyExchange(front + [line], p) <==> AnyExchange(front, p) || (line.product == p && line.exchange)
  {
    var cart := front + [line];
    forall p | AnyExchange(front, p) || (line.product == p && line.exchange)
      ensures AnyExchange(cart, p)
    {
      if AnyExchange(front, p) {
        var l :| l in front && l.product == p && l.exchange;
        assert l in cart;
      } else {
        assert line in cart;
      }
    }
    forall p | p in ProductIds(front) + {line.product}
      ensures p in ProductIds(cart)
    {
      if p in ProductIds(front) {
        var l :| l in front && l.product == p;
        assert l in cart;
      } else {
        assert line in cart;
      }
    }
  }

  /** Check the stock of each grouped product and price it; stop at the first that is short. */
  method PriceItems(rows: map<Id, Product>, cart: seq<CartLine>)
    returns (problem: Option<Error>, items: seq<OrderItem>, subtotal: int, shippingFee: int)
    requires Available(rows, cart)
    ensures problem.None? <==> InStock(rows, cart)
    ensures problem.Some? ==>
              && problem.value.InsufficientStock? && problem.value.product in ProductIds(cart)
              && rows[problem.value.product].stock < Demand(cart, problem.value.product)
    ensures problem.None? ==>
              items == ItemsOf(rows, cart) && subtotal == CartValue(rows, cart) && shippingFee == CartFee(rows, cart)
  {
    hide Sum, Demand, Keys, ItemsOf, OnProduct, PriceOf, CartValue, CartFee, Product.UnitPrice;
    var keys, requested, exchange := GroupLines(cart);
    items, subtotal, shippingFee := [], 0, 0;
    EmptySum(OnProduct(PriceOf(rows), cart));
    ItemsLength(rows, cart);
    for i := 0 to |keys|
      invariant items == ItemsOf(rows, cart)[..i]
      invariant subtotal == Sum(keys[..i], OnProduct(PriceOf(rows), cart))
      invariant forall j :: 0 <= j < i ==> Demand(cart, keys[j]) <= rows[keys[j]].stock
    {
      var p := keys[i];
      assert p in keys;
      var quantity := requested[p];
      if rows[p].stock < quantity {
        return Some(InsufficientStock(p)), [], 0, 0;
      }
      var unitPrice := rows[p].UnitPrice();
      var itemSubtotal := unitPrice * quantity;
      PriceStep(rows, cart, i);
      subtotal := subtotal + itemSubtotal;
      items := items + [OrderItem(p, quantity, unitPrice, itemSubtotal, exchange[p])];
    }
    assert keys[..|keys|] == keys;
    assert items == ItemsOf(rows, cart);
    GroupedValue(rows, cart);
    shippingFee := CalculateShipping(rows, cart, keys, requested);
    problem := None;
  }

  lemma ItemsLength(rows: map<Id, Product>, cart: seq<CartLine>)
    requires Available(rows, cart)
    ensures |ItemsOf(rows, cart)| == |Keys(cart)|
  {
  }

  lemma PriceStep(rows: map<Id, Product>, cart: seq<CartLine>, i: nat)
    requires Available(rows, cart) && i < |Keys(cart)|
    ensures |ItemsOf(rows, cart)| == |Keys(cart)|
    ensures
      var keys, items := Keys(cart), ItemsOf(rows, cart);
      var p := keys[i];
      && p in ProductIds(cart)
      && items[..i] + [ItemOf(rows, cart, p)] == items[..i + 1]
      && Sum(keys[..i + 1], OnProduct(PriceOf(rows), cart))
         == Sum(keys[..i], OnProduct(PriceOf(rows), cart)) + rows[p].UnitPrice() * Demand(cart, p)
  {
    hide Product.UnitPrice, Demand, Keys, ItemsOf, ItemOf, Sum;
    var keys, items := Keys(cart), ItemsOf(rows, cart);
    assert keys[i] in keys;
    ItemAt(rows, cart, i);
    assert items[..i] + [items[i]] == items[..i + 1];
    assert keys[..i + 1] == keys[..i] + [keys[i]];
    SumAppend(keys[..i], keys[i], OnProduct(PriceOf(rows), cart));
  }

  lemma ItemAt(rows: map<Id, Product>, cart: seq<CartLine>, i: nat)
    requires Available(rows, cart) && i < |Keys(cart)|
    ensures |ItemsOf(rows, cart)| == |Keys(cart)|
    ensures Keys(cart)[i] in ProductIds(cart) && ItemsOf(rows, cart)[i] == ItemOf(rows, cart, Keys(cart)[i])
  {
    hide ItemOf, Demand;
    assert Keys(cart)[i] in Keys(cart);
  }

  lemma EmptySum<T>(f: T -> int)
    ensures Sum([], f) == 0
  {
  }

  method CalculateShipping(rows: map<Id, Product>, cart: seq<CartLine>, keys: seq<Id>, requested: map<Id, Quantity>)
    returns (fee: int)
    requires keys == Keys(cart) && forall p :: p in keys ==> p in rows && p in requested && requested[p] == Demand(cart, p)
    ensures fee == CartFee(rows, cart)
  {
    hide Sum, Demand;
    fee := 0;
    EmptySum(OnProduct(FeeOf(rows), cart));
    for i := 0 to |keys|
      invariant fee == Sum(keys[..i], OnProduct(FeeOf(rows), cart))
    {
      var p := keys[i];
      assert p in keys;
      fee := fee + DeliveryFee(rows[p].category, requested[p]);
      SumAppend(keys[..i], p, OnProduct(FeeOf(rows), cart));
      assert keys[..i + 1] == keys[..i] + [p];
    }
    assert keys[..|keys|] == keys;
    GroupedFee(rows, cart);
  }

  /** The outcome of create_order before it writes anything: a quote, or the error it raises. */
  method Assess(rows: map<Id, Product>, coupon: Option<Coupon>, uses: int, request: CheckoutRequest)
    returns (r: Result<Quote>)
    ensures r.Ok? ==> Decide(rows, coupon, uses, request) == Some(r.value)
    ensures r.Err? ==> Justifies(rows, coupon, uses, request, r.error)
    ensures r.Err? ==> ErrorIsReal(rows, coupon, uses, request, r.error)
  {
    var cart := request.items;
    var problem := CheckProducts(rows, cart);
    if problem.Some? {
      return Err(problem.value);
    }
    var items, subtotal, shippingFee;
    problem, items, subtotal, shippingFee := PriceItems(rows, cart);
    if problem.Some? {
      return Err(problem.value);
    }
    var discount := 0;
    if request.couponCode.Some? {
      var verdict := CouponVerdict(coupon, subtotal, request.now, request.user, uses);
      if verdict.Some? {
        return Err(CouponRejected(verdict.value));
      }
      discount := ComputeDiscount(coupon.value.rule, subtotal);
    }
    var total := subtotal + shippingFee - discount;
    if total < 0 {
      total := 0;
    }
    r := Ok(Quote(items, subtotal, shippingFee, discount, total));
  }

  // ---------------------------------------------------------------- the pieces of the delivery service

  /** Sum the units that deliveries still count on, per item. */
  method AllocatedQuantities(order: Order) returns (promised: map<ItemId, int>)
    ensures forall item :: Get(promised, item) == Allocated(order, item)
  {
    promised := map[];
    var deliveries := order.deliveries;
    for i := 0 to |deliveries|
      invariant forall item :: Get(promised, item) == Sum(deliveries[..i], AllocatedUnits(item))
    {
      ghost var before := promised;
      if deliveries[i].status !in {DeliveryCancelled, DeliveryFailed} {
        promised := AddLines(promised, deliveries[i]);
      }
      forall item
        ensures Get(promised, item) == Sum(deliveries[..i + 1], AllocatedUnits(item))
      {
        assert deliveries[..i + 1] == deliveries[..i] + [deliveries[i]];
        SumAppend(deliveries[..i], deliveries[i], AllocatedUnits(item));
        assert Get(before, item) == Sum(deliveries[..i], AllocatedUnits(item));
      }
    }
    assert deliveries[..|deliveries|] == deliveries;
  }

  method AddLines(totals: map<ItemId, int>, delivery: Delivery) returns (sums: map<ItemId, int>)
    ensures forall item :: Get(sums, item) == Get(totals, item) + Carried(delivery, item)
  {
    sums := totals;
    var lines := delivery.lines;
    for k := 0 to |lines|
      invariant forall item :: Get(sums, item) == Get(totals, item) + Sum(lines[..k], LineUnits(item))
    {
      ghost var before := sums;
      var line := lines[k];
      sums := sums[line.item := Get(sums, line.item) + line.quantity];
      forall item
        ensures Get(sums, item) == Get(totals, item) + Sum(lines[..k + 1], LineUnits(item))
      {
        assert lines[..k + 1] == lines[..k] + [line];
        SumAppend(lines[..k], line, LineUnits(item));
        assert Get(before, item) == Get(totals, item) + Sum(lines[..k], LineUnits(item));
      }
    }
    assert lines[..|lines|] == lines;
  }

  method DeliveredQuantities(order: Order) returns (delivered: map<ItemId, int>)
    ensures forall item :: Get(delivered, item) == DeliveredQuantity(order, item)
  {
    delivered := map[];
    var deliveries := order.deliveries;
    for i := 0 to |deliveries|
      invariant forall item :: Get(delivered, item) == Sum(deliveries[..i], DeliveredUnits(item))
    {
      ghost var before := delivered;
      if deliveries[i].status == DeliveryDelivered {
        delivered := AddLines(delivered, deliveries[i]);
      }
      forall item
        ensures Get(delivered, item) == Sum(deliveries[..i + 1], DeliveredUnits(item))
      {
        assert deliveries[..i + 1] == deliveries[..i] + [deliveries[i]];
        SumAppend(deliveries[..i], deliveries[i], DeliveredUnits(item));
        assert Get(before, item) == Sum(deliveries[..i], DeliveredUnits(item));
      }
    }
    assert deliveries[..|deliveries|] == deliveries;
  }

  /** Check the lines of a new delivery one by one, remembering the items already seen. */
  method CheckLines(order: Order, o: nat, lines: seq<DeliveryLine>) returns (problem: Option<Error>)
    ensures problem == DeliveryLinesError(order, o, lines, |lines|)
  {
    var promised := AllocatedQuantities(order);
    var seen: set<ItemId> := {};
    problem := None;
    for k := 0 to |lines|
      invariant problem.None? && DeliveryLinesError(order, o, lines, k).None?
      invariant seen == set j | 0 <= j < k :: lines[j].item
    {
      var line := lines[k];
      assert line.item in seen <==> exists j :: 0 <= j < k && lines[j].item == line.item;
      if line.item in seen {
        problem := Some(DuplicateItem);
      } else if !Belongs(order, o, line.item) {
        problem := Some(ForeignItem);
      } else if line.quantity > order.items[line.item.index].quantity - Get(promised, line.item) {
        problem := Some(OverAllocation);
      }
      seen := seen + {line.item};
      assert problem == DeliveryLinesError(order, o, lines, k + 1);
      if problem.Some? {
        FirstErrorStays(order, o, lines, k + 1, |lines|);
        return;
      }
    }
  }

  lemma {:induction false} FirstErrorStays(order: Order, o: nat, lines: seq<DeliveryLine>, k: nat, n: nat)
    requires k <= n <= |lines| && DeliveryLinesError(order, o, lines, k).Some?
    ensures DeliveryLinesError(order, o, lines, n) == DeliveryLinesError(order, o, lines, k)
  {
    if k < n {
      FirstErrorStays(order, o, lines, k, n - 1);
    }
  }

  /** Derive an order's status from its deliveries. */
  method DeriveStatus(order: Order, o: nat) returns (status: OrderStatus)
    ensures status == RolledUp(order, o)
    ensures Derived(order, o, status)
  {
    status := order.status;
    if order.deliveries == [] || order.status == Cancelled {
      return;
    }
    var delivered := DeliveredQuantities(order);
    var fullyDelivered := |order.items| > 0 &&
      forall i :: 0 <= i < |order.items| ==> Get(delivered, ItemId(o, i)) >= order.items[i].quantity;
    if fullyDelivered {
      status := Delivered;
    } else if (exists d :: d in order.deliveries && d.status == DeliveryShipping) && order.status in {Pending, Confirmed} {
      status := Shipping;
    }
  }

  // ---------------------------------------------------------------- stock written product by product

  /** The products after the stock of the first n grouped products was taken. */
  function Taken(rows: map<Id, Product>, cart: seq<CartLine>, n: nat): map<Id, Product>
    requires n <= |Keys(cart)|
  {
    map p | p in rows ::
      if p in Keys(cart)[..n] then rows[p].(stock := rows[p].stock - Demand(cart, p)) else rows[p]
  }

  lemma NothingTaken(rows: map<Id, Product>, cart: seq<CartLine>)
    ensures Taken(rows, cart, 0) == rows
  {
  }

  lemma TakeOne(rows: map<Id, Product>, cart: seq<CartLine>, n: nat)
    requires n < |Keys(cart)| && Keys(cart)[n] in rows
    ensures
      var p := Keys(cart)[n];
      var before := Taken(rows, cart, n);
      && p in before && before[p] == rows[p]
      && Taken(rows, cart, n + 1) == before[p := before[p].(stock := before[p].stock - Demand(cart, p))]
  {
    hide Demand, Keys;
    var keys := Keys(cart);
    assert keys[..n + 1] == keys[..n] + [keys[n]];
    assert keys[n] !in keys[..n];
  }

  lemma AllTaken(rows: map<Id, Product>, cart: seq<CartLine>)
    ensures Taken(rows, cart, |Keys(cart)|) == Debit(rows, cart)
  {
    hide Sum;
    assert Keys(cart)[..|Keys(cart)|] == Keys(cart);
    forall p | p in rows && p !in Keys(cart)
      ensures Demand(cart, p) == 0
    {
      assert p !in ProductIds(cart);
    }
  }

  lemma ItemProductsKnown(db: DB, o: nat)
    requires Invariant(db) && o < |db.orders|
    ensures forall i :: 0 <= i < |db.orders[o].items| ==> db.orders[o].items[i].product in db.products
  {
    assert OrderOk(db.orders[o], o, db.products.Keys);
  }

  /** The products after the first n items gave their units back. */
  function Returned(rows: map<Id, Product>, items: seq<OrderItem>, n: nat): map<Id, Product>
    requires n <= |items|
  {
    map p | p in rows :: rows[p].(stock := rows[p].stock + Sum(items[..n], UnitsOf(p)))
  }

  lemma NothingReturned(rows: map<Id, Product>, items: seq<OrderItem>)
    ensures Returned(rows, items, 0) == rows
  {
  }

  lemma ReturnOne(rows: map<Id, Product>, items: seq<OrderItem>, n: nat)
    requires n < |items| && items[n].product in rows
    ensures
      var p := items[n].product;
      var before := Returned(rows, items, n);
      && p in before
      && Returned(rows, items, n + 1) == before[p := before[p].(stock := before[p].stock + items[n].quantity)]
  {
    hide Sum;
    forall p: Id
      ensures Sum(items[..n + 1], UnitsOf(p)) == Sum(items[..n], UnitsOf(p)) + UnitsOf(p)(items[n])
    {
      assert items[..n + 1] == items[..n] + [items[n]];
      SumAppend(items[..n], items[n], UnitsOf(p));
    }
  }

  lemma AllReturned(rows: map<Id, Product>, order: Order)
    ensures Returned(rows, order.items, |order.items|) == Restock(rows, order)
  {
    assert order.items[..|order.items|] == order.items;
  }

  // ---------------------------------------------------------------- the services

  datatype Fault = NoFault | SerializationFailure | OtherFailure

  class Desk {
    var products: map<Id, Product>
    var orders: seq<Order>
    var coupons: map<Code, Coupon>
    var redemptions: seq<Redemption>

    ghost function Books(): DB
      reads this
    {
      DB(products, orders, coupons, redemptions)
    }

    ghost predicate Valid()
      reads this
    {
      Invariant(Books())
    }

    constructor (products: map<Id, Product>, coupons: map<Code, Coupon>)
      requires Opening(DB(products, [], coupons, []))
      ensures Valid() && Books() == DB(products, [], coupons, [])
    {
      this.products, this.coupons := products, coupons;
      orders, redemptions := [], [];
      OpeningOk(DB(products, [], coupons, []));
    }

    /** create_order: an order that exists under the key is returned; otherwise check, price, take the stock, record. */
    method CreateOrder(request: CheckoutRequest) returns (r: Result<nat>)
      requires Valid()
      modifies this
      ensures Valid() && Books() == Checkout(old(Books()), request)
      ensures r.Ok? ==> CheckoutAnswer(old(Books()), request) == Some(r.value)
      ensures r.Err? ==>
                && CheckoutAnswer(old(Books()), request).None? && Books() == old(Books())
                && Justifies(old(products), CouponRow(old(coupons), request.couponCode),
                             UserUses(old(redemptions), request.couponCode, request.user), request, r.error)
                && ErrorIsReal(old(products), CouponRow(old(coupons), request.couponCode),
                               UserUses(old(redemptions), request.couponCode, request.user), request, r.error)
      ensures r.Ok? && FindKey(old(orders), request.key).None? ==>
                && r.value == |old(orders)| && |orders| == |old(orders)| + 1
                && OrderIsRight(old(Books()), request, orders[r.value])
    {
      hide Invariant, Debit, NextNumber, Numbers, NewOrder, Decide, Justifies, UserUses, OrderIsRight, ErrorIsReal;
      CheckoutKeeps(Books(), request);
      if FindKey(orders, request.key).None? && CheckoutAnswer(Books(), request).Some? {
        NewOrderIsRight(Books(), request);
      }
      var existing := FindKey(orders, request.key);
      if existing.Some? {
        return Ok(existing.value);
      }
      var coupon := CouponRow(coupons, request.couponCode);
      var uses := UserUses(redemptions, request.couponCode, request.user);
      RefusedIffJustified(products, coupon, uses, request);
      var assessed := Assess(products, coupon, uses, request);
      if assessed.Err? {
        return Err(assessed.error);
      }
      DecidedIsSellable(products, coupons, uses, request);
      TakeStock(request.items);
      var order := NewOrder(request, assessed.value, NextNumber(Numbers(orders), request.day));
      var o := |orders|;
      orders := orders + [order];
      if request.couponCode.Some? {
        RecordRedemption(request.couponCode.value, UserId(request.user), o);
      }
      r := Ok(o);
    }

    /** decrement_stock for every grouped product: after the checks it cannot fail. */
    method TakeStock(cart: seq<CartLine>)
      requires Available(products, cart) && InStock(products, cart)
      modifies this`products
      ensures products == Debit(old(products), cart)
    {
      hide Sum, Demand, Keys, Taken, Debit;
      var keys, requested, _ := GroupLines(cart);
      ghost var rows := products;
      NothingTaken(rows, cart);
      for i := 0 to |keys|
        invariant products == Taken(rows, cart, i)
      {
        var p := keys[i];
        assert p in keys;
        TakeOne(rows, cart, i);
        assert requested[p] <= products[p].stock;
        products := products[p := products[p].(stock := products[p].stock - requested[p])];
      }
      AllTaken(rows, cart);
    }

    method RecordRedemption(code: Code, user: Option<Id>, order: nat)
      requires code in coupons
      modifies this`coupons, this`redemptions
      ensures coupons == CountUse(old(coupons), Some(code))
      ensures redemptions == old(redemptions) + [Redemption(code, user, order)]
    {
      coupons := coupons[code := coupons[code].(usedCount := coupons[code].usedCount + 1)];
      redemptions := redemptions + [Redemption(code, user, order)];
    }

    /**
     * The chat assistant's three attempts. A database failure rolls the attempt back;
     * only serialization failures are tried again. `faults` says what strikes each attempt.
     */
    method CreateOrderWithRetry(request: CheckoutRequest, faults: seq<Fault>) returns (r: Result<nat>)
      requires Valid() && |faults| == 3
      modifies this
      ensures Valid()
      ensures r.Ok? ==> Books() == Checkout(old(Books()), request) && CheckoutAnswer(old(Books()), request) == Some(r.value)
      ensures r.Err? ==> Books() == old(Books())
      ensures r == Err(Aborted) <==>
                exists a :: 0 <= a < 3 && faults[a] != NoFault
                  && (a == 2 || faults[a] == OtherFailure) && forall b :: 0 <= b < a ==> faults[b] == SerializationFailure
    {
      for attempt := 0 to 3
        invariant Valid() && Books() == old(Books())
        invariant forall b :: 0 <= b < attempt ==> faults[b] == SerializationFailure
        invariant attempt < 3 || faults[2] == NoFault
      {
        if faults[attempt] == NoFault {
          r := CreateOrder(request);
          return;
        }
        if faults[attempt] == OtherFailure || attempt == 2 {
          return Err(Aborted);
        }
      }
      r := Err(Aborted);
    }

    /** Give the units of an order's items back, one item after the other. */
    method ReturnUnits(o: nat)
      requires Valid() && o < |orders|
      modifies this`products
      ensures products == Restock(old(products), orders[o])
    {
      hide Returned, Invariant;
      ItemProductsKnown(Books(), o);
      ghost var rows := products;
      var items := orders[o].items;
      NothingReturned(rows, items);
      for i := 0 to |items|
        invariant products == Returned(rows, items, i)
      {
        var item := items[i];
        ReturnOne(rows, items, i);
        products := products[item.product := products[item.product].(stock := products[item.product].stock + item.quantity)];
      }
      AllReturned(rows, orders[o]);
    }

    /** update_order_status, by staff. */
    method UpdateOrderStatus(o: nat, status: OrderStatus, actor: User) returns (problem: Option<Error>)
      requires Valid()
      modifies this
      ensures Valid() && Books() == StaffUpdate(old(Books()), o, status, actor)
      ensures problem == StaffUpdateError(old(Books()), o, status, actor)
    {
      StepKeeps(Books(), StaffStatus(o, status, actor));
      if !actor.IsStaff() {
        return Some(Forbidden);
      }
      if |orders| <= o {
        return Some(OrderNotFound);
      }
      if !AllowedTransition(orders[o].status, status) {
        return Some(InvalidTransition);
      }
      if status == Cancelled {
        ReturnUnits(o);
      }
      orders := orders[o := orders[o].(status := status)];
      problem := None;
    }

    /** cancel_order, by the customer, by staff, or by someone who knows the phone number. */
    method CancelOrder(o: nat, user: Option<User>, phone: Option<string>) returns (problem: Option<Error>)
      requires Valid()
      modifies this
      ensures Valid() && Books() == Cancel(old(Books()), o, user, phone)
      ensures problem == CancelError(old(Books()), o, user, phone)
    {
      StepKeeps(Books(), CustomerCancel(o, user, phone));
      if |orders| <= o {
        return Some(OrderNotFound);
      }
      if !CanView(orders[o], user, phone) {
        return Some(Forbidden);
      }
      if orders[o].status != Pending && orders[o].status != Confirmed {
        return Some(NotCancellable);
      }
      ReturnUnits(o);
      assert AllowedTransition(orders[o].status, Cancelled);
      orders := orders[o := orders[o].(status := Cancelled)];
      problem := None;
    }

    /** create_delivery: check what remains of each item, insert the delivery, roll the status up. */
    method CreateDelivery(o: nat, lines: seq<DeliveryLine>) returns (problem: Option<Error>)
      requires Valid()
      modifies this`orders
      ensures Valid() && Books() == Ledger.CreateDelivery(old(Books()), o, lines)
      ensures problem == CreateDeliveryError(old(Books()), o, lines)
      ensures problem.None? ==> StatusFollows(old(orders[o]), orders[o], o)
    {
      hide StatusFollows, LinesFit;
      NewDeliveryRules(Books(), o, lines);
      CreateDeliveryKeeps(Books(), o, lines);
      if |orders| <= o {
        return Some(OrderNotFound);
      }
      if orders[o].status == Cancelled {
        return Some(OrderIsCancelled);
      }
      problem := CheckLines(orders[o], o, lines);
      if problem.Some? {
        return;
      }
      var code := DeliveryCode(orders[o].number, |orders[o].deliveries| + 1);
      var delivery := Delivery(code, DeliveryPending, None, lines);
      hide RolledUp, DeliveryLinesError, Invariant;
      orders := orders[o := orders[o].(deliveries := orders[o].deliveries + [delivery])];
      assert orders[o] == WithDelivery(old(orders[o]), lines);
      RollUpOrderStatus(o);
      assert orders == old(orders)[o := RollUp(WithDelivery(old(orders[o]), lines), o)];
    }

    /** update_delivery_status and driver_update_status: who may do it differs, what they do does not. */
    method MoveDelivery(id: DeliveryId, status: DeliveryStatus, mover: Mover) returns (problem: Option<Error>)
      requires Valid()
      modifies this`orders
      ensures Valid() && Books() == Ledger.MoveDelivery(old(Books()), id, status, mover)
      ensures problem == MoveDeliveryError(old(Books()), id, status, mover)
      ensures problem.None? ==> StatusFollows(old(orders[id.order]), orders[id.order], id.order)
    {
      hide StatusFollows;
      DeliveryMoveRules(Books(), id, status, mover);
      MoveDeliveryKeeps(Books(), id, status, mover);
      var o := id.order;
      if |orders| <= o || |orders[o].deliveries| <= id.index {
        return Some(DeliveryNotFound);
      }
      var mine :=
        match mover
        case ForOrder(q) => q == o
        case ByDriver(actor, isAdmin) => isAdmin || orders[o].deliveries[id.index].driver == Some(actor);
      if !mine {
        return Some(DeliveryNotFound);
      }
      if !AllowedDelivery(orders[o].deliveries[id.index].status, status) {
        return Some(InvalidTransition);
      }
      problem := None;
      var delivery := orders[o].deliveries[id.index].(status := status);
      hide RolledUp, Invariant;
      orders := orders[o := orders[o].(deliveries := orders[o].deliveries[id.index := delivery])];
      assert orders[o] == WithDeliveryStatus(old(orders[o]), id.index, status);
      RollUpOrderStatus(o);
      assert orders == old(orders)[o := RollUp(WithDeliveryStatus(old(orders[o]), id.index, status), o)];
    }

    method RollUpOrderStatus(o: nat)
      requires o < |orders|
      modifies this`orders
      ensures orders == old(orders)[o := RollUp(old(orders[o]), o)]
      ensures Derived(old(orders[o]), o, orders[o].status)
    {
      var status := DeriveStatus(orders[o], o);
      orders := orders[o := orders[o].(status := status)];
    }

    /** update_product: write the patched row, then validate the response; a failure undoes the write. */
    method UpdateProduct(p: Id, patch: ProductPatch, actor: User) returns (problem: Option<Error>)
      requires Valid()
      modifies this`products
      ensures Valid() && Books() == EditProduct(old(Books()), p, patch, actor)
      ensures problem == EditProductError(old(Books()), p, patch, actor)
    {
      StepKeeps(Books(), ProductEdit(p, patch, actor));
      if !ValidPatch(patch) {
        return Some(InvalidPayload);
      }
      if !actor.IsAdmin() {
        return Some(AdminRequired);
      }
      if p !in products {
        return Some(UnknownRow);
      }
      var committed := products;
      products := products[p := Patched(products[p], patch)];
      if !ValidProduct(products[p]) {
        products := committed;
        return Some(InvalidPayload);
      }
      problem := None;
    }

    /** reorder: rebuild a cart from a past order of the user, re-checked against the catalog of today. */
    method Reorder(o: nat, user: User) returns (r: Result<Rebuilt>)
      ensures r.Err? ==> ReorderError(Books(), o, user) == Some(r.error)
      ensures r.Ok? ==> ReorderError(Books(), o, user).None? && r.value == RebuiltLines(products, orders[o].items)
    {
      if |orders| <= o {
        return Err(OrderNotFound);
      }
      if orders[o].user != Some(user.id) {
        return Err(Forbidden);
      }
      var lines := orders[o].items;
      var items, skipped := [], [];
      for i := 0 to |lines|
        invariant Rebuilt(items, skipped) == RebuiltLines(products, lines[..i])
      {
        assert lines[..i + 1][..i] == lines[..i];
        var p := lines[i].product;
        if p !in products {
          skipped := skipped + [(p, NotFound)];
          continue;
        }
        if !products[p].active {
          skipped := skipped + [(p, Inactive)];
          continue;
        }
        if products[p].stock <= 0 {
          skipped := skipped + [(p, OutOfStock)];
          continue;
        }
        var quantity := if lines[i].quantity <= products[p].stock then lines[i].quantity else products[p].stock;
        items := items + [CartLine(p, quantity, false)];
      }
      assert lines[..|lines|] == lines;
      r := Ok(Rebuilt(items, skipped));
    }
  }
}
