/** What every request keeps true of the ledger. */
module LedgerInvariants {
  import opened Sums
  import opened Pricing
  import opened OrderNumbers
  import opened Ledger
  import opened Grouping

  // ---------------------------------------------------------------- the invariant

  ghost predicate CatalogOk(products: map<Id, Product>)
  {
    forall p :: p in products ==> ValidProduct(products[p])
  }

  /** At most one item per product, each of a product that still has a row. */
  ghost predicate ItemsOk(items: seq<OrderItem>, ids: set<Id>)
  {
    && (forall i, j :: 0 <= i < j < |items| ==> items[i].product != items[j].product)
    && (forall i :: 0 <= i < |items| ==>
          items[i].product in ids && items[i].subtotal == items[i].unitPrice * items[i].quantity)
  }

  ghost predicate MoneyOk(order: Order)
  {
    && order.subtotal == Sum(order.items, SubtotalOf())
    && 0 <= order.discount <= order.subtotal
    && 0 <= order.shippingFee
    && order.total == order.subtotal + order.shippingFee - order.discount
  }

  ghost predicate DeliveryOk(order: Order, o: nat, d: nat)
    requires d < |order.deliveries|
  {
    var delivery := order.deliveries[d];
    && delivery.code == DeliveryCode(order.number, d + 1)
    && (forall k :: 0 <= k < |delivery.lines| ==> Belongs(order, o, delivery.lines[k].item))
    && (forall j, k :: 0 <= j < k < |delivery.lines| ==> delivery.lines[j].item != delivery.lines[k].item)
  }

  /** No item is promised to deliveries beyond what was ordered. */
  ghost predicate AllocationOk(order: Order, o: nat)
  {
    forall i :: 0 <= i < |order.items| ==> Allocated(order, ItemId(o, i)) <= order.items[i].quantity
  }

  ghost predicate OrderOk(order: Order, o: nat, ids: set<Id>)
  {
    && ItemsOk(order.items, ids)
    && MoneyOk(order)
    && (forall d :: 0 <= d < |order.deliveries| ==> DeliveryOk(order, o, d))
    && AllocationOk(order, o)
  }

  ghost predicate OrdersOk(orders: seq<Order>, ids: set<Id>)
  {
    forall o :: 0 <= o < |orders| ==> OrderOk(orders[o], o, ids)
  }

  ghost predicate KeysOk(orders: seq<Order>)
  {
    forall a, b :: 0 <= a < b < |orders| ==> orders[a].key != orders[b].key
  }

  function UsesOf(code: Code): Redemption -> int
  {
    (r: Redemption) => if r.coupon == code then 1 else 0
  }

  function UsesFor(o: nat): Redemption -> int
  {
    (r: Redemption) => if r.order == o then 1 else 0
  }

  /** A redemption row names an order that carries the coupon and was placed by the user. */
  ghost predicate RedemptionOk(orders: seq<Order>, r: Redemption)
  {
    r.order < |orders| && orders[r.order].coupon == Some(r.coupon) && orders[r.order].user == r.user
  }

  /** The use counters are the numbers of redemption rows; an order has one row if it carries a coupon, else none. */
  ghost predicate CouponsOk(db: DB)
  {
    && (forall code :: code in db.coupons ==> db.coupons[code].usedCount == Sum(db.redemptions, UsesOf(code)))
    && (forall i :: 0 <= i < |db.redemptions| ==> RedemptionOk(db.orders, db.redemptions[i]))
    && (forall o: nat :: o < |db.orders| ==>
          Sum(db.redemptions, UsesFor(o)) == if db.orders[o].coupon.Some? then 1 else 0)
    && (forall o :: 0 <= o < |db.orders| && db.orders[o].coupon.Some? ==> db.orders[o].coupon.value in db.coupons)
  }

  ghost predicate Invariant(db: DB)
  {
    && CatalogOk(db.products)
    && OrdersOk(db.orders, db.products.Keys)
    && KeysOk(db.orders)
    && GapFree(Numbers(db.orders))
    && CouponsOk(db)
  }

  // ---------------------------------------------------------------- checkout

  lemma NewOrderOk(db: DB, request: CheckoutRequest, quote: Quote, number: string)
    requires CatalogOk(db.products) && Verdict(db, request) == Some(quote)
    ensures OrderOk(NewOrder(request, quote, number), |db.orders|, db.products.Keys)
  {
    var rows, cart := db.products, request.items;
    var items, keys := ItemsOf(rows, cart), Keys(cart);
    assert quote.items == items;
    forall i | 0 <= i < |items|
      ensures items[i].product == keys[i] && items[i].product in rows
      ensures items[i].subtotal == items[i].unitPrice * items[i].quantity
    {
      assert keys[i] in keys;
    }
    ItemSubtotals(rows, cart);
    CartValueNonNegative(rows, cart);
    var order := NewOrder(request, quote, number);
    if request.couponCode.Some? {
      DiscountBounds(CouponRow(db.coupons, request.couponCode).value.rule, quote.subtotal);
    }
    assert MoneyOk(order);
    assert ItemsOk(order.items, db.products.Keys);
  }

  lemma DebitOk(db: DB, request: CheckoutRequest)
    requires CatalogOk(db.products) && Verdict(db, request).Some?
    ensures CatalogOk(Debit(db.products, request.items))
  {
    var rows, cart := db.products, request.items;
    forall p | p in rows
      ensures ValidProduct(Debit(rows, cart)[p])
    {
      if p !in ProductIds(cart) {
        assert Demand(cart, p) == 0;
      }
    }
  }

  /** Appending an order leaves the redemptions of the others valid, and has none itself so far. */
  lemma RedemptionsAfterOrder(db: DB, order: Order)
    requires CouponsOk(db)
    ensures Sum(db.redemptions, UsesFor(|db.orders|)) == 0
    ensures forall i :: 0 <= i < |db.redemptions| ==> RedemptionOk(db.orders + [order], db.redemptions[i])
  {
    var n := |db.orders|;
    forall i | 0 <= i < |db.redemptions|
      ensures RedemptionOk(db.orders + [order], db.redemptions[i])
      ensures UsesFor(n)(db.redemptions[i]) == 0
    {
      assert RedemptionOk(db.orders, db.redemptions[i]);
    }
    SumCongruent(db.redemptions, UsesFor(n), Nothing());
    SumOfNothing(db.redemptions);
  }

  /** A new redemption row for a new order that carries the coupon. */
  lemma RedemptionRecorded(db: DB, order: Order, code: Code)
    requires CouponsOk(db) && order.coupon == Some(code) && code in db.coupons
    ensures
      var n := |db.orders|;
      CouponsOk(DB(db.products, db.orders + [order], CountUse(db.coupons, Some(code)),
                   db.redemptions + [Redemption(code, order.user, n)]))
  {
    hide Sum;
    var n := |db.orders|;
    var r := Redemption(code, order.user, n);
    var orders, redemptions := db.orders + [order], db.redemptions + [r];
    RedemptionsAfterOrder(db, order);
    forall c: Code
      ensures Sum(redemptions, UsesOf(c)) == Sum(db.redemptions, UsesOf(c)) + if c == code then 1 else 0
    {
      SumAppend(db.redemptions, r, UsesOf(c));
    }
    forall o: nat | o < n + 1
      ensures Sum(redemptions, UsesFor(o)) == if orders[o].coupon.Some? then 1 else 0
    {
      SumAppend(db.redemptions, r, UsesFor(o));
    }
    forall i | 0 <= i < |redemptions|
      ensures RedemptionOk(orders, redemptions[i])
    {
    }
  }

  lemma CouponsAfterCheckout(db: DB, request: CheckoutRequest, quote: Quote)
    requires CouponsOk(db) && Verdict(db, request) == Some(quote)
    ensures CouponsOk(PlaceOrder(db, request, quote))
  {
    hide Sum, Debit, NextNumber, Available, InStock, ItemsOf;
    var after := PlaceOrder(db, request, quote);
    var order := after.orders[|db.orders|];
    if request.couponCode.Some? {
      RedemptionRecorded(db, order, request.couponCode.value);
    } else {
      RedemptionsAfterOrder(db, order);
    }
  }

  lemma NumbersSnoc(orders: seq<Order>, order: Order)
    ensures Numbers(orders + [order]) == Numbers(orders) + [order.number]
  {
  }

  lemma CheckoutKeeps(db: DB, request: CheckoutRequest)
    requires Invariant(db)
    ensures Invariant(Checkout(db, request))
  {
    hide OrdersOk, KeysOk, CouponsOk, GapFree, CatalogOk, OrderOk, Debit, NextNumber, Numbers, Verdict, NewOrder;
    var verdict := Verdict(db, request);
    if FindKey(db.orders, request.key).None? && verdict.Some? {
      var quote := verdict.value;
      var number := NextNumber(Numbers(db.orders), request.day);
      var order := NewOrder(request, quote, number);
      NewOrderOk(db, request, quote, number);
      DebitOk(db, request);
      CouponsAfterCheckout(db, request, quote);
      DebitKeys(db.products, request.items);
      OrderAppended(db.orders, order, db.products.Keys);
      KeyAppended(db.orders, request, quote, number);
      NumberAppended(db.orders, request, quote);
    }
  }

  lemma OrderAppended(orders: seq<Order>, order: Order, ids: set<Id>)
    requires OrdersOk(orders, ids) && OrderOk(order, |orders|, ids)
    ensures OrdersOk(orders + [order], ids)
  {
    hide OrderOk;
  }

  lemma KeyAppended(orders: seq<Order>, request: CheckoutRequest, quote: Quote, number: string)
    requires KeysOk(orders) && FindKey(orders, request.key).None?
    ensures KeysOk(orders + [NewOrder(request, quote, number)])
  {
  }

  lemma NumberAppended(orders: seq<Order>, request: CheckoutRequest, quote: Quote)
    requires GapFree(Numbers(orders))
    ensures GapFree(Numbers(orders + [NewOrder(request, quote, NextNumber(Numbers(orders), request.day))]))
  {
    hide GapFree, NextNumber;
    NumbersSnoc(orders, NewOrder(request, quote, NextNumber(Numbers(orders), request.day)));
    IssueNext(Numbers(orders), request.day);
  }

  lemma DebitKeys(products: map<Id, Product>, cart: seq<CartLine>)
    ensures Debit(products, cart).Keys == products.Keys
  {
  }

  // ---------------------------------------------------------------- one order changes

  /** The parts of an order that no request after its creation touches. */
  ghost predicate SameContract(a: Order, b: Order)
  {
    && a.number == b.number && a.key == b.key && a.user == b.user && a.coupon == b.coupon
    && a.items == b.items
    && a.subtotal == b.subtotal && a.shippingFee == b.shippingFee && a.discount == b.discount && a.total == b.total
  }

  lemma OrderChangeKeeps(db: DB, o: nat, order: Order, products: map<Id, Product>)
    requires Invariant(db) && o < |db.orders|
    requires SameContract(db.orders[o], order) && OrderOk(order, o, products.Keys)
    requires CatalogOk(products) && products.Keys == db.products.Keys
    ensures Invariant(DB(products, db.orders[o := order], db.coupons, db.redemptions))
  {
    hide OrderOk, GapFree, CatalogOk;
    var after := DB(products, db.orders[o := order], db.coupons, db.redemptions);
    assert Numbers(after.orders) == Numbers(db.orders);
    assert CouponsOk(after) by {
      forall i | 0 <= i < |db.redemptions|
        ensures RedemptionOk(after.orders, db.redemptions[i])
      {
        assert RedemptionOk(db.orders, db.redemptions[i]);
      }
      forall q: nat | q < |after.orders|
        ensures Sum(db.redemptions, UsesFor(q)) == if after.orders[q].coupon.Some? then 1 else 0
      {
      }
    }
  }

  /** The status of an order plays no part in what makes it consistent. */
  lemma StatusIrrelevant(order: Order, status: OrderStatus, o: nat, ids: set<Id>)
    requires OrderOk(order, o, ids)
    ensures OrderOk(order.(status := status), o, ids)
  {
    var changed := order.(status := status);
    forall d | 0 <= d < |order.deliveries|
      ensures DeliveryOk(changed, o, d)
    {
      assert DeliveryOk(order, o, d);
    }
    forall i | 0 <= i < |order.items|
      ensures Allocated(changed, ItemId(o, i)) <= changed.items[i].quantity
    {
      assert Allocated(changed, ItemId(o, i)) == Allocated(order, ItemId(o, i));
    }
  }

  lemma OrderedUnitsNonNegative(order: Order, p: Id)
    ensures 0 <= OrderedUnits(order, p)
  {
    SumNonNegative(order.items, UnitsOf(p));
  }

  lemma RestockOk(products: map<Id, Product>, order: Order)
    requires CatalogOk(products)
    ensures CatalogOk(Restock(products, order)) && Restock(products, order).Keys == products.Keys
  {
    forall p | p in products
      ensures ValidProduct(Restock(products, order)[p])
    {
      OrderedUnitsNonNegative(order, p);
    }
  }

  lemma SetStatusKeeps(db: DB, o: nat, status: OrderStatus)
    requires Invariant(db) && o < |db.orders|
    ensures Invariant(SetStatus(db, o, status))
  {
    hide OrderOk;
    StatusIrrelevant(db.orders[o], status, o, db.products.Keys);
    RestockOk(db.products, db.orders[o]);
    var products := if status == Cancelled then Restock(db.products, db.orders[o]) else db.products;
    OrderChangeKeeps(db, o, db.orders[o].(status := status), products);
  }

  // ---------------------------------------------------------------- deliveries

  lemma RollUpKeeps(order: Order, o: nat, ids: set<Id>)
    requires OrderOk(order, o, ids)
    ensures OrderOk(RollUp(order, o), o, ids)
  {
    StatusIrrelevant(order, RolledUp(order, o), o, ids);
  }

  /** An accepted list of lines: no repetition, only items of the order, only what remains of them. */
  lemma {:induction false} LinesAccepted(order: Order, o: nat, lines: seq<DeliveryLine>, n: nat)
    requires n <= |lines| && DeliveryLinesError(order, o, lines, n).None?
    ensures forall k :: 0 <= k < n ==> Belongs(order, o, lines[k].item)
    ensures forall j, k :: 0 <= j < k < n ==> lines[j].item != lines[k].item
    ensures forall k :: 0 <= k < n ==>
              && Belongs(order, o, lines[k].item)
              && Allocated(order, lines[k].item) + lines[k].quantity <= order.items[lines[k].item.index].quantity
  {
    if n != 0 {
      LinesAccepted(order, o, lines, n - 1);
    }
  }

  /** A list without repetitions carries an item once or not at all. */
  lemma {:induction false} CarriedOnce(lines: seq<DeliveryLine>, item: ItemId)
    requires forall j, k :: 0 <= j < k < |lines| ==> lines[j].item != lines[k].item
    ensures Sum(lines, LineUnits(item)) == 0
         || exists k :: 0 <= k < |lines| && lines[k].item == item && Sum(lines, LineUnits(item)) == lines[k].quantity
  {
    if lines != [] {
      var n := |lines| - 1;
      CarriedOnce(lines[..n], item);
      if lines[n].item == item {
        SumCongruent(lines[..n], LineUnits(item), Nothing());
        SumOfNothing(lines[..n]);
        assert lines[n].item == item && Sum(lines, LineUnits(item)) == lines[n].quantity;
      } else if Sum(lines[..n], LineUnits(item)) != 0 {
        var k :| 0 <= k < n && lines[..n][k].item == item && Sum(lines[..n], LineUnits(item)) == lines[..n][k].quantity;
        assert lines[k].item == item && Sum(lines, LineUnits(item)) == lines[k].quantity;
      }
    }
  }

  lemma WithDeliveryKeeps(order: Order, o: nat, lines: seq<DeliveryLine>, ids: set<Id>)
    requires OrderOk(order, o, ids) && DeliveryLinesError(order, o, lines, |lines|).None?
    ensures OrderOk(WithDelivery(order, lines), o, ids)
  {
    var after := WithDelivery(order, lines);
    var n := |order.deliveries|;
    LinesAccepted(order, o, lines, |lines|);
    forall d | 0 <= d < |after.deliveries|
      ensures DeliveryOk(after, o, d)
    {
      if d < n {
        assert DeliveryOk(order, o, d);
      }
    }
    forall i | 0 <= i < |after.items|
      ensures Allocated(after, ItemId(o, i)) <= after.items[i].quantity
    {
      var item := ItemId(o, i);
      SumAppend(order.deliveries, after.deliveries[n], AllocatedUnits(item));
      CarriedOnce(lines, item);
      assert AllocatedUnits(item)(after.deliveries[n]) == Sum(lines, LineUnits(item));
      assert Allocated(order, item) <= order.items[i].quantity;
    }
  }

  lemma CarriedNonNegative(delivery: Delivery, item: ItemId)
    ensures 0 <= Carried(delivery, item)
  {
    SumNonNegative(delivery.lines, LineUnits(item));
  }

  lemma WithDeliveryStatusKeeps(order: Order, o: nat, d: nat, status: DeliveryStatus, ids: set<Id>)
    requires OrderOk(order, o, ids) && d < |order.deliveries|
    requires AllowedDelivery(order.deliveries[d].status, status)
    ensures OrderOk(WithDeliveryStatus(order, d, status), o, ids)
  {
    var after := WithDeliveryStatus(order, d, status);
    forall k | 0 <= k < |after.deliveries|
      ensures DeliveryOk(after, o, k)
    {
      assert DeliveryOk(order, o, k);
    }
    forall i | 0 <= i < |after.items|
      ensures Allocated(after, ItemId(o, i)) <= after.items[i].quantity
    {
      var item := ItemId(o, i);
      SumUpdate(order.deliveries, d, after.deliveries[d], AllocatedUnits(item));
      CarriedNonNegative(order.deliveries[d], item);
      assert Allocated(order, item) <= order.items[i].quantity;
    }
  }

  lemma CreateDeliveryKeeps(db: DB, o: nat, lines: seq<DeliveryLine>)
    requires Invariant(db)
    ensures Invariant(CreateDelivery(db, o, lines))
  {
    if CreateDeliveryError(db, o, lines).None? {
      hide OrderOk, RolledUp;
      var order := db.orders[o];
      WithDeliveryKeeps(order, o, lines, db.products.Keys);
      RollUpKeeps(WithDelivery(order, lines), o, db.products.Keys);
      OrderChangeKeeps(db, o, RollUp(WithDelivery(order, lines), o), db.products);
    }
  }

  lemma MoveDeliveryKeeps(db: DB, id: DeliveryId, status: DeliveryStatus, mover: Mover)
    requires Invariant(db)
    ensures Invariant(MoveDelivery(db, id, status, mover))
  {
    if MoveDeliveryError(db, id, status, mover).None? {
      hide OrderOk, RolledUp;
      var order := db.orders[id.order];
      WithDeliveryStatusKeeps(order, id.order, id.index, status, db.products.Keys);
      var moved := WithDeliveryStatus(order, id.index, status);
      RollUpKeeps(moved, id.order, db.products.Keys);
      OrderChangeKeeps(db, id.order, RollUp(moved, id.order), db.products);
    }
  }

  /** Moving a delivery never raises what an item has allocated, in this order or another. */
  lemma MoveNeverAllocates(db: DB, id: DeliveryId, status: DeliveryStatus, mover: Mover, o: nat, item: ItemId)
    requires o < |db.orders|
    ensures Allocated(MoveDelivery(db, id, status, mover).orders[o], item) <= Allocated(db.orders[o], item)
  {
    if MoveDeliveryError(db, id, status, mover).None? && id.order == o {
      hide RolledUp, Sum;
      var deliveries := db.orders[o].deliveries;
      var moved := deliveries[id.index].(status := status);
      SumUpdate(deliveries, id.index, moved, AllocatedUnits(item));
      CarriedNonNegative(deliveries[id.index], item);
    }
  }

  lemma AssignDriverKeeps(db: DB, id: DeliveryId, driver: Option<User>)
    requires Invariant(db)
    ensures Invariant(AssignDriver(db, id, driver))
  {
    if AssignDriver(db, id, driver) != db {
      var o, d := id.order, id.index;
      var order := db.orders[o];
      var delivery := order.deliveries[d].(driver := UserId(driver));
      var after := order.(deliveries := order.deliveries[d := delivery]);
      forall k | 0 <= k < |after.deliveries|
        ensures DeliveryOk(after, o, k)
      {
        assert DeliveryOk(order, o, k);
      }
      forall i | 0 <= i < |after.items|
        ensures Allocated(after, ItemId(o, i)) <= after.items[i].quantity
      {
        var units := AllocatedUnits(ItemId(o, i));
        assert units(delivery) == units(order.deliveries[d]);
        SumUpdate(order.deliveries, d, delivery, units);
        assert Allocated(order, ItemId(o, i)) <= order.items[i].quantity;
      }
      OrderChangeKeeps(db, o, after, db.products);
    }
  }

  // ---------------------------------------------------------------- administration

  lemma MoreProductsOk(orders: seq<Order>, ids: set<Id>, more: set<Id>)
    requires OrdersOk(orders, ids) && ids <= more
    ensures OrdersOk(orders, more)
  {
    forall o | 0 <= o < |orders|
      ensures OrderOk(orders[o], o, more)
    {
      assert OrderOk(orders[o], o, ids);
    }
  }

  lemma CatalogChangeKeeps(db: DB, p: Id, product: Product)
    requires Invariant(db) && ValidProduct(product)
    ensures Invariant(db.(products := db.products[p := product]))
  {
    MoreProductsOk(db.orders, db.products.Keys, db.products[p := product].Keys);
  }

  lemma CouponEditKeeps(db: DB, code: Code, terms: CouponTerms, actor: User)
    requires Invariant(db)
    ensures Invariant(EditCoupon(db, code, terms, actor))
  {
    hide OrdersOk, GapFree, Sum, RedemptionOk;
  }

  /** A coupon that does not exist has no redemptions. */
  lemma UnknownCouponUnused(db: DB, code: Code)
    requires CouponsOk(db) && code !in db.coupons
    ensures Sum(db.redemptions, UsesOf(code)) == 0
  {
    forall r | r in db.redemptions
      ensures UsesOf(code)(r) == 0
    {
      var i :| 0 <= i < |db.redemptions| && db.redemptions[i] == r;
      assert RedemptionOk(db.orders, db.redemptions[i]);
    }
    SumCongruent(db.redemptions, UsesOf(code), Nothing());
    SumOfNothing(db.redemptions);
  }

  lemma CouponCreationKeeps(db: DB, code: Code, terms: CouponTerms, actor: User)
    requires Invariant(db)
    ensures Invariant(AddCoupon(db, code, terms, actor))
  {
    if code !in db.coupons {
      hide OrdersOk, GapFree, Sum, RedemptionOk;
      UnknownCouponUnused(db, code);
    }
  }

  // ---------------------------------------------------------------- every request, every run

  lemma StepKeeps(db: DB, request: Request)
    requires Invariant(db)
    ensures Invariant(Step(db, request))
  {
    hide Invariant;
    match request
    case Order_(checkout) => CheckoutKeeps(db, checkout);
    case StaffStatus(o, status, actor) =>
      if StaffUpdateError(db, o, status, actor).None? { SetStatusKeeps(db, o, status); }
    case CustomerCancel(o, user, phone) =>
      if CancelError(db, o, user, phone).None? { SetStatusKeeps(db, o, Cancelled); }
    case NewDelivery(o, lines) => CreateDeliveryKeeps(db, o, lines);
    case DeliveryMove(id, to, mover) => MoveDeliveryKeeps(db, id, to, mover);
    case DriverAssignment(id, driver) => AssignDriverKeeps(db, id, driver);
    case ProductEdit(p, patch, actor) =>
      if EditProductError(db, p, patch, actor).None? { CatalogChangeKeeps(db, p, Patched(db.products[p], patch)); }
    case ProductCreation(p, row, actor) =>
      if ValidProduct(row) { CatalogChangeKeeps(db, p, row); }
    case CouponEdit(code, terms, actor) => CouponEditKeeps(db, code, terms, actor);
    case CouponCreation(code, terms, actor) => CouponCreationKeeps(db, code, terms, actor);
    case RolledBack(_) =>
  }

  lemma {:induction false} RunKeeps(db: DB, requests: seq<Request>)
    requires Invariant(db)
    ensures Invariant(Run(db, requests))
  {
    hide Invariant, Step;
    if requests != [] {
      RunKeeps(db, requests[..|requests| - 1]);
      StepKeeps(Run(db, requests[..|requests| - 1]), requests[|requests| - 1]);
    }
  }

  lemma RunSnoc(db: DB, requests: seq<Request>, request: Request)
    ensures Run(db, requests + [request]) == Step(Run(db, requests), request)
  {
    assert (requests + [request])[..|requests|] == requests;
  }

  /** A shop that has sold nothing yet. */
  predicate Opening(db: DB)
  {
    && db.orders == [] && db.redemptions == []
    && (forall p :: p in db.products ==> ValidProduct(db.products[p]))
    && (forall code :: code in db.coupons ==> db.coupons[code].usedCount == 0)
  }

  lemma OpeningOk(db: DB)
    requires Opening(db)
    ensures Invariant(db)
  {
    assert Numbers(db.orders) == [];
    GapFreeEmpty();
  }

  // ---------------------------------------------------------------- what the invariant says

  /** Delivery codes of an order are D1, D2, ... and never repeat. */
  lemma DeliveryCodesDistinct(order: Order, o: nat, ids: set<Id>, a: nat, b: nat)
    requires OrderOk(order, o, ids) && a < b < |order.deliveries|
    ensures order.deliveries[a].code != order.deliveries[b].code
  {
    assert DeliveryOk(order, o, a) && DeliveryOk(order, o, b);
    var n := |order.number|;
    if order.deliveries[a].code == order.deliveries[b].code {
      assert order.deliveries[a].code[n + 2..] == Decimal(a + 1);
      assert order.deliveries[b].code[n + 2..] == Decimal(b + 1);
      DecimalInjective(a + 1, b + 1);
    }
  }

  lemma DeliveredWithinAllocated(order: Order, item: ItemId)
    ensures 0 <= DeliveredQuantity(order, item) <= Allocated(order, item)
  {
    forall d | d in order.deliveries
      ensures 0 <= DeliveredUnits(item)(d) <= AllocatedUnits(item)(d)
    {
      CarriedNonNegative(d, item);
    }
    SumNonNegative(order.deliveries, DeliveredUnits(item));
    SumMonotone(order.deliveries, DeliveredUnits(item), AllocatedUnits(item));
  }

  /** When an order counts as fully delivered, each item was delivered exactly in full. */
  lemma FullyDeliveredExactly(order: Order, o: nat, ids: set<Id>, i: nat)
    requires OrderOk(order, o, ids) && i < |order.items|
    requires FullyDelivered(order, o)
    ensures DeliveredQuantity(order, ItemId(o, i)) == order.items[i].quantity
  {
    DeliveredWithinAllocated(order, ItemId(o, i));
    assert Allocated(order, ItemId(o, i)) <= order.items[i].quantity;
  }
}
