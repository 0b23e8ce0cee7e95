/** Laws of whole runs of the shop: any requests, in any order, some of them rolled back. */
module LedgerRuns {
  import opened Sums
  import opened OrderNumbers
  import opened Ledger
  import opened Grouping
  import opened LedgerInvariants

  // ---------------------------------------------------------------- stock conservation

  function StockOf(db: DB, p: Id): int
  {
    if p in db.products then db.products[p].stock else 0
  }

  /** The units an order holds: all it ordered, unless it was cancelled. */
  function HeldUnits(p: Id): Order -> int
  {
    (order: Order) => if order.status == Cancelled then 0 else OrderedUnits(order, p)
  }

  function Held(orders: seq<Order>, p: Id): int
  {
    Sum(orders, HeldUnits(p))
  }

  /** By how much an administrator's request changes the stock of a product. */
  function Adjustment(db: DB, request: Request, p: Id): int
  {
    match request
    case ProductEdit(q, patch, actor) =>
      if q == p && EditProductError(db, q, patch, actor).None? && patch.stock.Some?
      then patch.stock.value - db.products[p].stock else 0
    case ProductCreation(q, row, actor) =>
      if q == p && actor.IsAdmin() && q !in db.products && ValidProduct(row) then row.stock else 0
    case _ => 0
  }

  function NetAdjustment(db: DB, requests: seq<Request>, p: Id): int
  {
    if requests == [] then 0
    else
      var before := requests[..|requests| - 1];
      NetAdjustment(db, before, p) + Adjustment(Run(db, before), requests[|requests| - 1], p)
  }

  lemma CheckoutConserves(db: DB, request: CheckoutRequest, p: Id)
    ensures
      var after := Checkout(db, request);
      StockOf(after, p) + Held(after.orders, p) == StockOf(db, p) + Held(db.orders, p)
  {
    var verdict := Verdict(db, request);
    if FindKey(db.orders, request.key).None? && verdict.Some? {
      hide Sum, NextNumber, Numbers, Demand;
      var cart := request.items;
      var order := NewOrder(request, verdict.value, NextNumber(Numbers(db.orders), request.day));
      assert verdict.value.items == ItemsOf(db.products, cart);
      ItemUnits(db.products, cart, p);
      SumAppend(db.orders, order, HeldUnits(p));
      if p !in db.products {
        assert p !in ProductIds(cart);
        assert Demand(cart, p) == 0;
      }
    }
  }

  /** Replacing an order by one with the same items changes what is held only if the status becomes or stops being cancelled. */
  lemma HeldAfterChange(orders: seq<Order>, o: nat, order: Order, p: Id)
    requires o < |orders| && order.items == orders[o].items
    ensures Held(orders[o := order], p) == Held(orders, p)
          - (if orders[o].status == Cancelled then 0 else OrderedUnits(order, p))
          + (if order.status == Cancelled then 0 else OrderedUnits(order, p))
  {
    SumUpdate(orders, o, order, HeldUnits(p));
  }

  /** A product without a row is in no order. */
  lemma UnknownProductNotOrdered(db: DB, o: nat, p: Id)
    requires Invariant(db) && o < |db.orders| && p !in db.products
    ensures OrderedUnits(db.orders[o], p) == 0
  {
    var order := db.orders[o];
    assert OrderOk(order, o, db.products.Keys);
    forall item | item in order.items
      ensures UnitsOf(p)(item) == 0
    {
      var i :| 0 <= i < |order.items| && order.items[i] == item;
    }
    SumCongruent(order.items, UnitsOf(p), Nothing());
    SumOfNothing(order.items);
  }

  lemma SetStatusConserves(db: DB, o: nat, status: OrderStatus, p: Id)
    requires Invariant(db) && o < |db.orders| && db.orders[o].status != Cancelled
    ensures
      var after := SetStatus(db, o, status);
      StockOf(after, p) + Held(after.orders, p) == StockOf(db, p) + Held(db.orders, p)
  {
    hide Invariant, Sum;
    HeldAfterChange(db.orders, o, db.orders[o].(status := status), p);
    assert OrderedUnits(db.orders[o].(status := status), p) == OrderedUnits(db.orders[o], p);
    if p !in db.products {
      UnknownProductNotOrdered(db, o, p);
    }
  }

  lemma OrderChangeConserves(db: DB, o: nat, order: Order, p: Id)
    requires o < |db.orders| && order.items == db.orders[o].items
    requires order.status == Cancelled <==> db.orders[o].status == Cancelled
    ensures Held(db.orders[o := order], p) == Held(db.orders, p)
  {
    HeldAfterChange(db.orders, o, order, p);
    assert OrderedUnits(order, p) == OrderedUnits(db.orders[o], p);
  }

  lemma StepConserves(db: DB, request: Request, p: Id)
    requires Invariant(db)
    ensures
      var after := Step(db, request);
      StockOf(after, p) + Held(after.orders, p)
      == StockOf(db, p) + Held(db.orders, p) + Adjustment(db, request, p)
  {
    hide Invariant, Sum, Held, FullyDelivered, AnyShipping, DeliveryLinesError, Checkout, SetStatus;
    match request
    case Order_(checkout) => CheckoutConserves(db, checkout, p);
    case StaffStatus(o, status, actor) =>
      if StaffUpdateError(db, o, status, actor).None? { SetStatusConserves(db, o, status, p); }
    case CustomerCancel(o, user, phone) =>
      if CancelError(db, o, user, phone).None? { SetStatusConserves(db, o, Cancelled, p); }
    case NewDelivery(o, lines) =>
      if CreateDeliveryError(db, o, lines).None? {
        OrderChangeConserves(db, o, RollUp(WithDelivery(db.orders[o], lines), o), p);
      }
    case DeliveryMove(id, to, mover) =>
      if MoveDeliveryError(db, id, to, mover).None? {
        var order := WithDeliveryStatus(db.orders[id.order], id.index, to);
        OrderChangeConserves(db, id.order, RollUp(order, id.order), p);
      }
    case DriverAssignment(id, driver) =>
      if AssignDriver(db, id, driver) != db {
        var order := AssignDriver(db, id, driver).orders[id.order];
        OrderChangeConserves(db, id.order, order, p);
      }
    case ProductEdit(q, patch, actor) =>
    case ProductCreation(q, row, actor) =>
    case CouponEdit(code, terms, actor) =>
    case CouponCreation(code, terms, actor) =>
    case RolledBack(_) =>
  }

  /**
   * Conservation over every run: for each product, the stock plus the units held by
   * orders that are not cancelled changes by the administrators' adjustments and by
   * nothing else.
   */
  lemma {:induction false} RunConserves(db: DB, requests: seq<Request>, p: Id)
    requires Invariant(db)
    ensures
      var after := Run(db, requests);
      StockOf(after, p) + Held(after.orders, p)
      == StockOf(db, p) + Held(db.orders, p) + NetAdjustment(db, requests, p)
  {
    hide Invariant, Sum, Held, Step, StockOf, Adjustment;
    if requests != [] {
      var before, last := requests[..|requests| - 1], requests[|requests| - 1];
      RunConserves(db, before, p);
      RunKeeps(db, before);
      StepConserves(Run(db, before), last, p);
    }
  }

  // ---------------------------------------------------------------- the two writers of an order's status

  function Rank(status: OrderStatus): nat
  {
    match status
    case Pending => 0
    case Confirmed => 1
    case Shipping => 2
    case Delivered => 3
    case Cancelled => 3
  }

  predicate Final(status: OrderStatus)
  {
    status == Delivered || status == Cancelled
  }

  /** One order before and after a request: its contract stands, its status only moves forward, and not at all once final. */
  ghost predicate Advances(a: Order, b: Order)
  {
    && SameContract(a, b)
    && Rank(a.status) <= Rank(b.status)
    && (Final(a.status) ==> b.status == a.status)
  }

  ghost predicate AllAdvance(orders: seq<Order>, after: seq<Order>)
  {
    |orders| <= |after| && forall o :: 0 <= o < |orders| ==> Advances(orders[o], after[o])
  }

  lemma RollUpAdvances(order: Order, o: nat)
    ensures Rank(order.status) <= Rank(RolledUp(order, o))
    ensures Final(order.status) ==> RolledUp(order, o) == order.status
    ensures RolledUp(order, o) == Cancelled <==> order.status == Cancelled
  {
  }

  /** The transition table and the roll-up together never move an order backwards. */
  lemma StepAdvances(db: DB, request: Request)
    ensures AllAdvance(db.orders, Step(db, request).orders)
  {
    hide FullyDelivered, AnyShipping, DeliveryLinesError, RolledUp, Verdict, FindKey, NewOrder, NextNumber, Restock, Debit, AllAdvance;
    NoneMoves(db.orders);
    match request
    case Order_(checkout) =>
      if Checkout(db, checkout) != db {
        OneMore(db.orders, Checkout(db, checkout).orders[|db.orders|]);
      }
    case StaffStatus(o, status, actor) =>
      if StaffUpdateError(db, o, status, actor).None? {
        OneMoves(db.orders, o, db.orders[o].(status := status));
      }
    case CustomerCancel(o, user, phone) =>
      if CancelError(db, o, user, phone).None? {
        OneMoves(db.orders, o, db.orders[o].(status := Cancelled));
      }
    case NewDelivery(o, lines) =>
      if CreateDeliveryError(db, o, lines).None? {
        RollUpAdvances(WithDelivery(db.orders[o], lines), o);
        OneMoves(db.orders, o, RollUp(WithDelivery(db.orders[o], lines), o));
      }
    case DeliveryMove(id, to, mover) =>
      if MoveDeliveryError(db, id, to, mover).None? {
        var moved := WithDeliveryStatus(db.orders[id.order], id.index, to);
        RollUpAdvances(moved, id.order);
        OneMoves(db.orders, id.order, RollUp(moved, id.order));
      }
    case DriverAssignment(id, driver) =>
      if AssignDriver(db, id, driver) != db {
        OneMoves(db.orders, id.order, AssignDriver(db, id, driver).orders[id.order]);
      }
    case _ =>
  }

  lemma NoneMoves(orders: seq<Order>)
    ensures AllAdvance(orders, orders)
  {
  }

  lemma OneMoves(orders: seq<Order>, o: nat, order: Order)
    requires o < |orders| && Advances(orders[o], order)
    ensures AllAdvance(orders, orders[o := order])
  {
  }

  lemma OneMore(orders: seq<Order>, order: Order)
    ensures AllAdvance(orders, orders + [order])
  {
  }

  lemma {:induction false} RunAdvances(db: DB, requests: seq<Request>)
    ensures AllAdvance(db.orders, Run(db, requests).orders)
  {
    hide Step;
    if requests != [] {
      var before := requests[..|requests| - 1];
      RunAdvances(db, before);
      StepAdvances(Run(db, before), requests[|requests| - 1]);
      var mid, after := Run(db, before).orders, Run(db, requests).orders;
      forall o | 0 <= o < |db.orders|
        ensures Advances(db.orders[o], after[o])
      {
        assert Advances(db.orders[o], mid[o]) && Advances(mid[o], after[o]);
      }
    }
  }

  predicate IsCancelled(orders: seq<Order>, o: nat)
  {
    o < |orders| && orders[o].status == Cancelled
  }

  /** The request that turns order o into a cancelled one is the one that gives its units back. */
  predicate GivesBack(db: DB, request: Request, o: nat)
  {
    !IsCancelled(db.orders, o) && IsCancelled(Step(db, request).orders, o)
  }

  function TimesGivenBack(db: DB, requests: seq<Request>, o: nat): nat
  {
    if requests == [] then 0
    else
      var before := requests[..|requests| - 1];
      TimesGivenBack(db, before, o) + if GivesBack(Run(db, before), requests[|requests| - 1], o) then 1 else 0
  }

  /** Each order gives its units back at most once, and exactly once if it ends cancelled. */
  lemma {:induction false} RestockedExactlyOnce(db: DB, requests: seq<Request>, o: nat)
    requires !IsCancelled(db.orders, o)
    ensures TimesGivenBack(db, requests, o) == if IsCancelled(Run(db, requests).orders, o) then 1 else 0
  {
    hide Step;
    if requests != [] {
      var before := requests[..|requests| - 1];
      RestockedExactlyOnce(db, before, o);
      StepAdvances(Run(db, before), requests[|requests| - 1]);
    }
  }

  /** A request that gives an order's units back raises each stock by exactly the units of that order. */
  lemma GivenBackInFull(db: DB, request: Request, o: nat, p: Id)
    requires Invariant(db) && GivesBack(db, request, o)
    ensures StockOf(Step(db, request), p) == StockOf(db, p) + OrderedUnits(db.orders[o], p)
    ensures Step(db, request) == SetStatus(db, o, Cancelled)
  {
    hide Invariant, Step, SetStatus;
    CancelledBySetStatus(db, request, o);
    UnitsReturn(db, o, p);
  }

  lemma UnitsReturn(db: DB, o: nat, p: Id)
    requires Invariant(db) && o < |db.orders|
    ensures StockOf(SetStatus(db, o, Cancelled), p) == StockOf(db, p) + OrderedUnits(db.orders[o], p)
  {
    if p !in db.products {
      UnknownProductNotOrdered(db, o, p);
    }
  }

  lemma CancelledBySetStatus(db: DB, request: Request, o: nat)
    requires GivesBack(db, request, o)
    ensures o < |db.orders| && Step(db, request) == SetStatus(db, o, Cancelled)
  {
    hide FullyDelivered, AnyShipping, DeliveryLinesError, RolledUp, Verdict, FindKey, NextNumber;
    match request
    case NewDelivery(q, lines) =>
      if CreateDeliveryError(db, q, lines).None? {
        RollUpAdvances(WithDelivery(db.orders[q], lines), q);
      }
    case DeliveryMove(id, to, mover) =>
      if MoveDeliveryError(db, id, to, mover).None? {
        RollUpAdvances(WithDeliveryStatus(db.orders[id.order], id.index, to), id.order);
      }
    case _ =>
  }

  // ---------------------------------------------------------------- exactly once per idempotency key

  lemma FindKeyStable(orders: seq<Order>, after: seq<Order>, key: Id)
    requires AllAdvance(orders, after) && FindKey(orders, key).Some?
    ensures FindKey(after, key) == FindKey(orders, key)
  {
    FindKeyLeast(orders, key);
    FindKeyLeast(after, key);
    var o := FindKey(orders, key).value;
    forall i | 0 <= i < |orders|
      ensures after[i].key == orders[i].key
    {
      assert Advances(orders[i], after[i]);
    }
    assert after[o].key == key;
  }

  lemma {:induction false} FindKeyLeast(orders: seq<Order>, key: Id)
    ensures FindKey(orders, key).Some? ==>
              forall o :: 0 <= o < FindKey(orders, key).value ==> orders[o].key != key
  {
    if orders != [] {
      var front := orders[..|orders| - 1];
      FindKeyLeast(front, key);
      if FindKey(front, key).Some? {
        forall o | 0 <= o < FindKey(orders, key).value
          ensures orders[o].key != key
        {
          assert front[o].key != key;
        }
      }
    }
  }

  /** A key answered once is found from then on, whatever else happens. */
  lemma KeyIsForever(db: DB, requests: seq<Request>, key: Id)
    requires FindKey(db.orders, key).Some?
    ensures FindKey(Run(db, requests).orders, key) == FindKey(db.orders, key)
  {
    RunAdvances(db, requests);
    FindKeyStable(db.orders, Run(db, requests).orders, key);
  }

  lemma AnswerIsStored(db: DB, request: CheckoutRequest)
    requires CheckoutAnswer(db, request).Some?
    ensures FindKey(Checkout(db, request).orders, request.key) == CheckoutAnswer(db, request)
  {
    if FindKey(db.orders, request.key).None? {
      var after := Checkout(db, request).orders;
      assert after[..|after| - 1] == db.orders;
    }
  }

  /**
   * Exactly once: when a checkout with some key has succeeded, a later attempt with the
   * same key, after any other requests, returns the same order and changes nothing.
   */
  lemma ExactlyOnce(db: DB, request: CheckoutRequest, between: seq<Request>, again: CheckoutRequest)
    requires again.key == request.key && CheckoutAnswer(db, request).Some?
    ensures
      var later := Run(Checkout(db, request), between);
      && CheckoutAnswer(later, again) == CheckoutAnswer(db, request)
      && Checkout(later, again) == later
  {
    hide Checkout, Verdict, Run;
    AnswerIsStored(db, request);
    KeyIsForever(Checkout(db, request), between, request.key);
    AnsweredCheckoutIsIdle(Run(Checkout(db, request), between), again);
  }

  lemma AnsweredCheckoutIsIdle(db: DB, again: CheckoutRequest)
    requires FindKey(db.orders, again.key).Some?
    ensures CheckoutAnswer(db, again) == FindKey(db.orders, again.key)
    ensures Checkout(db, again) == db
  {
  }

  function CarriesKey(key: Id): Order -> int
  {
    (order: Order) => if order.key == key then 1 else 0
  }

  /** No run ever stores two orders under one key. */
  lemma AtMostOneOrderPerKey(db: DB, requests: seq<Request>, key: Id)
    requires Invariant(db)
    ensures 0 <= Sum(Run(db, requests).orders, CarriesKey(key)) <= 1
  {
    RunKeeps(db, requests);
    KeyCount(Run(db, requests).orders, key);
  }

  lemma {:induction false} KeyCount(orders: seq<Order>, key: Id)
    requires KeysOk(orders)
    ensures 0 <= Sum(orders, CarriesKey(key)) <= 1
  {
    if orders != [] {
      var n := |orders| - 1;
      KeyCount(orders[..n], key);
      if orders[n].key == key {
        SumCongruent(orders[..n], CarriesKey(key), Nothing());
        SumOfNothing(orders[..n]);
      }
    }
  }

  // ---------------------------------------------------------------- order numbers

  /** On each day of a run from the opening, the order numbers issued are 1, 2, ..., n; a request that fails uses none. */
  lemma NumbersWithoutGaps(db: DB, requests: seq<Request>, day: Day)
    requires Opening(db)
    ensures
      var counters := Counters(Numbers(Run(db, requests).orders), day);
      counters == UpTo(|counters|)
    ensures Distinct(Numbers(Run(db, requests).orders))
  {
    OpeningOk(db);
    RunKeeps(db, requests);
  }

  // ---------------------------------------------------------------- coupon limits

  ghost predicate WithinLimits(db: DB, code: Code)
    requires code in db.coupons
  {
    var c := db.coupons[code];
    && (c.usageLimit.Some? ==> c.usedCount <= c.usageLimit.value)
    && (c.perUserLimit.Some? ==>
          forall user: Id :: Sum(db.redemptions, UsedBy(code, user)) <= c.perUserLimit.value)
  }

  ghost predicate AllWithinLimits(db: DB)
  {
    forall code :: code in db.coupons ==> WithinLimits(db, code)
  }

  /** New terms that do not cut the coupon below the use already made of it. */
  ghost predicate Covers(db: DB, code: Code, terms: CouponTerms)
    requires code in db.coupons
  {
    && (terms.usageLimit.Some? ==> db.coupons[code].usedCount <= terms.usageLimit.value)
    && (terms.perUserLimit.Some? ==>
          forall user: Id :: Sum(db.redemptions, UsedBy(code, user)) <= terms.perUserLimit.value)
  }

  predicate EditAccepted(db: DB, code: Code, terms: CouponTerms, actor: User)
  {
    actor.IsAdmin() && code in db.coupons && ValidTerms(terms)
  }

  /** A coupon edit keeps the limits exactly when it is refused or its terms cover the use already made. */
  lemma EditKeepsLimitsIff(db: DB, code: Code, terms: CouponTerms, actor: User)
    requires AllWithinLimits(db)
    ensures AllWithinLimits(Step(db, CouponEdit(code, terms, actor)))
       <==> !EditAccepted(db, code, terms, actor) || Covers(db, code, terms)
  {
    var after := EditCoupon(db, code, terms, actor);
    if EditAccepted(db, code, terms, actor) {
      assert WithinLimits(after, code) <==> Covers(db, code, terms);
      if Covers(db, code, terms) {
        forall c | c in after.coupons
          ensures WithinLimits(after, c)
        {
          if c != code {
            assert WithinLimits(db, c);
          }
        }
      }
    }
  }

  lemma RedemptionsByUser(redemptions: seq<Redemption>, r: Redemption, code: Code, user: Id)
    ensures Sum(redemptions + [r], UsedBy(code, user))
         == Sum(redemptions, UsedBy(code, user)) + if r.coupon == code && r.user == Some(user) then 1 else 0
  {
    SumAppend(redemptions, r, UsedBy(code, user));
  }

  /** An accepted coupon still has room, in total and for its user; the other coupons are not touched. */
  lemma PlaceOrderKeepsLimit(db: DB, request: CheckoutRequest, quote: Quote, code: Code)
    requires Verdict(db, request) == Some(quote) && code in db.coupons && WithinLimits(db, code)
    ensures WithinLimits(PlaceOrder(db, request, quote), code)
  {
    hide Sum, Debit, NextNumber, Available, InStock, ItemsOf, CartValue, CartFee;
    var after := PlaceOrder(db, request, quote);
    if request.couponCode.Some? {
      var r := Redemption(request.couponCode.value, UserId(request.user), |db.orders|);
      forall user: Id
        ensures Sum(after.redemptions, UsedBy(code, user))
             == Sum(db.redemptions, UsedBy(code, user)) + if r.coupon == code && r.user == Some(user) then 1 else 0
      {
        RedemptionsByUser(db.redemptions, r, code, user);
      }
    }
  }

  lemma CheckoutKeepsLimits(db: DB, request: CheckoutRequest)
    requires AllWithinLimits(db)
    ensures AllWithinLimits(Checkout(db, request))
  {
    hide WithinLimits, Verdict, Debit, NextNumber;
    var after := Checkout(db, request);
    forall code | code in after.coupons
      ensures WithinLimits(after, code)
    {
      assert WithinLimits(db, code);
      if after != db {
        PlaceOrderKeepsLimit(db, request, Verdict(db, request).value, code);
      }
    }
  }

  lemma {:induction false} UnusedCouponByUser(db: DB, code: Code, user: Id)
    requires CouponsOk(db) && code !in db.coupons
    ensures Sum(db.redemptions, UsedBy(code, user)) == 0
  {
    UnknownCouponUnused(db, code);
    forall r | r in db.redemptions
      ensures 0 <= UsedBy(code, user)(r) <= UsesOf(code)(r)
    {
    }
    SumNonNegative(db.redemptions, UsedBy(code, user));
    SumMonotone(db.redemptions, UsedBy(code, user), UsesOf(code));
  }

  lemma CreationKeepsLimits(db: DB, code: Code, terms: CouponTerms, actor: User)
    requires CouponsOk(db) && AllWithinLimits(db)
    ensures AllWithinLimits(AddCoupon(db, code, terms, actor))
  {
    var after := AddCoupon(db, code, terms, actor);
    if after != db {
      forall user: Id
        ensures Sum(db.redemptions, UsedBy(code, user)) == 0
      {
        UnusedCouponByUser(db, code, user);
      }
      forall c | c in after.coupons
        ensures WithinLimits(after, c)
      {
        if c != code {
          assert WithinLimits(db, c);
        }
      }
    }
  }

  lemma SameCouponsSameLimits(db: DB, after: DB)
    requires AllWithinLimits(db) && after.coupons == db.coupons && after.redemptions == db.redemptions
    ensures AllWithinLimits(after)
  {
    forall c | c in after.coupons
      ensures WithinLimits(after, c)
    {
      assert WithinLimits(db, c);
    }
  }

  /** Every other request keeps every coupon within its limits, without any condition. */
  lemma StepKeepsLimits(db: DB, request: Request)
    requires Invariant(db) && AllWithinLimits(db) && !request.CouponEdit?
    ensures AllWithinLimits(Step(db, request))
  {
    hide AllWithinLimits, Checkout, RolledUp, DeliveryLinesError, OrdersOk, GapFree, CouponsOk;
    if request.Order_? {
      CheckoutKeepsLimits(db, request.checkout);
    } else if request.CouponCreation? {
      CreationKeepsLimits(db, request.code, request.terms, request.actor);
    } else {
      SameCouponsSameLimits(db, Step(db, request));
    }
  }

  /** No coupon edit that takes effect cuts a coupon below the use made of it at that moment. */
  ghost predicate NoLimitUndercut(db: DB, requests: seq<Request>)
  {
    forall i :: 0 <= i < |requests| && requests[i].CouponEdit? ==>
      var now, edit := Run(db, requests[..i]), requests[i];
      EditAccepted(now, edit.code, edit.terms, edit.actor) ==> Covers(now, edit.code, edit.terms)
  }

  lemma {:induction false} RunKeepsLimits(db: DB, requests: seq<Request>)
    requires Invariant(db) && AllWithinLimits(db) && NoLimitUndercut(db, requests)
    ensures AllWithinLimits(Run(db, requests))
  {
    hide Invariant, AllWithinLimits, Step, Covers;
    if requests != [] {
      var n := |requests| - 1;
      var before, last := requests[..n], requests[n];
      forall i | 0 <= i < |before|
        ensures before[..i] == requests[..i] && before[i] == requests[i]
      {
      }
      RunKeepsLimits(db, before);
      RunKeeps(db, before);
      if last.CouponEdit? {
        EditKeepsLimitsIff(Run(db, before), last.code, last.terms, last.actor);
      } else {
        StepKeepsLimits(Run(db, before), last);
      }
    }
  }

  // ---------------------------------------------------------------- reorder

  lemma {:induction false} RebuiltDemand(products: map<Id, Product>, items: seq<OrderItem>, p: Id)
    requires forall i, j :: 0 <= i < j < |items| ==> items[i].product != items[j].product
    ensures
      var cart := RebuiltLines(products, items).items;
      && (p in ProductIds(cart) ==> p in products && products[p].active && Demand(cart, p) <= products[p].stock)
      && (p in ProductIds(cart) ==> exists i :: 0 <= i < |items| && items[i].product == p)
  {
    if items != [] {
      var n := |items| - 1;
      var front, last := items[..n], items[n];
      RebuiltDemand(products, front, p);
      var cart, line := RebuiltLines(products, front).items, RebuiltLine(products, last).items;
      if line == [] {
        assert RebuiltLines(products, items).items == cart;
      } else {
        assert RebuiltLines(products, items).items == cart + [line[0]];
        DemandSnoc(cart, line[0], p);
        if p == last.product {
          assert p !in ProductIds(cart);
          assert items[n].product == p;
        } else if p in ProductIds(cart) {
          var i :| 0 <= i < |front| && front[i].product == p;
          assert items[i].product == p;
        }
        assert p in ProductIds(cart + [line[0]]) ==> p in ProductIds(cart) || p == last.product;
      }
      if p in ProductIds(cart) {
        var i :| 0 <= i < |front| && front[i].product == p;
        assert items[i].product == p;
      }
    }
  }

  /** Why a product cannot be ordered again, if it cannot. */
  function SkipOf(products: map<Id, Product>, p: Id): Option<SkipReason>
  {
    if p !in products then Some(NotFound)
    else if !products[p].active then Some(Inactive)
    else if products[p].stock <= 0 then Some(OutOfStock)
    else None
  }

  /**
   * Each line of the past order is accounted for once: a product that can be ordered comes
   * back with what the stock allows of its quantity, any other is reported with its reason.
   */
  lemma {:induction false} RebuiltAccountsForAll(products: map<Id, Product>, items: seq<OrderItem>)
    ensures
      var r := RebuiltLines(products, items);
      && |r.items| + |r.skipped| == |items|
      && forall k :: 0 <= k < |items| ==>
           var p := items[k].product;
           match SkipOf(products, p)
           case Some(reason) => (p, reason) in r.skipped
           case None =>
             exists line :: && line in r.items && line.product == p
                            && line.quantity <= items[k].quantity && line.quantity <= products[p].stock
                            && (line.quantity == items[k].quantity || line.quantity == products[p].stock)
  {
    if items != [] {
      var n := |items| - 1;
      var before, last := RebuiltLines(products, items[..n]), RebuiltLine(products, items[n]);
      var r := RebuiltLines(products, items);
      RebuiltAccountsForAll(products, items[..n]);
      forall k | 0 <= k < n
        ensures items[..n][k] == items[k]
      {
      }
      if last.items == [] {
        assert last.skipped[0] in r.skipped;
      } else {
        assert last.items[0] in r.items;
      }
    }
  }

  /** The cart that a reorder rebuilds passes the checkout while the catalog is unchanged. */
  lemma ReorderChecksOut(db: DB, o: nat, request: CheckoutRequest)
    requires Invariant(db) && o < |db.orders|
    requires request.items == RebuiltLines(db.products, db.orders[o].items).items
    requires request.couponCode.None?
    ensures CheckoutAnswer(db, request).Some?
  {
    var items := db.orders[o].items;
    assert OrderOk(db.orders[o], o, db.products.Keys);
    forall p | p in ProductIds(request.items)
      ensures p in db.products && db.products[p].active && Demand(request.items, p) <= db.products[p].stock
    {
      RebuiltDemand(db.products, items, p);
    }
  }
}
