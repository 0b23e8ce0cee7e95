/**
 * The book stock against the shelf. Units leave the shop when they are delivered, and the
 * ledger only counts them as sold: a cancellation gives back everything that was ordered,
 * also what was already delivered, and deliveries of a cancelled order can still be handed
 * over.
 */
module Shelf {
  import opened Sums
  import opened OrderNumbers
  import opened Ledger
  import opened LedgerInvariants
  import opened LedgerRuns
  import opened OneLineSale
  import opened Pricing

  /** The units of a product delivered on the first n items of order o. */
  function DeliveredOnItems(order: Order, o: nat, p: Id, n: nat): int
    requires n <= |order.items|
  {
    if n == 0 then 0
    else
      DeliveredOnItems(order, o, p, n - 1)
      + if order.items[n - 1].product == p then DeliveredQuantity(order, ItemId(o, n - 1)) else 0
  }

  function DeliveredOf(order: Order, o: nat, p: Id): int
  {
    DeliveredOnItems(order, o, p, |order.items|)
  }

  /** All units that left the shop. */
  function DeliveredAll(orders: seq<Order>, p: Id): int
  {
    if orders == [] then 0
    else
      var n := |orders| - 1;
      DeliveredAll(orders[..n], p) + DeliveredOf(orders[n], n, p)
  }

  /** Of these, the units that left on orders which are cancelled by now. */
  function DeliveredOnCancelled(orders: seq<Order>, p: Id): int
  {
    if orders == [] then 0
    else
      var n := |orders| - 1;
      DeliveredOnCancelled(orders[..n], p)
      + if orders[n].status == Cancelled then DeliveredOf(orders[n], n, p) else 0
  }

  /** The units that open orders still wait for. */
  function Waiting(orders: seq<Order>, p: Id): int
  {
    if orders == [] then 0
    else
      var n := |orders| - 1;
      Waiting(orders[..n], p)
      + if orders[n].status == Cancelled then 0 else OrderedUnits(orders[n], p) - DeliveredOf(orders[n], n, p)
  }

  lemma {:induction false} WaitingIsHeldNotDelivered(orders: seq<Order>, p: Id)
    ensures Waiting(orders, p) == Held(orders, p) - DeliveredAll(orders, p) + DeliveredOnCancelled(orders, p)
  {
    hide DeliveredOf, OrderedUnits;
    if orders != [] {
      WaitingIsHeldNotDelivered(orders[..|orders| - 1], p);
    }
  }

  // ---------------------------------------------------------------- what a request misses

  /** The units of a product that one delivery carries for the first n items of order o. */
  function CarriedOnItems(order: Order, o: nat, delivery: Delivery, p: Id, n: nat): int
    requires n <= |order.items|
  {
    if n == 0 then 0
    else
      CarriedOnItems(order, o, delivery, p, n - 1)
      + if order.items[n - 1].product == p then Carried(delivery, ItemId(o, n - 1)) else 0
  }

  function CarriedOf(order: Order, o: nat, d: nat, p: Id): int
    requires d < |order.deliveries|
  {
    CarriedOnItems(order, o, order.deliveries[d], p, |order.items|)
  }

  predicate Cancels(db: DB, request: Request, o: nat)
  {
    match request
    case StaffStatus(q, status, actor) => q == o && status == Cancelled && StaffUpdateError(db, o, status, actor).None?
    case CustomerCancel(q, user, phone) => q == o && CancelError(db, o, user, phone).None?
    case _ => false
  }

  /**
   * The units of a product that a request makes the books miss: an accepted cancellation
   * misses what the order had delivered, an accepted hand-over of a delivery of a
   * cancelled order misses what it carries, and nothing else misses anything.
   */
  function Missed(db: DB, request: Request, p: Id): int
  {
    match request
    case StaffStatus(o, status, actor) =>
      if Cancels(db, request, o) then DeliveredOf(db.orders[o], o, p) else 0
    case CustomerCancel(o, user, phone) =>
      if Cancels(db, request, o) then DeliveredOf(db.orders[o], o, p) else 0
    case DeliveryMove(id, to, mover) =>
      if MoveDeliveryError(db, id, to, mover).None? && to == DeliveryDelivered && db.orders[id.order].status == Cancelled
      then CarriedOf(db.orders[id.order], id.order, id.index, p) else 0
    case _ => 0
  }

  /** Only what delivered deliveries carry counts, not the status of the order. */
  lemma {:induction false} SameDelivered(a: Order, b: Order, o: nat, p: Id, n: nat)
    requires a.items == b.items && n <= |a.items|
    requires forall item :: DeliveredQuantity(a, item) == DeliveredQuantity(b, item)
    ensures DeliveredOnItems(a, o, p, n) == DeliveredOnItems(b, o, p, n)
  {
    hide DeliveredQuantity;
    if n != 0 {
      SameDelivered(a, b, o, p, n - 1);
    }
  }

  lemma StatusKeepsDelivered(order: Order, o: nat, p: Id, status: OrderStatus)
    ensures DeliveredOf(order.(status := status), o, p) == DeliveredOf(order, o, p)
  {
    hide DeliveredOnItems;
    var after := order.(status := status);
    assert forall item :: DeliveredQuantity(after, item) == DeliveredQuantity(order, item);
    SameDelivered(after, order, o, p, |order.items|);
  }

  lemma {:induction false} HandedOverOnItems(order: Order, o: nat, d: nat, p: Id, n: nat)
    requires n <= |order.items| && d < |order.deliveries| && order.deliveries[d].status != DeliveryDelivered
    ensures DeliveredOnItems(WithDeliveryStatus(order, d, DeliveryDelivered), o, p, n)
         == DeliveredOnItems(order, o, p, n) + CarriedOnItems(order, o, order.deliveries[d], p, n)
  {
    hide Sum, Carried;
    if n != 0 {
      HandedOverOnItems(order, o, d, p, n - 1);
      var item := ItemId(o, n - 1);
      var after := order.deliveries[d].(status := DeliveryDelivered);
      SumUpdate(order.deliveries, d, after, DeliveredUnits(item));
      SameLoad(order.deliveries[d], DeliveryDelivered, item);
    }
  }

  lemma SameLoad(delivery: Delivery, status: DeliveryStatus, item: ItemId)
    ensures Carried(delivery.(status := status), item) == Carried(delivery, item)
  {
  }

  /** Moving a delivery from one undelivered status to another delivers nothing. */
  lemma NotHandedOver(order: Order, o: nat, d: nat, status: DeliveryStatus, p: Id)
    requires d < |order.deliveries| && order.deliveries[d].status != DeliveryDelivered && status != DeliveryDelivered
    ensures DeliveredOf(WithDeliveryStatus(order, d, status), o, p) == DeliveredOf(order, o, p)
  {
    hide DeliveredOnItems, Sum;
    var after := WithDeliveryStatus(order, d, status);
    forall item
      ensures DeliveredQuantity(after, item) == DeliveredQuantity(order, item)
    {
      SumUpdate(order.deliveries, d, after.deliveries[d], DeliveredUnits(item));
    }
    SameDelivered(after, order, o, p, |order.items|);
  }

  lemma DriverKeepsDelivered(order: Order, o: nat, d: nat, driver: Option<Id>, p: Id)
    requires d < |order.deliveries|
    ensures
      var after := order.(deliveries := order.deliveries[d := order.deliveries[d].(driver := driver)]);
      DeliveredOf(after, o, p) == DeliveredOf(order, o, p)
  {
    hide DeliveredOnItems, Sum;
    var after := order.(deliveries := order.deliveries[d := order.deliveries[d].(driver := driver)]);
    forall item
      ensures DeliveredQuantity(after, item) == DeliveredQuantity(order, item)
    {
      SumUpdate(order.deliveries, d, after.deliveries[d], DeliveredUnits(item));
      assert Carried(after.deliveries[d], item) == Carried(order.deliveries[d], item);
    }
    SameDelivered(after, order, o, p, |order.items|);
  }

  function LostOn(order: Order, o: nat, p: Id): int
  {
    if order.status == Cancelled then DeliveredOf(order, o, p) else 0
  }

  lemma {:induction false} LostAfterChange(orders: seq<Order>, o: nat, order: Order, p: Id)
    requires o < |orders|
    ensures DeliveredOnCancelled(orders[o := order], p)
         == DeliveredOnCancelled(orders, p) - LostOn(orders[o], o, p) + LostOn(order, o, p)
  {
    hide DeliveredOf;
    var n := |orders| - 1;
    if o == n {
      assert orders[o := order][..n] == orders[..n];
    } else {
      assert orders[o := order][..n] == orders[..n][o := order];
      LostAfterChange(orders[..n], o, order, p);
    }
  }

  lemma SetStatusMisses(db: DB, o: nat, status: OrderStatus, p: Id)
    requires o < |db.orders| && db.orders[o].status != Cancelled
    ensures DeliveredOnCancelled(SetStatus(db, o, status).orders, p)
         == DeliveredOnCancelled(db.orders, p) + if status == Cancelled then DeliveredOf(db.orders[o], o, p) else 0
  {
    hide DeliveredOf, DeliveredOnCancelled;
    LostAfterChange(db.orders, o, db.orders[o].(status := status), p);
    StatusKeepsDelivered(db.orders[o], o, p, status);
  }

  lemma MoveMisses(db: DB, id: DeliveryId, to: DeliveryStatus, mover: Mover, p: Id)
    requires MoveDeliveryError(db, id, to, mover).None?
    ensures DeliveredOnCancelled(MoveDelivery(db, id, to, mover).orders, p)
         == DeliveredOnCancelled(db.orders, p) + Missed(db, DeliveryMove(id, to, mover), p)
  {
    hide DeliveredOnItems, CarriedOnItems, DeliveredOnCancelled, FullyDelivered, AnyShipping;
    var o, order := id.order, db.orders[id.order];
    var moved := WithDeliveryStatus(order, id.index, to);
    LostAfterChange(db.orders, o, RollUp(moved, o), p);
    StatusKeepsDelivered(moved, o, p, RolledUp(moved, o));
    RollUpAdvances(moved, o);
    if to == DeliveryDelivered {
      HandedOverOnItems(order, o, id.index, p, |order.items|);
    } else {
      NotHandedOver(order, o, id.index, to, p);
    }
  }

  lemma AppendedOrderMisses(orders: seq<Order>, order: Order, p: Id)
    requires order.status != Cancelled
    ensures DeliveredOnCancelled(orders + [order], p) == DeliveredOnCancelled(orders, p)
  {
    assert (orders + [order])[..|orders|] == orders;
  }

  /** One request puts the books off by exactly what can be read off before it. */
  lemma StepMisses(db: DB, request: Request, p: Id)
    ensures DeliveredOnCancelled(Step(db, request).orders, p) == DeliveredOnCancelled(db.orders, p) + Missed(db, request, p)
  {
    hide DeliveredOf, DeliveredOnCancelled, CarriedOf, FullyDelivered, AnyShipping, DeliveryLinesError, Verdict, FindKey,
         NextNumber, Numbers, SetStatus;
    match request
    case Order_(checkout) =>
      if Checkout(db, checkout) != db {
        AppendedOrderMisses(db.orders, Checkout(db, checkout).orders[|db.orders|], p);
      }
    case StaffStatus(o, status, actor) =>
      if StaffUpdateError(db, o, status, actor).None? { SetStatusMisses(db, o, status, p); }
    case CustomerCancel(o, user, phone) =>
      if CancelError(db, o, user, phone).None? { SetStatusMisses(db, o, Cancelled, p); }
    case NewDelivery(o, lines) =>
      if CreateDeliveryError(db, o, lines).None? {
        var order := RollUp(WithDelivery(db.orders[o], lines), o);
        LostAfterChange(db.orders, o, order, p);
        RollUpAdvances(WithDelivery(db.orders[o], lines), o);
      }
    case DeliveryMove(id, to, mover) =>
      if MoveDeliveryError(db, id, to, mover).None? { MoveMisses(db, id, to, mover, p); }
    case DriverAssignment(id, driver) =>
      if AssignDriver(db, id, driver) != db {
        var order := AssignDriver(db, id, driver).orders[id.order];
        LostAfterChange(db.orders, id.order, order, p);
        DriverKeepsDelivered(db.orders[id.order], id.order, id.index, UserId(driver), p);
      }
    case _ =>
  }

  lemma {:induction false} DeliveredNonNegative(order: Order, o: nat, p: Id, n: nat)
    requires n <= |order.items|
    ensures 0 <= DeliveredOnItems(order, o, p, n)
  {
    if n != 0 {
      DeliveredNonNegative(order, o, p, n - 1);
      DeliveredWithinAllocated(order, ItemId(o, n - 1));
    }
  }

  lemma {:induction false} CarriedOnItemsNonNegative(order: Order, o: nat, delivery: Delivery, p: Id, n: nat)
    requires n <= |order.items|
    ensures 0 <= CarriedOnItems(order, o, delivery, p, n)
  {
    if n != 0 {
      CarriedOnItemsNonNegative(order, o, delivery, p, n - 1);
      CarriedNonNegative(delivery, ItemId(o, n - 1));
    }
  }

  lemma MissedNonNegative(db: DB, request: Request, p: Id)
    ensures 0 <= Missed(db, request, p)
  {
    hide DeliveredOnItems, CarriedOnItems;
    match request
    case StaffStatus(o, status, actor) =>
      if o < |db.orders| { DeliveredNonNegative(db.orders[o], o, p, |db.orders[o].items|); }
    case CustomerCancel(o, user, phone) =>
      if o < |db.orders| { DeliveredNonNegative(db.orders[o], o, p, |db.orders[o].items|); }
    case DeliveryMove(id, to, mover) =>
      if DeliveryExists(db, id) {
        var order := db.orders[id.order];
        CarriedOnItemsNonNegative(order, id.order, order.deliveries[id.index], p, |order.items|);
      }
    case _ =>
  }

  // ---------------------------------------------------------------- runs

  /** No request of the run cancels delivered units or hands over units of a cancelled order. */
  predicate NothingMissed(db: DB, requests: seq<Request>, p: Id)
  {
    forall i :: 0 <= i < |requests| ==> Missed(Run(db, requests[..i]), requests[i], p) == 0
  }

  lemma {:induction false} LostIffMissed(db: DB, requests: seq<Request>, p: Id)
    requires db.orders == []
    ensures 0 <= DeliveredOnCancelled(Run(db, requests).orders, p)
    ensures DeliveredOnCancelled(Run(db, requests).orders, p) == 0 <==> NothingMissed(db, requests, p)
  {
    hide Step, Missed;
    if requests != [] {
      var n := |requests| - 1;
      var before, last := requests[..n], requests[n];
      LostIffMissed(db, before, p);
      StepMisses(Run(db, before), last, p);
      MissedNonNegative(Run(db, before), last, p);
      assert forall i :: 0 <= i < n ==> before[..i] == requests[..i] && before[i] == requests[i];
      if NothingMissed(db, requests, p) {
        forall i | 0 <= i < n
          ensures Missed(Run(db, before[..i]), before[i], p) == 0
        {
          assert Missed(Run(db, requests[..i]), requests[i], p) == 0;
        }
      } else {
        var i :| 0 <= i < |requests| && Missed(Run(db, requests[..i]), requests[i], p) != 0;
        if i < n {
          assert Missed(Run(db, before[..i]), before[i], p) != 0;
        }
      }
    }
  }

  /** The stock that is free, plus the units open orders wait for, is what the shop had less what it delivered. */
  predicate BookIsShelf(db: DB, requests: seq<Request>, p: Id)
  {
    var after := Run(db, requests);
    StockOf(after, p) + Waiting(after.orders, p)
    == StockOf(db, p) + NetAdjustment(db, requests, p) - DeliveredAll(after.orders, p)
  }

  /** Over every run, the books agree with the shelf exactly when no request of the run missed a unit. */
  lemma BookMatchesShelfIff(db: DB, requests: seq<Request>, p: Id)
    requires Invariant(db) && db.orders == []
    ensures BookIsShelf(db, requests, p) <==> NothingMissed(db, requests, p)
  {
    hide Invariant, Run, StockOf, NetAdjustment, NothingMissed;
    RunConserves(db, requests, p);
    WaitingIsHeldNotDelivered(Run(db, requests).orders, p);
    LostIffMissed(db, requests, p);
  }

  // ---------------------------------------------------------------- it does happen, in two ways

  const CUSTOMER := "+84901"
  const DAY: Day := "20250101"
  const BOTTLE := Product("Gas 12", "QC", 1200, Gas, 100, None, 3, true)
  const LAST_THREE := CartLine(0, 3, false)
  const BUY := CheckoutRequest([LAST_THREE], None, 7, None, CUSTOMER, 0, DAY)
  const PART := [DeliveryLine(ItemId(0, 0), 2)]

  const SHIP_TWO := NewDelivery(0, PART)
  const HAND_OVER := DeliveryMove(DeliveryId(0, 0), DeliveryDelivered, ForOrder(0))
  const TAKE_BACK := CustomerCancel(0, None, Some(CUSTOMER))

  function OpeningDay(): DB
  {
    DB(map[0 := BOTTLE], [], map[], [])
  }

  function Number(): string
  {
    NextNumber([], DAY)
  }

  function OneOrder(status: OrderStatus, deliveries: seq<Delivery>): Order
  {
    Order(Number(), 7, None, CUSTOMER, status, [OrderItem(0, 3, 100, 300, false)], deliveries, 300, 0, 0, None, 300)
  }

  function ShopWith(stock: int, status: OrderStatus, deliveries: seq<Delivery>): DB
  {
    DB(map[0 := BOTTLE.(stock := stock)], [OneOrder(status, deliveries)], map[], [])
  }

  function PartDelivery(status: DeliveryStatus): Delivery
  {
    Delivery(DeliveryCode(Number(), 1), status, None, PART)
  }

  lemma BuyThree()
    ensures Step(OpeningDay(), Order_(BUY)) == ShopWith(0, Pending, [])
  {
    hide NextNumber;
    var db := OpeningDay();
    assert Numbers([]) == [];
    assert Sells(db, BUY, LAST_THREE);
    LineSold(db, BUY, LAST_THREE);
    assert db.products[0].UnitPrice() == 100;
  }

  lemma PartDelivered(status: OrderStatus, delivery: DeliveryStatus)
    requires delivery in {DeliveryPending, DeliveryDelivered} && status in {Pending, Cancelled}
    ensures
      var order := OneOrder(status, [PartDelivery(delivery)]);
      && DeliveredQuantity(order, ItemId(0, 0)) == (if delivery == DeliveryDelivered then 2 else 0)
      && RollUp(order, 0) == order
  {
    hide Number, DeliveryCode;
    var order := OneOrder(status, [PartDelivery(delivery)]);
    var item, carried := ItemId(0, 0), PartDelivery(delivery);
    SumAppend([], PART[0], LineUnits(item));
    assert [] + [PART[0]] == PART;
    SumAppend([], carried, DeliveredUnits(item));
    assert [] + [carried] == order.deliveries;
    assert Carried(carried, item) == 2;
    assert !FullyDelivered(order, 0);
  }

  lemma ShipTwo()
    ensures Step(ShopWith(0, Pending, []), SHIP_TWO) == ShopWith(0, Pending, [PartDelivery(DeliveryPending)])
  {
    hide DeliveryCode, Number, RollUp, FullyDelivered;
    PartDelivered(Pending, DeliveryPending);
    var db := ShopWith(0, Pending, []);
    assert DeliveryLinesError(db.orders[0], 0, PART, 0).None?;
    assert Allocated(db.orders[0], ItemId(0, 0)) == 0;
    assert DeliveryLinesError(db.orders[0], 0, PART, 1) == DeliveryLineError(db.orders[0], 0, PART, 0);
    assert WithDelivery(db.orders[0], PART) == OneOrder(Pending, [PartDelivery(DeliveryPending)]);
  }

  /** A delivery of a pending or cancelled order is handed over; nobody looks at the status of the order. */
  lemma HandOver(stock: int, status: OrderStatus)
    requires status in {Pending, Cancelled}
    ensures Step(ShopWith(stock, status, [PartDelivery(DeliveryPending)]), HAND_OVER)
         == ShopWith(stock, status, [PartDelivery(DeliveryDelivered)])
  {
    hide DeliveryCode, Number, RollUp, FullyDelivered;
    PartDelivered(status, DeliveryDelivered);
    var order := OneOrder(status, [PartDelivery(DeliveryPending)]);
    assert WithDeliveryStatus(order, 0, DeliveryDelivered) == OneOrder(status, [PartDelivery(DeliveryDelivered)]);
  }

  lemma TakeBack(delivery: DeliveryStatus)
    ensures Step(ShopWith(0, Pending, [PartDelivery(delivery)]), TAKE_BACK) == ShopWith(3, Cancelled, [PartDelivery(delivery)])
  {
    hide DeliveryCode, Number;
    var order := OneOrder(Pending, [PartDelivery(delivery)]);
    assert [] + [order.items[0]] == order.items;
    SumAppend([], order.items[0], UnitsOf(0));
    assert OrderedUnits(order, 0) == 3;
  }

  lemma TwoLost()
    ensures
      var db := ShopWith(3, Cancelled, [PartDelivery(DeliveryDelivered)]);
      StockOf(db, 0) == 3 && DeliveredOnCancelled(db.orders, 0) == 2
  {
    hide DeliveryCode, Number, RollUp, FullyDelivered, DeliveredQuantity;
    PartDelivered(Cancelled, DeliveryDelivered);
    var orders := ShopWith(3, Cancelled, [PartDelivery(DeliveryDelivered)]).orders;
    assert DeliveredOnItems(orders[0], 0, 0, 1) == 2;
    assert orders[..0] == [];
  }

  lemma FourSteps(db: DB, a: Request, b: Request, c: Request, d: Request)
    ensures Run(db, [a, b, c, d]) == Step(Step(Step(Step(db, a), b), c), d)
  {
    hide Step;
    assert [a][..0] == [] && [a, b][..1] == [a] && [a, b, c][..2] == [a, b] && [a, b, c, d][..3] == [a, b, c];
    assert Run(db, [a]) == Step(Run(db, []), a);
    assert Run(db, [a, b]) == Step(Run(db, [a]), b);
    assert Run(db, [a, b, c]) == Step(Run(db, [a, b]), c);
  }

  /**
   * From the opening of a shop that has three bottles: all three are ordered, two are handed
   * over, and the order, still pending, is cancelled. Or it is cancelled while two are on
   * their way, and these are handed over all the same. Either way the shop books three
   * bottles that it can sell and has one.
   */
  lemma DeliveredUnitsComeBack()
    ensures Opening(OpeningDay())
    ensures forall requests ::
      requests in {[Order_(BUY), SHIP_TWO, HAND_OVER, TAKE_BACK], [Order_(BUY), SHIP_TWO, TAKE_BACK, HAND_OVER]} ==>
        && StockOf(Run(OpeningDay(), requests), 0) == 3
        && DeliveredOnCancelled(Run(OpeningDay(), requests).orders, 0) == 2
        && !BookIsShelf(OpeningDay(), requests, 0)
  {
    hide Step, StockOf, DeliveredOnCancelled, ShopWith, PartDelivery, BookIsShelf, NothingMissed;
    BuyThree();
    ShipTwo();
    HandOver(0, Pending);
    TakeBack(DeliveryDelivered);
    TakeBack(DeliveryPending);
    HandOver(3, Cancelled);
    TwoLost();
    FourSteps(OpeningDay(), Order_(BUY), SHIP_TWO, HAND_OVER, TAKE_BACK);
    FourSteps(OpeningDay(), Order_(BUY), SHIP_TWO, TAKE_BACK, HAND_OVER);
    OpeningOk(OpeningDay());
    forall requests | requests in {[Order_(BUY), SHIP_TWO, HAND_OVER, TAKE_BACK], [Order_(BUY), SHIP_TWO, TAKE_BACK, HAND_OVER]}
      ensures !BookIsShelf(OpeningDay(), requests, 0)
    {
      BookMatchesShelfIff(OpeningDay(), requests, 0);
      LostIffMissed(OpeningDay(), requests, 0);
    }
  }
}
