/**
 * Who may move an order or a delivery, from which status to which, and what that does:
 * the rules of the status updates, put in terms of statuses, roles and quantities.
 */
module OrderRules {
  import opened Sums
  import opened OrderNumbers
  import opened Ledger
  import opened LedgerInvariants
  import opened LedgerRuns

  // ---------------------------------------------------------------- orders

  const ORDER_MOVES: set<(OrderStatus, OrderStatus)> :=
    {(Pending, Confirmed), (Pending, Cancelled), (Confirmed, Shipping), (Confirmed, Cancelled),
     (Shipping, Delivered), (Shipping, Cancelled)}

  /** Staff move an order along the table, and nobody else does; the units of a cancelled order come back. */
  lemma StaffUpdateRules(db: DB, o: nat, status: OrderStatus, actor: User, p: Id)
    ensures
      var after := StaffUpdate(db, o, status, actor);
      var error := StaffUpdateError(db, o, status, actor);
      && (error == Some(Forbidden) <==> actor.role == Customer || actor.role == Driver)
      && (error == Some(OrderNotFound) ==> |db.orders| <= o)
      && (error == Some(InvalidTransition) ==> o < |db.orders| && (db.orders[o].status, status) !in ORDER_MOVES)
      && if actor.role in {Staff, Admin} && o < |db.orders| && (db.orders[o].status, status) in ORDER_MOVES
         then
           && after.orders == db.orders[o := db.orders[o].(status := status)]
           && after.coupons == db.coupons && after.redemptions == db.redemptions
           && StockOf(after, p) == (if p in db.products && status == Cancelled then db.products[p].stock + Sum(db.orders[o].items, UnitsOf(p))
                                    else StockOf(db, p))
         else after == db && error.Some?
  {
    hide Sum;
  }

  /** Whoever may see an order: staff, the account it was placed with, or anyone who knows its phone number. */
  predicate MaySee(order: Order, user: Option<User>, phone: Option<string>)
  {
    || (user.Some? && user.value.role in {Staff, Admin})
    || (user.Some? && order.user.Some? && order.user.value == user.value.id)
    || (phone.Some? && phone.value != "" && phone.value == order.phone)
  }

  /** A pending or confirmed order can be cancelled by whoever may see it, and by nobody else. */
  lemma CancelRules(db: DB, o: nat, user: Option<User>, phone: Option<string>, p: Id)
    ensures
      var after, error := Cancel(db, o, user, phone), CancelError(db, o, user, phone);
      && (error == Some(OrderNotFound) ==> |db.orders| <= o)
      && (error == Some(Forbidden) ==> o < |db.orders| && !MaySee(db.orders[o], user, phone))
      && (error == Some(NotCancellable) ==> o < |db.orders| && db.orders[o].status !in {Pending, Confirmed})
      && if o < |db.orders| && MaySee(db.orders[o], user, phone) && db.orders[o].status in {Pending, Confirmed}
         then
           && error.None?
           && after.orders == db.orders[o := db.orders[o].(status := Cancelled)]
           && after.coupons == db.coupons && after.redemptions == db.redemptions
           && StockOf(after, p) == (if p in db.products then db.products[p].stock + Sum(db.orders[o].items, UnitsOf(p)) else 0)
         else after == db && error.Some?
  {
    hide Sum;
  }

  // ---------------------------------------------------------------- what deliveries carry

  /** A delivery whose lines name different items carries of each what its line says, and nothing else. */
  lemma {:induction false} CarriedIsListed(lines: seq<DeliveryLine>, item: ItemId)
    requires forall j, k :: 0 <= j < k < |lines| ==> lines[j].item != lines[k].item
    ensures forall k :: 0 <= k < |lines| && lines[k].item == item ==> Sum(lines, LineUnits(item)) == lines[k].quantity
    ensures (forall k :: 0 <= k < |lines| ==> lines[k].item != item) ==> Sum(lines, LineUnits(item)) == 0
  {
    if lines != [] {
      var n := |lines| - 1;
      assert forall k :: 0 <= k < n ==> lines[..n][k] == lines[k];
      CarriedIsListed(lines[..n], item);
    }
  }

  function Arrived(item: ItemId): Delivery -> int
  {
    (d: Delivery) => if d.status == DeliveryDelivered then Sum(d.lines, LineUnits(item)) else 0
  }

  /** Delivered means on a delivery that was delivered. */
  lemma DeliveredIsArrived(order: Order, item: ItemId)
    ensures DeliveredQuantity(order, item) == Sum(order.deliveries, Arrived(item))
  {
    SumCongruent(order.deliveries, Arrived(item), DeliveredUnits(item));
  }

  // ---------------------------------------------------------------- the roll-up

  /** Each item of an order that has items has been delivered in full, and no more. */
  predicate DeliveredInFull(order: Order, o: nat)
  {
    order.items != [] && forall i :: 0 <= i < |order.items| ==> DeliveredQuantity(order, ItemId(o, i)) == order.items[i].quantity
  }

  /** What a change to the deliveries of an order does to its status. */
  predicate StatusFollows(before: Order, after: Order, o: nat)
  {
    var open := before.status != Delivered && before.status != Cancelled;
    if open && DeliveredInFull(after, o) then after.status == Delivered
    else if before.status in {Pending, Confirmed} && exists d :: d in after.deliveries && d.status == DeliveryShipping
    then after.status == Shipping
    else after.status == before.status
  }

  /** The status that the deliveries of an order imply for it. */
  predicate Derived(order: Order, o: nat, status: OrderStatus)
  {
    if order.status == Cancelled || order.deliveries == [] then status == order.status
    else if order.items != [] && forall i :: 0 <= i < |order.items| ==> order.items[i].quantity <= DeliveredQuantity(order, ItemId(o, i))
    then status == Delivered
    else if order.status in {Pending, Confirmed} && exists d :: d in order.deliveries && d.status == DeliveryShipping
    then status == Shipping
    else status == order.status
  }

  lemma RollUpFollows(order: Order, o: nat, ids: set<Id>)
    requires OrderOk(order, o, ids) && order.deliveries != []
    ensures StatusFollows(order, RollUp(order, o), o)
  {
    hide Sum;
    var after := RollUp(order, o);
    assert forall item :: DeliveredQuantity(after, item) == DeliveredQuantity(order, item);
    forall i | 0 <= i < |order.items|
      ensures DeliveredQuantity(order, ItemId(o, i)) <= order.items[i].quantity
    {
      DeliveredWithinAllocated(order, ItemId(o, i));
      assert Allocated(order, ItemId(o, i)) <= order.items[i].quantity;
    }
  }

  // ---------------------------------------------------------------- moving a delivery

  const DELIVERY_MOVES: set<(DeliveryStatus, DeliveryStatus)> :=
    {(DeliveryPending, DeliveryShipping), (DeliveryPending, DeliveryDelivered), (DeliveryPending, DeliveryFailed),
     (DeliveryPending, DeliveryCancelled), (DeliveryShipping, DeliveryDelivered), (DeliveryShipping, DeliveryFailed),
     (DeliveryShipping, DeliveryCancelled)}

  /** Staff reach a delivery through its order, a driver only the ones assigned to them, an administrator any. */
  predicate MayMove(delivery: Delivery, order: nat, mover: Mover)
  {
    match mover
    case ForOrder(o) => o == order
    case ByDriver(actor, isAdmin) => isAdmin || (delivery.driver.Some? && delivery.driver.value == actor)
  }

  /** A delivery moves along its table; the order follows its deliveries, and nothing else changes. */
  lemma DeliveryMoveRules(db: DB, id: DeliveryId, to: DeliveryStatus, mover: Mover)
    requires Invariant(db)
    ensures
      var after, o := MoveDelivery(db, id, to, mover), id.order;
      if && o < |db.orders| && id.index < |db.orders[o].deliveries|
         && MayMove(db.orders[o].deliveries[id.index], o, mover)
         && (db.orders[o].deliveries[id.index].status, to) in DELIVERY_MOVES
      then
        && |after.orders| == |db.orders|
        && after == db.(orders := db.orders[o := after.orders[o]])
        && after.orders[o] == db.orders[o].(status := after.orders[o].status, deliveries := after.orders[o].deliveries)
        && after.orders[o].deliveries
           == db.orders[o].deliveries[id.index := db.orders[o].deliveries[id.index].(status := to)]
        && StatusFollows(db.orders[o], after.orders[o], o)
      else after == db && MoveDeliveryError(db, id, to, mover).Some?
  {
    hide Sum, RolledUp, StatusFollows;
    if MoveDeliveryError(db, id, to, mover).None? {
      var o, order := id.order, db.orders[id.order];
      var moved := WithDeliveryStatus(order, id.index, to);
      assert OrderOk(order, o, db.products.Keys);
      WithDeliveryStatusKeeps(order, o, id.index, to, db.products.Keys);
      RollUpFollows(moved, o, db.products.Keys);
      assert StatusFollows(order, RollUp(moved, o), o) by {
        SameFollows(moved, order, RollUp(moved, o), o);
      }
    }
  }

  lemma SameFollows(a: Order, b: Order, after: Order, o: nat)
    requires a.status == b.status && StatusFollows(a, after, o)
    ensures StatusFollows(b, after, o)
  {
  }

  // ---------------------------------------------------------------- creating a delivery

  /** The units of an item on deliveries that are on their way or have arrived. */
  function Promised(item: ItemId): Delivery -> int
  {
    (d: Delivery) =>
      if d.status == DeliveryPending || d.status == DeliveryShipping || d.status == DeliveryDelivered
      then Sum(d.lines, LineUnits(item)) else 0
  }

  /** Every line names a different item of the order, and no more of it than is not promised yet. */
  predicate LinesFit(order: Order, o: nat, lines: seq<DeliveryLine>)
  {
    && (forall j, k :: 0 <= j < k < |lines| ==> lines[j].item != lines[k].item)
    && (forall k :: 0 <= k < |lines| ==>
          && lines[k].item.order == o && lines[k].item.index < |order.items|
          && Sum(order.deliveries, Promised(lines[k].item)) + lines[k].quantity <= order.items[lines[k].item.index].quantity)
  }

  lemma PromisedIsAllocated(order: Order, item: ItemId)
    ensures Sum(order.deliveries, Promised(item)) == Allocated(order, item)
  {
    SumCongruent(order.deliveries, Promised(item), AllocatedUnits(item));
  }

  lemma {:induction false} NoErrorIffFit(order: Order, o: nat, lines: seq<DeliveryLine>)
    ensures DeliveryLinesError(order, o, lines, |lines|).None? <==> LinesFit(order, o, lines)
  {
    hide Sum, DeliveryLineError;
    forall k | 0 <= k < |lines|
      ensures Sum(order.deliveries, Promised(lines[k].item)) == Allocated(order, lines[k].item)
    {
      PromisedIsAllocated(order, lines[k].item);
    }
    LinesErrorIff(order, o, lines, |lines|);
    LineErrorsAreFit(order, o, lines);
  }

  lemma {:induction false} LinesErrorIff(order: Order, o: nat, lines: seq<DeliveryLine>, n: nat)
    requires n <= |lines|
    ensures DeliveryLinesError(order, o, lines, n).None?
       <==> forall k :: 0 <= k < n ==> DeliveryLineError(order, o, lines, k).None?
  {
    hide DeliveryLineError;
    if n != 0 {
      LinesErrorIff(order, o, lines, n - 1);
    }
  }

  lemma LineErrorsAreFit(order: Order, o: nat, lines: seq<DeliveryLine>)
    requires forall k :: 0 <= k < |lines| ==> Sum(order.deliveries, Promised(lines[k].item)) == Allocated(order, lines[k].item)
    ensures (forall k :: 0 <= k < |lines| ==> DeliveryLineError(order, o, lines, k).None?) <==> LinesFit(order, o, lines)
  {
    hide Sum, Allocated;
    if forall k :: 0 <= k < |lines| ==> DeliveryLineError(order, o, lines, k).None? {
      forall j, k | 0 <= j < k < |lines|
        ensures lines[j].item != lines[k].item
      {
        assert DeliveryLineError(order, o, lines, k).None?;
      }
      forall k | 0 <= k < |lines|
        ensures lines[k].item.order == o && lines[k].item.index < |order.items|
        ensures Sum(order.deliveries, Promised(lines[k].item)) + lines[k].quantity <= order.items[lines[k].item.index].quantity
      {
        assert DeliveryLineError(order, o, lines, k).None?;
      }
    }
  }

  /** A delivery is created, pending and under the next code, exactly when its order is not cancelled and its lines fit. */
  lemma NewDeliveryRules(db: DB, o: nat, lines: seq<DeliveryLine>)
    requires Invariant(db)
    ensures
      var after := CreateDelivery(db, o, lines);
      if o < |db.orders| && db.orders[o].status != Cancelled && LinesFit(db.orders[o], o, lines)
      then
        && |after.orders| == |db.orders|
        && after == db.(orders := db.orders[o := after.orders[o]])
        && after.orders[o] == db.orders[o].(status := after.orders[o].status, deliveries := after.orders[o].deliveries)
        && after.orders[o].deliveries == db.orders[o].deliveries
           + [Delivery(db.orders[o].number + "-D" + Decimal(|db.orders[o].deliveries| + 1), DeliveryPending, None, lines)]
        && StatusFollows(db.orders[o], after.orders[o], o)
      else after == db && CreateDeliveryError(db, o, lines).Some?
  {
    hide Sum, RolledUp, StatusFollows, LinesFit, DeliveryLinesError, Decimal;
    if o < |db.orders| {
      var order := db.orders[o];
      NoErrorIffFit(order, o, lines);
      if CreateDeliveryError(db, o, lines).None? {
        assert OrderOk(order, o, db.products.Keys);
        var more := WithDelivery(order, lines);
        WithDeliveryKeeps(order, o, lines, db.products.Keys);
        RollUpFollows(more, o, db.products.Keys);
        SameFollows(more, order, RollUp(more, o), o);
      }
    }
  }

  /** Each complaint about a new delivery, or about moving one, is true. */
  lemma DeliveryErrorsAreReal(db: DB, o: nat, lines: seq<DeliveryLine>, id: DeliveryId, to: DeliveryStatus, mover: Mover)
    ensures
      match CreateDeliveryError(db, o, lines)
      case None => true
      case Some(error) =>
        match error
        case OrderNotFound => |db.orders| <= o
        case OrderIsCancelled => o < |db.orders| && db.orders[o].status == Cancelled
        case DuplicateItem => exists j, k :: 0 <= j < k < |lines| && lines[j].item == lines[k].item
        case ForeignItem => exists k :: 0 <= k < |lines| && (lines[k].item.order != o || |db.orders[o].items| <= lines[k].item.index)
        case OverAllocation =>
          o < |db.orders| && exists k ::
            && 0 <= k < |lines| && lines[k].item.index < |db.orders[o].items|
            && db.orders[o].items[lines[k].item.index].quantity
               < Sum(db.orders[o].deliveries, Promised(lines[k].item)) + lines[k].quantity
        case _ => false
    ensures
      match MoveDeliveryError(db, id, to, mover)
      case None => true
      case Some(error) =>
        if error == DeliveryNotFound then
          || |db.orders| <= id.order || |db.orders[id.order].deliveries| <= id.index
          || !MayMove(db.orders[id.order].deliveries[id.index], id.order, mover)
        else
          && error == InvalidTransition && id.order < |db.orders| && id.index < |db.orders[id.order].deliveries|
          && (db.orders[id.order].deliveries[id.index].status, to) !in DELIVERY_MOVES
  {
    hide Sum, DeliveryLinesError;
    if o < |db.orders| && db.orders[o].status != Cancelled && CreateDeliveryError(db, o, lines).Some? {
      FirstLineErrorIsReal(db.orders[o], o, lines, |lines|);
    }
  }

  /** The error reported is that of one of the lines. */
  lemma {:induction false} FirstLineErrorIsReal(order: Order, o: nat, lines: seq<DeliveryLine>, n: nat)
    requires n <= |lines| && DeliveryLinesError(order, o, lines, n).Some?
    ensures
      match DeliveryLinesError(order, o, lines, n).value
      case DuplicateItem => exists j, k :: 0 <= j < k < |lines| && lines[j].item == lines[k].item
      case ForeignItem => exists k :: 0 <= k < |lines| && (lines[k].item.order != o || |order.items| <= lines[k].item.index)
      case OverAllocation => exists k ::
        && 0 <= k < |lines| && lines[k].item.index < |order.items|
        && order.items[lines[k].item.index].quantity < Sum(order.deliveries, Promised(lines[k].item)) + lines[k].quantity
      case _ => false
  {
    hide Sum;
    if DeliveryLinesError(order, o, lines, n - 1).Some? {
      FirstLineErrorIsReal(order, o, lines, n - 1);
    } else {
      PromisedIsAllocated(order, lines[n - 1].item);
    }
  }

  /** Only drivers and administrators carry deliveries; assigning one changes nothing but that. */
  lemma DriverRules(db: DB, id: DeliveryId, driver: Option<User>)
    ensures
      var after, o := AssignDriver(db, id, driver), id.order;
      if && o < |db.orders| && id.index < |db.orders[o].deliveries|
         && (driver.Some? ==> driver.value.role in {Driver, Admin})
      then
        && |after.orders| == |db.orders|
        && after == db.(orders := db.orders[o := after.orders[o]])
        && after.orders[o] == db.orders[o].(deliveries := after.orders[o].deliveries)
        && after.orders[o].deliveries == db.orders[o].deliveries[id.index := db.orders[o].deliveries[id.index].(
             driver := if driver.Some? then Some(driver.value.id) else None)]
      else after == db
  {
  }

  // ---------------------------------------------------------------- over runs

  /**
   * In every run from the opening of the shop, whatever request comes next: an order whose
   * deliveries it adds to or moves becomes delivered exactly when it was open and all of
   * its items have now arrived, shipping exactly when it was not yet under way and some
   * delivery is, and else keeps its status.
   */
  lemma StatusFollowsInEveryRun(db: DB, requests: seq<Request>, r: Request, o: nat)
    requires Opening(db) && (r.NewDelivery? || r.DeliveryMove?)
    requires o < |Run(db, requests).orders|
    ensures
      var now := Run(db, requests);
      var before, after := now.orders[o], Step(now, r).orders[o];
      before.deliveries != after.deliveries ==> StatusFollows(before, after, o)
    ensures
      var now := Run(db, requests);
      now.orders[o].deliveries == Step(now, r).orders[o].deliveries ==> now.orders[o] == Step(now, r).orders[o]
  {
    hide Run, Invariant, StatusFollows, CreateDelivery, MoveDelivery, LinesFit;
    var now := Run(db, requests);
    OpeningOk(db);
    RunKeeps(db, requests);
    if r.NewDelivery? {
      NewDeliveryRules(now, r.order, r.lines);
    } else {
      DeliveryMoveRules(now, r.id, r.to, r.mover);
    }
    StepLength(now, r);
  }

  lemma StepLength(db: DB, r: Request)
    ensures |db.orders| <= |Step(db, r).orders|
  {
    StepAdvances(db, r);
  }
}
