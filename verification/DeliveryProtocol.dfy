/**
 * create_delivery as it runs in the database: it locks the order row, reads the order
 * with its deliveries, checks the lines, and inserts a row, while other requests move
 * deliveries of the same order, whose rows are not locked.
 */
module DeliveryProtocol {
  import opened Sums
  import opened OrderNumbers
  import opened Ledger
  import opened LedgerInvariants
  import opened LedgerRuns

  type TxnId = nat

  /** A creation under way: the order it locked, and that order as it was read. */
  datatype Creation = Creation(order: nat, lines: seq<DeliveryLine>, read: Order)

  datatype Site = Site(db: DB, creations: map<TxnId, Creation>, locks: map<nat, TxnId>)

  datatype Event =
    | LockOrder(t: TxnId, o: nat, lines: seq<DeliveryLine>)   // SELECT ... FOR UPDATE, then its deliveries
    | Insert(t: TxnId)                                        // the checks pass; insert, roll up, commit
    | GiveUp(t: TxnId)                                        // a check fails, or the database does
    | Meanwhile(request: Request)                             // any other request, as one atomic step

  /** What the checks make of the order as it was read. */
  predicate Passes(c: Creation)
  {
    c.read.status != Cancelled && DeliveryLinesError(c.read, c.order, c.lines, |c.lines|).None?
  }

  predicate Enabled(s: Site, e: Event)
  {
    match e
    case LockOrder(t, o, lines) => t !in s.creations && o < |s.db.orders| && o !in s.locks
    case Insert(t) => t in s.creations && s.creations[t].order < |s.db.orders| && Passes(s.creations[t])
    case GiveUp(t) => t in s.creations
    case Meanwhile(r) => !r.NewDelivery? && WritesNoLockedOrder(s, r)
  }

  /** Order rows under a lock are not written; delivery rows may be. */
  predicate WritesNoLockedOrder(s: Site, r: Request)
  {
    forall o :: o in s.locks && o < |s.db.orders| && o < |Step(s.db, r).orders| ==>
      Step(s.db, r).orders[o].status == s.db.orders[o].status
  }

  function Without<K, V>(m: map<K, V>, k: K): map<K, V>
  {
    map x | x in m && x != k :: m[x]
  }

  /** The order row after the roll-up, which is computed from the order as it was read. */
  function RolledUpFrom(c: Creation, current: Order): OrderStatus
  {
    var rolled := RolledUp(WithDelivery(c.read, c.lines), c.order);
    if rolled != c.read.status then rolled else current.status
  }

  function Inserted(c: Creation, current: Order): Order
  {
    var code := DeliveryCode(c.read.number, |c.read.deliveries| + 1);
    current.(deliveries := current.deliveries + [Delivery(code, DeliveryPending, None, c.lines)],
             status := RolledUpFrom(c, current))
  }

  function Do(s: Site, e: Event): Site
    requires Enabled(s, e)
  {
    match e
    case LockOrder(t, o, lines) =>
      s.(creations := s.creations[t := Creation(o, lines, s.db.orders[o])], locks := s.locks[o := t])
    case Insert(t) =>
      var c := s.creations[t];
      Site(s.db.(orders := s.db.orders[c.order := Inserted(c, s.db.orders[c.order])]),
           Without(s.creations, t), Without(s.locks, c.order))
    case GiveUp(t) => s.(creations := Without(s.creations, t), locks := Without(s.locks, s.creations[t].order))
    case Meanwhile(r) => s.(db := Step(s.db, r))
  }

  // ---------------------------------------------------------------- order statuses agree with the deliveries

  /** Rolling the order up once more would change nothing. */
  predicate Settled(order: Order, o: nat)
  {
    RolledUp(order, o) == order.status
  }

  predicate AllSettled(orders: seq<Order>)
  {
    forall o :: 0 <= o < |orders| ==> Settled(orders[o], o)
  }

  /** What the roll-up looks at, apart from the status itself. */
  predicate SameEvidence(a: Order, b: Order, o: nat)
  {
    && (FullyDelivered(a, o) <==> FullyDelivered(b, o)) && (AnyShipping(a) <==> AnyShipping(b))
  }

  lemma RollUpSettles(order: Order, o: nat)
    ensures Settled(RollUp(order, o), o)
  {
    var after := RollUp(order, o);
    assert forall item :: DeliveredQuantity(after, item) == DeliveredQuantity(order, item);
    assert SameEvidence(order, after, o);
  }

  lemma TransitionSettles(order: Order, o: nat, status: OrderStatus)
    requires Settled(order, o) && AllowedTransition(order.status, status)
    ensures Settled(order.(status := status), o)
  {
    var after := order.(status := status);
    assert forall item :: DeliveredQuantity(after, item) == DeliveredQuantity(order, item);
    assert SameEvidence(order, after, o);
  }

  lemma DriverSettles(order: Order, o: nat, d: nat, driver: Option<Id>)
    requires Settled(order, o) && d < |order.deliveries|
    ensures Settled(order.(deliveries := order.deliveries[d := order.deliveries[d].(driver := driver)]), o)
  {
    var after := order.(deliveries := order.deliveries[d := order.deliveries[d].(driver := driver)]);
    forall item
      ensures DeliveredQuantity(after, item) == DeliveredQuantity(order, item)
    {
      SumUpdate(order.deliveries, d, after.deliveries[d], DeliveredUnits(item));
    }
    assert AnyShipping(after) <==> AnyShipping(order) by {
      if AnyShipping(order) {
        var k :| 0 <= k < |order.deliveries| && order.deliveries[k].status == DeliveryShipping;
        assert after.deliveries[k].status == DeliveryShipping;
      }
    }
    assert SameEvidence(order, after, o);
  }

  /** In a settled order, a new pending delivery gives the roll-up nothing to do. */
  lemma NewDeliverySettles(order: Order, o: nat, lines: seq<DeliveryLine>)
    requires Settled(order, o)
    ensures RolledUp(WithDelivery(order, lines), o) == order.status
    ensures Settled(WithDelivery(order, lines), o)
  {
    hide DeliveryCode;
    var after := WithDelivery(order, lines);
    var added := after.deliveries[|order.deliveries|];
    forall item
      ensures DeliveredQuantity(after, item) == DeliveredQuantity(order, item)
    {
      SumAppend(order.deliveries, added, DeliveredUnits(item));
    }
    assert SameEvidence(order, after, o);
    if order.deliveries == [] {
      assert forall item :: DeliveredQuantity(order, item) == 0;
      assert order.items != [] ==> DeliveredQuantity(order, ItemId(o, 0)) < order.items[0].quantity;
      assert !FullyDelivered(order, o) && !AnyShipping(order);
    }
  }

  lemma SetStatusSettles(db: DB, o: nat, status: OrderStatus)
    requires AllSettled(db.orders) && o < |db.orders| && AllowedTransition(db.orders[o].status, status)
    ensures AllSettled(SetStatus(db, o, status).orders)
  {
    hide Settled;
    TransitionSettles(db.orders[o], o, status);
  }

  /** No request leaves an order whose status contradicts its deliveries. */
  lemma StepSettles(db: DB, r: Request)
    requires AllSettled(db.orders)
    ensures AllSettled(Step(db, r).orders)
  {
    hide Settled, RollUp, SetStatus, DeliveryLinesError, Verdict, FindKey, NextNumber;
    match r
    case Order_(checkout) =>
      if Checkout(db, checkout) != db {
        FreshSettled(NewOrder(checkout, Verdict(db, checkout).value, NextNumber(Numbers(db.orders), checkout.day)), |db.orders|);
      }
    case StaffStatus(o, status, actor) =>
      if StaffUpdateError(db, o, status, actor).None? { SetStatusSettles(db, o, status); }
    case CustomerCancel(o, user, phone) =>
      if CancelError(db, o, user, phone).None? { SetStatusSettles(db, o, Cancelled); }
    case NewDelivery(o, lines) =>
      if CreateDeliveryError(db, o, lines).None? { RollUpSettles(WithDelivery(db.orders[o], lines), o); }
    case DeliveryMove(id, to, mover) =>
      if MoveDeliveryError(db, id, to, mover).None? {
        RollUpSettles(WithDeliveryStatus(db.orders[id.order], id.index, to), id.order);
      }
    case DriverAssignment(id, driver) =>
      if AssignDriver(db, id, driver) != db { DriverSettles(db.orders[id.order], id.order, id.index, UserId(driver)); }
    case _ =>
  }

  lemma FreshSettled(order: Order, o: nat)
    requires order.deliveries == []
    ensures Settled(order, o)
  {
  }

  // ---------------------------------------------------------------- what may happen to deliveries that were read

  predicate Dead(d: Delivery)
  {
    d.status == DeliveryCancelled || d.status == DeliveryFailed
  }

  /** The same deliveries later on: same loads, and none that was given up has come back. */
  predicate Aged(read: seq<Delivery>, now: seq<Delivery>)
  {
    && |now| == |read|
    && forall d :: 0 <= d < |read| ==> now[d].lines == read[d].lines && (Dead(read[d]) ==> Dead(now[d]))
  }

  lemma StepAges(db: DB, r: Request, o: nat)
    requires o < |db.orders| && !r.NewDelivery?
    ensures o < |Step(db, r).orders| && Aged(db.orders[o].deliveries, Step(db, r).orders[o].deliveries)
  {
    hide RolledUp, DeliveryLinesError, Verdict, FindKey, NextNumber, Restock, Debit;
  }

  lemma {:induction false} AllocationShrinks(read: seq<Delivery>, now: seq<Delivery>, item: ItemId)
    requires Aged(read, now)
    ensures Sum(now, AllocatedUnits(item)) <= Sum(read, AllocatedUnits(item))
  {
    if read != [] {
      var n := |read| - 1;
      AllocationShrinks(read[..n], now[..n], item);
      CarriedNonNegative(read[n], item);
    }
  }

  /** Lines accepted for the order as it was read are acceptable for the order as it is. */
  lemma {:induction false} StillAccepted(read: Order, now: Order, o: nat, lines: seq<DeliveryLine>, n: nat)
    requires n <= |lines| && now.items == read.items && Aged(read.deliveries, now.deliveries)
    requires DeliveryLinesError(read, o, lines, n).None?
    ensures DeliveryLinesError(now, o, lines, n).None?
  {
    hide Aged, Sum;
    if n != 0 {
      StillAccepted(read, now, o, lines, n - 1);
      AllocationShrinks(read.deliveries, now.deliveries, lines[n - 1].item);
    }
  }

  // ---------------------------------------------------------------- every interleaving is serial

  /** What a creation knows still holds of its order, and its lock is in place. */
  ghost predicate UpToDate(s: Site, c: Creation)
  {
    && c.order < |s.db.orders|
    && c.order in s.locks
    && Settled(c.read, c.order)
    && SameContract(c.read, s.db.orders[c.order]) && s.db.orders[c.order].status == c.read.status
    && Aged(c.read.deliveries, s.db.orders[c.order].deliveries)
  }

  ghost predicate OwnsLock(s: Site, t: TxnId)
    requires t in s.creations
  {
    s.creations[t].order in s.locks && s.locks[s.creations[t].order] == t
  }

  ghost predicate Consistent(s: Site)
  {
    && Invariant(s.db) && AllSettled(s.db.orders)
    && forall t :: t in s.creations ==> OwnsLock(s, t) && UpToDate(s, s.creations[t])
  }

  /** An insertion decided on the order as it was read is the atomic request on the order as it is. */
  lemma InsertRefines(s: Site, t: TxnId)
    requires Consistent(s) && Enabled(s, Insert(t))
    ensures
      var c := s.creations[t];
      && CreateDeliveryError(s.db, c.order, c.lines).None?
      && Do(s, Insert(t)).db == CreateDelivery(s.db, c.order, c.lines)
  {
    hide Invariant, Settled, RolledUp, DeliveryCode, DeliveryLinesError, Aged;
    var c := s.creations[t];
    assert UpToDate(s, c);
    var current := s.db.orders[c.order];
    assert Settled(current, c.order);
    AgedLength(c.read.deliveries, current.deliveries);
    StillAccepted(c.read, current, c.order, c.lines, |c.lines|);
    NewDeliverySettles(c.read, c.order, c.lines);
    NewDeliverySettles(current, c.order, c.lines);
    assert Inserted(c, current) == RollUp(WithDelivery(current, c.lines), c.order);
  }

  lemma AgedLength(read: seq<Delivery>, now: seq<Delivery>)
    requires Aged(read, now)
    ensures |now| == |read|
  {
  }

  /** Any other request leaves what the creations know valid. */
  lemma MeanwhileKeeps(s: Site, r: Request)
    requires Consistent(s) && Enabled(s, Meanwhile(r))
    ensures Consistent(Do(s, Meanwhile(r)))
  {
    hide Invariant, Step, Settled, AllSettled, Advances;
    var after := Do(s, Meanwhile(r));
    StepKeeps(s.db, r);
    StepSettles(s.db, r);
    StepAdvances(s.db, r);
    forall t | t in s.creations
      ensures OwnsLock(after, t) && UpToDate(after, s.creations[t])
    {
      var c := s.creations[t];
      assert OwnsLock(s, t) && UpToDate(s, c);
      StepAges(s.db, r, c.order);
      ContractKept(s.db.orders[c.order], after.db.orders[c.order]);
    }
  }

  lemma ContractKept(a: Order, b: Order)
    requires Advances(a, b)
    ensures SameContract(a, b)
  {
  }

  lemma InsertKeeps(s: Site, t: TxnId)
    requires Consistent(s) && Enabled(s, Insert(t))
    ensures Consistent(Do(s, Insert(t)))
  {
    hide Invariant, Settled, AllSettled, CreateDelivery, Inserted, Aged, SameContract;
    var after, c := Do(s, Insert(t)), s.creations[t];
    InsertRefines(s, t);
    CreateDeliveryKeeps(s.db, c.order, c.lines);
    StepSettles(s.db, NewDelivery(c.order, c.lines));
    forall u | u in after.creations
      ensures OwnsLock(after, u) && UpToDate(after, after.creations[u])
    {
      assert OwnsLock(s, u) && OwnsLock(s, t) && UpToDate(s, s.creations[u]);
      assert after.db.orders[s.creations[u].order] == s.db.orders[s.creations[u].order];
    }
  }

  lemma EventKeeps(s: Site, e: Event)
    requires Consistent(s) && Enabled(s, e)
    ensures Consistent(Do(s, e))
  {
    hide Invariant, Settled, Aged, WithDelivery, Inserted, Passes, Step;
    match e
    case LockOrder(t, o, lines) =>
      ReadIsUpToDate(s, t, o, lines);
    case Insert(t) => InsertKeeps(s, t);
    case GiveUp(t) =>
      var after := Do(s, e);
      forall u | u in after.creations
        ensures OwnsLock(after, u) && UpToDate(after, after.creations[u])
      {
        assert OwnsLock(s, u) && OwnsLock(s, t) && UpToDate(s, s.creations[u]);
      }
    case Meanwhile(r) => MeanwhileKeeps(s, r);
  }

  lemma ReadIsUpToDate(s: Site, t: TxnId, o: nat, lines: seq<DeliveryLine>)
    requires Consistent(s) && Enabled(s, LockOrder(t, o, lines))
    ensures Consistent(Do(s, LockOrder(t, o, lines)))
  {
    hide Invariant, Settled;
    var after := Do(s, LockOrder(t, o, lines));
    assert Settled(s.db.orders[o], o);
    forall u | u in after.creations
      ensures OwnsLock(after, u) && UpToDate(after, after.creations[u])
    {
      if u != t {
        assert OwnsLock(s, u) && UpToDate(s, s.creations[u]);
      }
    }
  }

  predicate AllEnabled(s: Site, events: seq<Event>)
    decreases |events|, 0
  {
    events == [] ||
    (AllEnabled(s, events[..|events| - 1]) && Enabled(Exec(s, events[..|events| - 1]), events[|events| - 1]))
  }

  function Exec(s: Site, events: seq<Event>): Site
    requires AllEnabled(s, events)
    decreases |events|, 1
  {
    if events == [] then s else Do(Exec(s, events[..|events| - 1]), events[|events| - 1])
  }

  /** The requests of an interleaving, each at the moment it takes effect. */
  function Serial(s: Site, events: seq<Event>): seq<Request>
    requires AllEnabled(s, events)
  {
    if events == [] then []
    else
      var before := events[..|events| - 1];
      var now := Exec(s, before);
      Serial(s, before)
      + match events[|events| - 1]
        case Insert(t) => [NewDelivery(now.creations[t].order, now.creations[t].lines)]
        case Meanwhile(r) => [r]
        case _ => []
  }

  /**
   * However creations of deliveries interleave with each other and with other requests,
   * the tables end up as after some serial run, so the invariant holds: no item is
   * promised beyond what was ordered, and delivery codes never repeat.
   */
  lemma {:induction false} InterleavingIsSerial(s: Site, events: seq<Event>)
    requires Consistent(s) && AllEnabled(s, events)
    ensures Exec(s, events).db == Run(s.db, Serial(s, events))
    ensures Consistent(Exec(s, events))
  {
    hide Consistent, Do, Enabled, Step, CreateDelivery;
    if events != [] {
      var before, e := events[..|events| - 1], events[|events| - 1];
      InterleavingIsSerial(s, before);
      EventKeeps(Exec(s, before), e);
      EventIsSerial(Exec(s, before), e);
      var earlier, requests := Serial(s, before), Serial(s, events);
      if e.Insert? || e.Meanwhile? {
        assert requests[..|requests| - 1] == earlier;
      } else {
        assert requests == earlier;
      }
    }
  }

  lemma EventIsSerial(s: Site, e: Event)
    requires Consistent(s) && Enabled(s, e)
    ensures e.Insert? ==>
              && e.t in s.creations
              && Do(s, e).db == Step(s.db, NewDelivery(s.creations[e.t].order, s.creations[e.t].lines))
    ensures e.Meanwhile? ==> Do(s, e).db == Step(s.db, e.request)
    ensures e.LockOrder? || e.GiveUp? ==> Do(s, e).db == s.db
  {
    hide Consistent, CreateDelivery, Inserted;
    if e.Insert? {
      InsertRefines(s, e.t);
    }
  }

  lemma NothingUnderWay(db: DB)
    requires Opening(db)
    ensures Consistent(Site(db, map[], map[]))
  {
    OpeningOk(db);
  }

  /** From the opening of the shop on, no interleaving allocates an item beyond what was ordered or repeats a delivery code. */
  lemma NoOverAllocation(db: DB, events: seq<Event>, o: nat)
    requires Opening(db) && AllEnabled(Site(db, map[], map[]), events)
    requires o < |Exec(Site(db, map[], map[]), events).db.orders|
    ensures
      var order := Exec(Site(db, map[], map[]), events).db.orders[o];
      && (forall i: nat :: i < |order.items| ==> Allocated(order, ItemId(o, i)) <= order.items[i].quantity)
      && (forall a: nat, b: nat :: a < b < |order.deliveries| ==> order.deliveries[a].code != order.deliveries[b].code)
  {
    hide Exec, AllEnabled, OrderOk;
    NothingUnderWay(db);
    InterleavingIsSerial(Site(db, map[], map[]), events);
    var after := Exec(Site(db, map[], map[]), events).db;
    assert OrderOk(after.orders[o], o, after.products.Keys);
    AllocationAndCodes(after.orders[o], o, after.products.Keys);
  }

  lemma AllocationAndCodes(order: Order, o: nat, ids: set<Id>)
    requires OrderOk(order, o, ids)
    ensures forall i: nat :: i < |order.items| ==> Allocated(order, ItemId(o, i)) <= order.items[i].quantity
    ensures forall a: nat, b: nat :: a < b < |order.deliveries| ==> order.deliveries[a].code != order.deliveries[b].code
  {
    forall a: nat, b: nat | a < b < |order.deliveries|
      ensures order.deliveries[a].code != order.deliveries[b].code
    {
      DeliveryCodesDistinct(order, o, ids, a, b);
    }
  }
}
