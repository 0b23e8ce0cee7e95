/**
 * Checkout as it runs in the database: many transactions at once, each a series of
 * steps that read rows under row locks, and one final step that writes what was
 * computed from the rows read. Every interleaving is a serial run of atomic requests.
 */
module CheckoutProtocol {
  import opened Sums
  import opened Pricing
  import opened OrderNumbers
  import opened Ledger
  import opened LedgerInvariants

  datatype Resource = ProductRow(product: Id) | CouponLock(code: Code) | DayLock(day: Day)

  type TxnId = nat

  datatype CouponRead = CouponRead(row: Coupon, uses: int)

  datatype Phase = Active | Committed(order: nat) | RolledBackTxn

  /** The private state of a transaction: what it asked for and the rows it has read so far. */
  datatype Txn = Txn(
    request: CheckoutRequest, phase: Phase,
    rows: map<Id, Product>, coupon: Option<CouponRead>, number: Option<string>)

  datatype System = System(db: DB, txns: map<TxnId, Txn>, locks: map<Resource, TxnId>)

  datatype Event =
    | Begin(t: TxnId, request: CheckoutRequest)   // look the idempotency key up
    | LockProduct(t: TxnId, product: Id)          // SELECT ... FOR UPDATE of one product row
    | LockCoupon(t: TxnId)                        // the coupon row, and the user's redemptions of it
    | LockDay(t: TxnId)                           // the advisory lock, and the next order number
    | Commit(t: TxnId)
    | Abort(t: TxnId)                             // a business error or a database failure, at any point
    | Other(other: Request)                       // any other request, as one atomic step

  // ---------------------------------------------------------------- what a transaction knows

  function ReadCoupon(txn: Txn): Option<Coupon>
  {
    if txn.coupon.Some? then Some(txn.coupon.value.row) else None
  }

  function ReadUses(txn: Txn): int
  {
    if txn.coupon.Some? then txn.coupon.value.uses else 0
  }

  function LocalQuote(txn: Txn): Option<Quote>
  {
    Decide(txn.rows, ReadCoupon(txn), ReadUses(txn), txn.request)
  }

  predicate AllRowsRead(txn: Txn)
  {
    txn.rows.Keys == ProductIds(txn.request.items)
  }

  predicate CouponSettled(txn: Txn)
  {
    txn.request.couponCode.Some? ==> txn.coupon.Some?
  }

  predicate Running(s: System, t: TxnId)
  {
    t in s.txns && s.txns[t].phase == Active
  }

  // ---------------------------------------------------------------- steps

  predicate Enabled(s: System, e: Event)
  {
    match e
    case Begin(t, request) => t !in s.txns
    case LockProduct(t, p) =>
      && Running(s, t) && p in ProductIds(s.txns[t].request.items)
      && p in s.db.products && ProductRow(p) !in s.locks
    case LockCoupon(t) =>
      && Running(s, t) && AllRowsRead(s.txns[t])
      && s.txns[t].request.couponCode.Some? && s.txns[t].request.couponCode.value in s.db.coupons
      && CouponLock(s.txns[t].request.couponCode.value) !in s.locks
    case LockDay(t) =>
      && Running(s, t) && AllRowsRead(s.txns[t]) && CouponSettled(s.txns[t])
      && LocalQuote(s.txns[t]).Some?
      && DayLock(s.txns[t].request.day) !in s.locks
    case Commit(t) =>
      && Running(s, t) && AllRowsRead(s.txns[t]) && CouponSettled(s.txns[t])
      && LocalQuote(s.txns[t]).Some? && s.txns[t].number.Some?
      && FindKey(s.db.orders, s.txns[t].request.key).None?   // UNIQUE (idempotency_key)
    case Abort(t) => Running(s, t)
    case Other(r) => !r.Order_? && WritesNoLockedRow(s, r)
  }

  /** A row lock keeps other writers away from the row. */
  predicate WritesNoLockedRow(s: System, r: Request)
  {
    var after := Step(s.db, r);
    && (forall p :: p in s.db.products && ProductRow(p) in s.locks ==>
          p in after.products && after.products[p] == s.db.products[p])
    && (forall code :: code in s.db.coupons && CouponLock(code) in s.locks ==>
          code in after.coupons && after.coupons[code] == s.db.coupons[code])
  }

  function Released(locks: map<Resource, TxnId>, t: TxnId): map<Resource, TxnId>
  {
    map r | r in locks && locks[r] != t :: locks[r]
  }

  /** The product rows a commit writes, computed from the rows read earlier. */
  function Written(txn: Txn): map<Id, Product>
  {
    Debit(txn.rows, txn.request.items)
  }

  /** The tables after a commit. Each written value comes from the transaction's own reads. */
  function CommitWrites(db: DB, txn: Txn): DB
    requires LocalQuote(txn).Some? && txn.number.Some? && CouponSettled(txn)
  {
    var code := txn.request.couponCode;
    DB(db.products + Written(txn),
       db.orders + [NewOrder(txn.request, LocalQuote(txn).value, txn.number.value)],
       if code.Some? then db.coupons[code.value := txn.coupon.value.row.(usedCount := txn.coupon.value.row.usedCount + 1)]
       else db.coupons,
       Redeem(db.redemptions, code, txn.request.user, |db.orders|))
  }

  function Do(s: System, e: Event): System
    requires Enabled(s, e)
  {
    match e
    case Begin(t, request) =>
      var existing := FindKey(s.db.orders, request.key);
      s.(txns := s.txns[t := Txn(request, if existing.Some? then Committed(existing.value) else Active, map[], None, None)])
    case LockProduct(t, p) =>
      s.(txns := s.txns[t := s.txns[t].(rows := s.txns[t].rows[p := s.db.products[p]])],
         locks := s.locks[ProductRow(p) := t])
    case LockCoupon(t) =>
      var request := s.txns[t].request;
      var read := CouponRead(s.db.coupons[request.couponCode.value],
                             UserUses(s.db.redemptions, request.couponCode, request.user));
      s.(txns := s.txns[t := s.txns[t].(coupon := Some(read))],
         locks := s.locks[CouponLock(request.couponCode.value) := t])
    case LockDay(t) =>
      var day := s.txns[t].request.day;
      s.(txns := s.txns[t := s.txns[t].(number := Some(NextNumber(Numbers(s.db.orders), day)))],
         locks := s.locks[DayLock(day) := t])
    case Commit(t) =>
      System(CommitWrites(s.db, s.txns[t]),
             s.txns[t := s.txns[t].(phase := Committed(|s.db.orders|))],
             Released(s.locks, t))
    case Abort(t) =>
      s.(txns := s.txns[t := s.txns[t].(phase := RolledBackTxn)], locks := Released(s.locks, t))
    case Other(r) => s.(db := Step(s.db, r))
  }

  // ---------------------------------------------------------------- what the locks protect

  ghost predicate RowsCurrent(s: System, t: TxnId)
    requires t in s.txns
  {
    forall p :: p in s.txns[t].rows ==>
      && ProductRow(p) in s.locks && s.locks[ProductRow(p)] == t
      && p in s.db.products && s.txns[t].rows[p] == s.db.products[p]
      && p in ProductIds(s.txns[t].request.items)
  }

  ghost predicate CouponCurrent(s: System, t: TxnId)
    requires t in s.txns
  {
    var request := s.txns[t].request;
    s.txns[t].coupon.Some? ==>
      && request.couponCode.Some?
      && CouponLock(request.couponCode.value) in s.locks && s.locks[CouponLock(request.couponCode.value)] == t
      && request.couponCode.value in s.db.coupons
      && s.txns[t].coupon.value.row == s.db.coupons[request.couponCode.value]
      && s.txns[t].coupon.value.uses == UserUses(s.db.redemptions, request.couponCode, request.user)
  }

  ghost predicate NumberCurrent(s: System, t: TxnId)
    requires t in s.txns
  {
    var day := s.txns[t].request.day;
    s.txns[t].number.Some? ==>
      && DayLock(day) in s.locks && s.locks[DayLock(day)] == t
      && s.txns[t].number.value == NextNumber(Numbers(s.db.orders), day)
  }

  /** Whatever an active transaction has read is still what the tables hold. */
  ghost predicate Current(s: System, t: TxnId)
    requires t in s.txns
  {
    RowsCurrent(s, t) && CouponCurrent(s, t) && NumberCurrent(s, t)
  }

  /** Only active transactions hold locks: a commit and an abort release all of theirs. */
  ghost predicate LocksHeld(s: System)
  {
    forall r :: r in s.locks ==> Running(s, s.locks[r])
  }

  lemma LocksStayHeld(s: System, e: Event)
    requires Enabled(s, e) && LocksHeld(s)
    ensures LocksHeld(Do(s, e))
  {
    hide LocalQuote, NextNumber, UserUses, Numbers, CommitWrites;
  }

  ghost predicate Consistent(s: System)
  {
    && Invariant(s.db)
    && (forall t :: Running(s, t) ==> Current(s, t))
    && LocksHeld(s)
  }

  // ---------------------------------------------------------------- a commit is an atomic checkout

  /** The outcome of the checks depends only on the rows of the products in the cart. */
  lemma DecideOnRows(a: map<Id, Product>, b: map<Id, Product>, coupon: Option<Coupon>, uses: int, request: CheckoutRequest)
    requires a.Keys == ProductIds(request.items)
    requires forall p :: p in a ==> p in b && b[p] == a[p]
    ensures Decide(a, coupon, uses, request) == Decide(b, coupon, uses, request)
  {
    hide CartValue, CartFee, ItemsOf, Available, InStock, ComputeDiscount, OrderTotal, CouponVerdict;
    var cart := request.items;
    SameChecks(a, b, cart);
    SameValue(a, b, cart);
    if Available(a, cart) {
      SameItems(a, b, cart);
    }
  }

  lemma SameChecks(a: map<Id, Product>, b: map<Id, Product>, cart: seq<CartLine>)
    requires a.Keys == ProductIds(cart)
    requires forall p :: p in a ==> p in b && b[p] == a[p]
    ensures Available(a, cart) == Available(b, cart)
    ensures Available(a, cart) ==> InStock(a, cart) == InStock(b, cart)
    ensures forall p :: p in ProductIds(cart) ==> p in b && b[p] == a[p]
  {
    hide Demand;
  }

  lemma SameValue(a: map<Id, Product>, b: map<Id, Product>, cart: seq<CartLine>)
    requires a.Keys == ProductIds(cart)
    requires forall p :: p in a ==> p in b && b[p] == a[p]
    ensures CartValue(a, cart) == CartValue(b, cart) && CartFee(a, cart) == CartFee(b, cart)
  {
    hide Product.UnitPrice;
    forall line | line in cart
      ensures LineValue(a)(line) == LineValue(b)(line) && LineFee(a)(line) == LineFee(b)(line)
    {
      assert line.product in a;
    }
    SumCongruent(cart, LineValue(a), LineValue(b));
    SumCongruent(cart, LineFee(a), LineFee(b));
  }

  lemma SameItems(a: map<Id, Product>, b: map<Id, Product>, cart: seq<CartLine>)
    requires Available(a, cart) && Available(b, cart)
    requires forall p :: p in ProductIds(cart) ==> b[p] == a[p]
    ensures ItemsOf(a, cart) == ItemsOf(b, cart)
  {
    var keys := Keys(cart);
    forall i | 0 <= i < |keys|
      ensures ItemsOf(a, cart)[i] == ItemsOf(b, cart)[i]
    {
      assert keys[i] in keys;
    }
  }

  lemma WrittenIsDebit(products: map<Id, Product>, txn: Txn)
    requires AllRowsRead(txn)
    requires forall p :: p in txn.rows ==> p in products && products[p] == txn.rows[p]
    ensures products + Written(txn) == Debit(products, txn.request.items)
  {
    var cart := txn.request.items;
    forall p | p in products && p !in txn.rows
      ensures Demand(cart, p) == 0
    {
    }
  }

  /**
   * The step that commits does to the tables exactly what the atomic checkout does at
   * that moment, and returns the same order.
   */
  lemma CommitRefines(s: System, t: TxnId)
    requires Consistent(s) && Enabled(s, Commit(t))
    ensures Do(s, Commit(t)).db == Checkout(s.db, s.txns[t].request)
    ensures CheckoutAnswer(s.db, s.txns[t].request) == Some(|s.db.orders|)
  {
    hide Invariant, Decide, UserUses, NextNumber, Debit;
    var txn := s.txns[t];
    assert Current(s, t);
    DecideOnRows(txn.rows, s.db.products, ReadCoupon(txn), ReadUses(txn), txn.request);
    WrittenIsDebit(s.db.products, txn);
    if txn.request.couponCode.None? {
      DecideWithoutCoupon(s.db.products, ReadCoupon(txn), ReadUses(txn), txn.request);
      DecideWithoutCoupon(s.db.products, CouponRow(s.db.coupons, None), UserUses(s.db.redemptions, None, txn.request.user), txn.request);
    }
    assert Verdict(s.db, txn.request) == LocalQuote(txn);
  }

  lemma DecideWithoutCoupon(rows: map<Id, Product>, coupon: Option<Coupon>, uses: int, request: CheckoutRequest)
    requires request.couponCode.None?
    ensures Decide(rows, coupon, uses, request) == Decide(rows, None, 0, request)
  {
  }

  // ---------------------------------------------------------------- the locks do protect

  /** Taking a lock, beginning and aborting leave the tables alone, and no lock is taken away from its holder. */
  predicate OnlyLocks(e: Event)
  {
    e.LockProduct? || e.LockCoupon? || e.LockDay? || e.Begin? || e.Abort?
  }

  lemma LockKeepsRows(s: System, e: Event, u: TxnId)
    requires Enabled(s, e) && OnlyLocks(e) && Running(Do(s, e), u)
    requires u in s.txns ==> Running(s, u) && RowsCurrent(s, u)
    ensures RowsCurrent(Do(s, e), u)
  {
    hide LocalQuote, NextNumber, UserUses, Numbers;
  }

  lemma LockKeepsCoupon(s: System, e: Event, u: TxnId)
    requires Enabled(s, e) && OnlyLocks(e) && Running(Do(s, e), u)
    requires u in s.txns ==> Running(s, u) && CouponCurrent(s, u)
    ensures CouponCurrent(Do(s, e), u)
  {
    hide LocalQuote, NextNumber, UserUses, Numbers;
  }

  lemma LockKeepsNumber(s: System, e: Event, u: TxnId)
    requires Enabled(s, e) && OnlyLocks(e) && Running(Do(s, e), u)
    requires u in s.txns ==> Running(s, u) && NumberCurrent(s, u)
    ensures NumberCurrent(Do(s, e), u)
  {
    hide LocalQuote, NextNumber, UserUses, Numbers;
  }

  lemma StillRunning(s: System, e: Event, u: TxnId)
    requires Enabled(s, e) && OnlyLocks(e) && Running(Do(s, e), u)
    ensures u in s.txns ==> Running(s, u)
  {
    hide LocalQuote, NextNumber, UserUses, Numbers;
  }

  lemma LockKeeps(s: System, e: Event, u: TxnId)
    requires Consistent(s) && Enabled(s, e) && OnlyLocks(e)
    requires Running(Do(s, e), u)
    ensures Current(Do(s, e), u)
  {
    hide Invariant, Do, Enabled, RowsCurrent, CouponCurrent, NumberCurrent;
    StillRunning(s, e, u);
    LockKeepsRows(s, e, u);
    LockKeepsCoupon(s, e, u);
    LockKeepsNumber(s, e, u);
  }

  /** A new order of one day does not change the next number of another day. */
  lemma OtherDayUndisturbed(numbers: seq<string>, day: Day, number: string, other: Day)
    requires day != other && IssuedOn(day, number)
    ensures NextNumber(numbers + [number], other) == NextNumber(numbers, other)
  {
    hide Parse, Prefix, Padded;
    CountersSnoc(numbers, number, other);
    if IssuedOn(other, number) {
      OneDay(day, other, number);
    }
  }

  /** A redemption of one coupon does not change how often another one was used. */
  lemma OtherCouponUndisturbed(redemptions: seq<Redemption>, code: Code, other: Code, buyer: Option<User>, user: Option<User>, o: nat)
    requires code != other
    ensures UserUses(Redeem(redemptions, Some(code), buyer, o), Some(other), user) == UserUses(redemptions, Some(other), user)
  {
    if user.Some? {
      SumAppend(redemptions, Redemption(code, UserId(buyer), o), UsedBy(other, user.value.id));
    }
  }

  lemma CommitKeepsRows(s: System, t: TxnId, u: TxnId)
    requires Consistent(s) && Enabled(s, Commit(t)) && u != t && Running(s, u)
    ensures RowsCurrent(Do(s, Commit(t)), u)
  {
    hide Invariant, LocalQuote, NextNumber, UserUses, Demand;
    assert Current(s, u) && Current(s, t);
    forall p | p in s.txns[u].rows
      ensures p !in Written(s.txns[t])
    {
    }
  }

  lemma CommitKeepsCoupon(s: System, t: TxnId, u: TxnId)
    requires Consistent(s) && Enabled(s, Commit(t)) && u != t && Running(s, u)
    ensures CouponCurrent(Do(s, Commit(t)), u)
  {
    hide Invariant, LocalQuote, NextNumber, UserUses, Redeem, RowsCurrent;
    assert Current(s, u) && Current(s, t);
    var mine, theirs := s.txns[u].request, s.txns[t].request;
    if s.txns[u].coupon.Some? {
      if theirs.couponCode.Some? {
        assert mine.couponCode.value != theirs.couponCode.value;
        OtherCouponUndisturbed(s.db.redemptions, theirs.couponCode.value, mine.couponCode.value,
                               theirs.user, mine.user, |s.db.orders|);
      } else {
        assert Redeem(s.db.redemptions, None, theirs.user, |s.db.orders|) == s.db.redemptions by {
          NoCouponNoRow(s.db.redemptions, theirs.user, |s.db.orders|);
        }
      }
    }
  }

  lemma NoCouponNoRow(redemptions: seq<Redemption>, user: Option<User>, o: nat)
    ensures Redeem(redemptions, None, user, o) == redemptions
  {
  }

  lemma NextIsIssued(numbers: seq<string>, day: Day)
    ensures IssuedOn(day, NextNumber(numbers, day))
  {
    CounterRoundTrip(day, Max(Counters(numbers, day)) + 1);
  }

  lemma CommitKeepsNumber(s: System, t: TxnId, u: TxnId)
    requires Consistent(s) && Enabled(s, Commit(t)) && u != t && Running(s, u)
    ensures NumberCurrent(Do(s, Commit(t)), u)
  {
    hide Invariant, LocalQuote, NextNumber, UserUses, RowsCurrent, CouponCurrent, Numbers;
    assert Current(s, u) && Current(s, t);
    if s.txns[u].number.Some? {
      var order := NewOrder(s.txns[t].request, LocalQuote(s.txns[t]).value, s.txns[t].number.value);
      NumbersSnoc(s.db.orders, order);
      var day := s.txns[t].request.day;
      NextIsIssued(Numbers(s.db.orders), day);
      OtherDayUndisturbed(Numbers(s.db.orders), day, order.number, s.txns[u].request.day);
    }
  }

  lemma CommitKeeps(s: System, t: TxnId)
    requires Consistent(s) && Enabled(s, Commit(t))
    ensures Consistent(Do(s, Commit(t)))
  {
    hide Invariant, RowsCurrent, CouponCurrent, NumberCurrent, LocalQuote, CommitWrites;
    CommitRefines(s, t);
    LocksStayHeld(s, Commit(t));
    CheckoutKeeps(s.db, s.txns[t].request);
    forall u | Running(Do(s, Commit(t)), u)
      ensures Current(Do(s, Commit(t)), u)
    {
      CommitKeepsRows(s, t, u);
      CommitKeepsCoupon(s, t, u);
      CommitKeepsNumber(s, t, u);
    }
  }

  /** Requests other than checkouts issue no order numbers and redeem no coupons. */
  lemma OtherRequestsAppendNothing(db: DB, r: Request)
    requires !r.Order_?
    ensures Numbers(Step(db, r).orders) == Numbers(db.orders)
    ensures Step(db, r).redemptions == db.redemptions
  {
    hide RolledUp, DeliveryLinesError;
    assert |Step(db, r).orders| == |db.orders|;
    forall o | 0 <= o < |db.orders|
      ensures Step(db, r).orders[o].number == db.orders[o].number
    {
    }
  }

  lemma OtherKeeps(s: System, r: Request)
    requires Consistent(s) && Enabled(s, Other(r))
    ensures Consistent(Do(s, Other(r)))
  {
    hide Invariant, Step, NextNumber, UserUses, Numbers;
    LocksStayHeld(s, Other(r));
    StepKeeps(s.db, r);
    OtherRequestsAppendNothing(s.db, r);
    forall u | Running(Do(s, Other(r)), u)
      ensures Current(Do(s, Other(r)), u)
    {
      assert Running(s, u) && Current(s, u);
    }
  }

  lemma EventKeeps(s: System, e: Event)
    requires Consistent(s) && Enabled(s, e)
    ensures Consistent(Do(s, e))
  {
    hide Invariant, Current, CommitWrites, LocalQuote, WritesNoLockedRow;
    match e
    case Commit(t) => CommitKeeps(s, t);
    case Other(r) => OtherKeeps(s, r);
    case _ =>
      LocksStayHeld(s, e);
      forall u | Running(Do(s, e), u)
        ensures Current(Do(s, e), u)
      {
        LockKeeps(s, e, u);
      }
  }

  // ---------------------------------------------------------------- every interleaving

  ghost predicate Trace(s: System, events: seq<Event>)
    decreases |events|, 0
  {
    events == [] || (Trace(s, events[..|events| - 1]) && Enabled(Exec(s, events[..|events| - 1]), events[|events| - 1]))
  }

  ghost function Exec(s: System, events: seq<Event>): System
    requires events != [] ==> Trace(s, events)
    decreases |events|, 1
  {
    if events == [] then s else Do(Exec(s, events[..|events| - 1]), events[|events| - 1])
  }

  /** The atomic requests an interleaving amounts to: its commits and its other requests, in their order. */
  ghost function Serial(s: System, events: seq<Event>): seq<Request>
    requires Trace(s, events)
  {
    if events == [] then []
    else
      var before, last := events[..|events| - 1], events[|events| - 1];
      var now := Exec(s, before);
      match last
      case Commit(t) => Serial(s, before) + [Order_(now.txns[t].request)]
      case Other(r) => Serial(s, before) + [r]
      case _ => Serial(s, before)
  }

  /** No transaction has started and no lock is held. */
  predicate Quiet(s: System)
  {
    s.txns == map[] && s.locks == map[]
  }

  /**
   * Every interleaving of any number of checkout transactions, aborted ones included,
   * and of any other requests, leaves the tables as the serial run does; and in every
   * state on the way no stock is negative and every other invariant of the ledger holds.
   */
  lemma {:induction false} InterleavingIsSerial(s: System, events: seq<Event>)
    requires Quiet(s) && Invariant(s.db) && Trace(s, events)
    ensures Exec(s, events).db == Run(s.db, Serial(s, events))
    ensures Consistent(Exec(s, events))
  {
    hide Invariant, Current, Enabled, Step, Do;
    if events == [] {
      assert Consistent(s);
    } else {
      var before, last := events[..|events| - 1], events[|events| - 1];
      InterleavingIsSerial(s, before);
      var now := Exec(s, before);
      EventKeeps(now, last);
      EventIsSerialStep(now, last);
      SerialSnoc(s, events);
      if last.Commit? {
        RunSnoc(s.db, Serial(s, before), Order_(now.txns[last.t].request));
      } else if last.Other? {
        RunSnoc(s.db, Serial(s, before), last.other);
      }
    }
  }

  lemma SerialSnoc(s: System, events: seq<Event>)
    requires events != [] && Trace(s, events)
    ensures
      var before, last := events[..|events| - 1], events[|events| - 1];
      && (last.Commit? ==>
            && last.t in Exec(s, before).txns
            && Serial(s, events) == Serial(s, before) + [Order_(Exec(s, before).txns[last.t].request)])
      && (last.Other? ==> Serial(s, events) == Serial(s, before) + [last.other])
      && (!last.Commit? && !last.Other? ==> Serial(s, events) == Serial(s, before))
  {
  }

  /** What one event does to the tables. */
  lemma EventIsSerialStep(s: System, e: Event)
    requires Consistent(s) && Enabled(s, e)
    ensures e.Commit? ==> e.t in s.txns && Do(s, e).db == Step(s.db, Order_(s.txns[e.t].request))
    ensures e.Other? ==> Do(s, e).db == Step(s.db, e.other)
    ensures !e.Commit? && !e.Other? ==> Do(s, e).db == s.db
  {
    hide Invariant, Current, CommitWrites, Checkout;
    if e.Commit? {
      CommitRefines(s, e.t);
    }
  }

  /** A transaction that ends successfully answers what the atomic checkout answers at that moment. */
  lemma AnswersAreSerial(s: System, e: Event)
    requires Consistent(s) && Enabled(s, e) && (e.Begin? || e.Commit?)
    requires Do(s, e).txns[e.t].phase.Committed?
    ensures
      var txn := Do(s, e).txns[e.t];
      && CheckoutAnswer(s.db, txn.request) == Some(txn.phase.order)
      && Do(s, e).db == Checkout(s.db, txn.request)
  {
    hide Invariant, Current;
    if e.Commit? {
      CommitRefines(s, e.t);
    }
  }
}
