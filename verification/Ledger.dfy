/**
 * The order ledger: products, orders with their items and deliveries, coupons and
 * redemptions, and what each request does to them.
 *
 * Tables whose rows are only ever appended are sequences, and the id of a row is its
 * position; an unknown id is a position past the end. A request that raises is rolled
 * back, so it returns the ledger it was given.
 */
module Ledger {
  import opened Sums
  import opened Pricing
  import opened OrderNumbers

  // ---------------------------------------------------------------- rows

  type Quantity = q: int | 1 <= q witness 1
  type Code = string

  datatype Role = Customer | Staff | Driver | Admin

  datatype User = User(id: Id, role: Role)
  {
    predicate IsStaff() { role == Staff || role == Admin }
    predicate IsAdmin() { role == Admin }
    predicate IsDriver() { role == Driver || role == Admin }
  }

  datatype Product = Product(
    name: string, brand: string, sizeKg: int, category: Category,
    price: int, salePrice: Option<int>, stock: int, active: bool)
  {
    function UnitPrice(): int { EffectivePrice(price, salePrice) }
  }

  datatype CartLine = CartLine(product: Id, quantity: Quantity, exchange: bool)

  datatype OrderStatus = Pending | Confirmed | Shipping | Delivered | Cancelled

  datatype OrderItem = OrderItem(product: Id, quantity: Quantity, unitPrice: int, subtotal: int, exchange: bool)

  datatype ItemId = ItemId(order: nat, index: nat)

  datatype DeliveryStatus =
    DeliveryPending | DeliveryShipping | DeliveryDelivered | DeliveryFailed | DeliveryCancelled

  datatype DeliveryLine = DeliveryLine(item: ItemId, quantity: Quantity)

  datatype Delivery = Delivery(code: string, status: DeliveryStatus, driver: Option<Id>, lines: seq<DeliveryLine>)

  datatype DeliveryId = DeliveryId(order: nat, index: nat)

  datatype Order = Order(
    number: string, key: Id, user: Option<Id>, phone: string, status: OrderStatus,
    items: seq<OrderItem>, deliveries: seq<Delivery>,
    subtotal: int, shippingFee: int, discount: int, coupon: Option<Code>, total: int)

  datatype Coupon = Coupon(
    rule: DiscountRule, minOrder: int, usageLimit: Option<int>, usedCount: int,
    perUserLimit: Option<int>, active: bool, startsAt: Option<int>, endsAt: Option<int>)

  datatype Redemption = Redemption(coupon: Code, user: Option<Id>, order: nat)

  datatype DB = DB(
    products: map<Id, Product>, orders: seq<Order>,
    coupons: map<Code, Coupon>, redemptions: seq<Redemption>)

  datatype CouponProblem =
    | CouponNotFound | CouponInactive | CouponNotStarted | CouponExpired | CouponExhausted
    | CouponBelowMinimum | CouponNeedsAccount | CouponUsedUp

  datatype Error =
    | ProductNotFound(product: Id) | ProductInactive(product: Id) | InsufficientStock(product: Id)
    | CouponRejected(problem: CouponProblem)
    | OrderNotFound | Forbidden | InvalidTransition | NotCancellable | OrderIsCancelled
    | DuplicateItem | ForeignItem | OverAllocation | DeliveryNotFound | NotADriver
    | AdminRequired | InvalidPayload | UnknownRow | DuplicateRow | Aborted

  datatype Result<+T> = Ok(value: T) | Err(error: Error)

  // ---------------------------------------------------------------- carts

  function Wanted(p: Id): CartLine -> int
  {
    (line: CartLine) => if line.product == p then line.quantity else 0
  }

  function ProductIds(cart: seq<CartLine>): set<Id>
  {
    set line | line in cart :: line.product
  }

  /** How much of a product all the lines of a cart ask for together. */
  function Demand(cart: seq<CartLine>, p: Id): (n: nat)
    ensures p in ProductIds(cart) <==> 1 <= n
  {
    DemandPositive(cart, p);
    Sum(cart, Wanted(p))
  }

  lemma DemandPositive(cart: seq<CartLine>, p: Id)
    ensures 0 <= Sum(cart, Wanted(p))
    ensures p in ProductIds(cart) <==> 1 <= Sum(cart, Wanted(p))
  {
    SumNonNegative(cart, Wanted(p));
    if p in ProductIds(cart) {
      var i :| 0 <= i < |cart| && cart[i].product == p;
      SumDominates(cart, i, Wanted(p));
    } else {
      SumCongruent(cart, Wanted(p), Nothing());
      SumOfNothing(cart);
    }
  }

  function Nothing<T>(): T -> int
  {
    (x: T) => 0
  }

  lemma {:induction false} SumOfNothing<T>(xs: seq<T>)
    ensures Sum(xs, Nothing<T>()) == 0
  {
    if xs != [] {
      SumOfNothing(xs[..|xs| - 1]);
    }
  }

  predicate AnyExchange(cart: seq<CartLine>, p: Id)
  {
    exists line :: line in cart && line.product == p && line.exchange
  }

  /** The products of a cart in the order in which they first occur. */
  function Keys(cart: seq<CartLine>): (keys: seq<Id>)
    ensures Distinct(keys)
    ensures forall p :: p in keys <==> p in ProductIds(cart)
  {
    if cart == [] then []
    else
      var front := cart[..|cart| - 1];
      var p := cart[|cart| - 1].product;
      assert cart == front + [cart[|cart| - 1]];
      var keys := Keys(front);
      if p in keys then keys else keys + [p]
  }

  // ---------------------------------------------------------------- checkout

  datatype CheckoutRequest = CheckoutRequest(
    items: seq<CartLine>, couponCode: Option<Code>, key: Id,
    user: Option<User>, phone: string, now: int, day: Day)

  /** Everything that create_order computes before it writes. */
  datatype Quote = Quote(items: seq<OrderItem>, subtotal: int, shippingFee: int, discount: int, total: int)

  predicate Available(rows: map<Id, Product>, cart: seq<CartLine>)
  {
    forall p :: p in ProductIds(cart) ==> p in rows && rows[p].active
  }

  predicate InStock(rows: map<Id, Product>, cart: seq<CartLine>)
    requires Available(rows, cart)
  {
    forall p :: p in ProductIds(cart) ==> Demand(cart, p) <= rows[p].stock
  }

  function ItemOf(rows: map<Id, Product>, cart: seq<CartLine>, p: Id): OrderItem
    requires p in ProductIds(cart) && p in rows
  {
    var quantity := Demand(cart, p);
    OrderItem(p, quantity, rows[p].UnitPrice(), rows[p].UnitPrice() * quantity, AnyExchange(cart, p))
  }

  function ItemsOf(rows: map<Id, Product>, cart: seq<CartLine>): seq<OrderItem>
    requires Available(rows, cart)
  {
    var keys := Keys(cart);
    seq(|keys|, i requires 0 <= i < |keys| => assert keys[i] in keys; ItemOf(rows, cart, keys[i]))
  }

  /** The value of one cart line, whichever other lines the cart has. */
  function LineValue(rows: map<Id, Product>): CartLine -> int
  {
    (line: CartLine) => if line.product in rows then rows[line.product].UnitPrice() * line.quantity else 0
  }

  function LineFee(rows: map<Id, Product>): CartLine -> int
  {
    (line: CartLine) =>
      if line.product in rows then DeliveryFee(rows[line.product].category, line.quantity) else 0
  }

  /** The value of the cart and its delivery fee, line by line. */
  function CartValue(rows: map<Id, Product>, cart: seq<CartLine>): int
  {
    Sum(cart, LineValue(rows))
  }

  function CartFee(rows: map<Id, Product>, cart: seq<CartLine>): int
  {
    Sum(cart, LineFee(rows))
  }

  /** What, if anything, speaks against using a coupon; `uses` counts the user's earlier redemptions. */
  function CouponVerdict(coupon: Option<Coupon>, subtotal: int, now: int, user: Option<User>, uses: int): Option<CouponProblem>
  {
    match coupon
    case None => Some(CouponNotFound)
    case Some(c) =>
      if !c.active then Some(CouponInactive)
      else if c.startsAt.Some? && now < c.startsAt.value then Some(CouponNotStarted)
      else if c.endsAt.Some? && c.endsAt.value <= now then Some(CouponExpired)
      else if c.usageLimit.Some? && c.usageLimit.value <= c.usedCount then Some(CouponExhausted)
      else if subtotal < c.minOrder then Some(CouponBelowMinimum)
      else if c.perUserLimit.Some? && user.None? then Some(CouponNeedsAccount)
      else if c.perUserLimit.Some? && c.perUserLimit.value <= uses then Some(CouponUsedUp)
      else None
  }

  /**
   * The outcome of pricing and checking a cart against the rows it read: the product
   * rows, the coupon row, and how often the user redeemed that coupon.
   */
  function Decide(rows: map<Id, Product>, coupon: Option<Coupon>, uses: int, request: CheckoutRequest): Option<Quote>
  {
    var cart := request.items;
    if !Available(rows, cart) || !InStock(rows, cart) then None
    else
      var subtotal := CartValue(rows, cart);
      var fee := CartFee(rows, cart);
      if request.couponCode.None? then
        Some(Quote(ItemsOf(rows, cart), subtotal, fee, 0, OrderTotal(subtotal, fee, 0)))
      else if CouponVerdict(coupon, subtotal, request.now, request.user, uses).Some? then None
      else
        var discount := ComputeDiscount(coupon.value.rule, subtotal);
        Some(Quote(ItemsOf(rows, cart), subtotal, fee, discount, OrderTotal(subtotal, fee, discount)))
  }

  /** An error that a rejected checkout may report. The products are examined in no particular order. */
  predicate Justifies(rows: map<Id, Product>, coupon: Option<Coupon>, uses: int, request: CheckoutRequest, error: Error)
  {
    var cart := request.items;
    match error
    case ProductNotFound(p) => p in ProductIds(cart) && p !in rows
    case ProductInactive(p) => p in ProductIds(cart) && p in rows && !rows[p].active
    case InsufficientStock(p) =>
      && Available(rows, cart)
      && p in ProductIds(cart) && rows[p].stock < Demand(cart, p)
    case CouponRejected(problem) =>
      && Available(rows, cart) && InStock(rows, cart)
      && request.couponCode.Some?
      && CouponVerdict(coupon, CartValue(rows, cart), request.now, request.user, uses) == Some(problem)
    case _ => false
  }

  /** A checkout is refused exactly when there is an error to report. */
  lemma RefusedIffJustified(rows: map<Id, Product>, coupon: Option<Coupon>, uses: int, request: CheckoutRequest)
    ensures Decide(rows, coupon, uses, request).None?
       <==> exists error :: Justifies(rows, coupon, uses, request, error)
  {
    var cart := request.items;
    if !Available(rows, cart) {
      var p :| p in ProductIds(cart) && !(p in rows && rows[p].active);
      assert Justifies(rows, coupon, uses, request, if p in rows then ProductInactive(p) else ProductNotFound(p));
    } else if !InStock(rows, cart) {
      var p :| p in ProductIds(cart) && rows[p].stock < Demand(cart, p);
      assert Justifies(rows, coupon, uses, request, InsufficientStock(p));
    } else if request.couponCode.Some? {
      var verdict := CouponVerdict(coupon, CartValue(rows, cart), request.now, request.user, uses);
      if verdict.Some? {
        assert Justifies(rows, coupon, uses, request, CouponRejected(verdict.value));
      }
    }
  }

  function UsedBy(code: Code, user: Id): Redemption -> int
  {
    (r: Redemption) => if r.coupon == code && r.user == Some(user) then 1 else 0
  }

  function UserUses(redemptions: seq<Redemption>, code: Option<Code>, user: Option<User>): int
  {
    if code.Some? && user.Some? then Sum(redemptions, UsedBy(code.value, user.value.id)) else 0
  }

  function CouponRow(coupons: map<Code, Coupon>, code: Option<Code>): Option<Coupon>
  {
    if code.Some? && code.value in coupons then Some(coupons[code.value]) else None
  }

  /** The order that carries an idempotency key. */
  function FindKey(orders: seq<Order>, key: Id): (r: Option<nat>)
    ensures r.Some? ==> r.value < |orders| && orders[r.value].key == key
    ensures r.None? ==> forall o :: 0 <= o < |orders| ==> orders[o].key != key
  {
    if orders == [] then None
    else
      var front := FindKey(orders[..|orders| - 1], key);
      if front.Some? then front
      else if orders[|orders| - 1].key == key then Some(|orders| - 1) else None
  }

  function Numbers(orders: seq<Order>): seq<string>
  {
    seq(|orders|, o requires 0 <= o < |orders| => orders[o].number)
  }

  function Debit(products: map<Id, Product>, cart: seq<CartLine>): map<Id, Product>
  {
    map p | p in products :: products[p].(stock := products[p].stock - Demand(cart, p))
  }

  function NewOrder(request: CheckoutRequest, quote: Quote, number: string): Order
  {
    Order(number, request.key, UserId(request.user), request.phone, Pending, quote.items, [],
          quote.subtotal, quote.shippingFee, quote.discount, request.couponCode, quote.total)
  }

  function UserId(user: Option<User>): Option<Id>
  {
    if user.Some? then Some(user.value.id) else None
  }

  function CountUse(coupons: map<Code, Coupon>, code: Option<Code>): map<Code, Coupon>
  {
    if code.Some? && code.value in coupons
    then coupons[code.value := coupons[code.value].(usedCount := coupons[code.value].usedCount + 1)]
    else coupons
  }

  function Redeem(redemptions: seq<Redemption>, code: Option<Code>, user: Option<User>, order: nat): seq<Redemption>
  {
    if code.Some? then redemptions + [Redemption(code.value, UserId(user), order)] else redemptions
  }

  function PlaceOrder(db: DB, request: CheckoutRequest, quote: Quote): DB
  {
    DB(Debit(db.products, request.items),
       db.orders + [NewOrder(request, quote, NextNumber(Numbers(db.orders), request.day))],
       CountUse(db.coupons, request.couponCode),
       Redeem(db.redemptions, request.couponCode, request.user, |db.orders|))
  }

  function Verdict(db: DB, request: CheckoutRequest): Option<Quote>
  {
    Decide(db.products, CouponRow(db.coupons, request.couponCode),
           UserUses(db.redemptions, request.couponCode, request.user), request)
  }

  /** create_order as one atomic step. */
  function Checkout(db: DB, request: CheckoutRequest): DB
  {
    if FindKey(db.orders, request.key).Some? then db
    else
      match Verdict(db, request)
      case Some(quote) => PlaceOrder(db, request, quote)
      case None => db
  }

  /** The order id that a checkout returns, if it succeeds. */
  function CheckoutAnswer(db: DB, request: CheckoutRequest): Option<nat>
  {
    var existing := FindKey(db.orders, request.key);
    if existing.Some? then existing
    else if Verdict(db, request).Some? then Some(|db.orders|) else None
  }

  // ---------------------------------------------------------------- order status

  predicate AllowedTransition(from: OrderStatus, to: OrderStatus)
  {
    match from
    case Pending => to == Confirmed || to == Cancelled
    case Confirmed => to == Shipping || to == Cancelled
    case Shipping => to == Delivered || to == Cancelled
    case Delivered => false
    case Cancelled => false
  }

  function UnitsOf(p: Id): OrderItem -> int
  {
    (item: OrderItem) => if item.product == p then item.quantity else 0
  }

  function OrderedUnits(order: Order, p: Id): int
  {
    Sum(order.items, UnitsOf(p))
  }

  function Restock(products: map<Id, Product>, order: Order): map<Id, Product>
  {
    map p | p in products :: products[p].(stock := products[p].stock + OrderedUnits(order, p))
  }

  /** Moving an order to a new status; a cancelled order gives its units back. */
  function SetStatus(db: DB, o: nat, status: OrderStatus): DB
    requires o < |db.orders|
  {
    db.(products := if status == Cancelled then Restock(db.products, db.orders[o]) else db.products,
        orders := db.orders[o := db.orders[o].(status := status)])
  }

  function StaffUpdateError(db: DB, o: nat, status: OrderStatus, actor: User): Option<Error>
  {
    if !actor.IsStaff() then Some(Forbidden)
    else if |db.orders| <= o then Some(OrderNotFound)
    else if !AllowedTransition(db.orders[o].status, status) then Some(InvalidTransition)
    else None
  }

  function StaffUpdate(db: DB, o: nat, status: OrderStatus, actor: User): DB
  {
    if StaffUpdateError(db, o, status, actor).Some? then db else SetStatus(db, o, status)
  }

  predicate CanView(order: Order, user: Option<User>, phone: Option<string>)
  {
    || (user.Some? && (user.value.IsStaff() || order.user == Some(user.value.id)))
    || (phone.Some? && phone.value != "" && order.phone == phone.value)
  }

  function CancelError(db: DB, o: nat, user: Option<User>, phone: Option<string>): Option<Error>
  {
    if |db.orders| <= o then Some(OrderNotFound)
    else if !CanView(db.orders[o], user, phone) then Some(Forbidden)
    else if db.orders[o].status !in {Pending, Confirmed} then Some(NotCancellable)
    else None
  }

  function Cancel(db: DB, o: nat, user: Option<User>, phone: Option<string>): DB
  {
    if CancelError(db, o, user, phone).Some? then db else SetStatus(db, o, Cancelled)
  }

  // ---------------------------------------------------------------- deliveries

  predicate AllowedDelivery(from: DeliveryStatus, to: DeliveryStatus)
  {
    match from
    case DeliveryPending => to != DeliveryPending
    case DeliveryShipping => to == DeliveryDelivered || to == DeliveryFailed || to == DeliveryCancelled
    case DeliveryDelivered => false
    case DeliveryFailed => false
    case DeliveryCancelled => false
  }

  function LineUnits(item: ItemId): DeliveryLine -> int
  {
    (line: DeliveryLine) => if line.item == item then line.quantity else 0
  }

  function Carried(d: Delivery, item: ItemId): int
  {
    Sum(d.lines, LineUnits(item))
  }

  function AllocatedUnits(item: ItemId): Delivery -> int
  {
    (d: Delivery) => if d.status in {DeliveryCancelled, DeliveryFailed} then 0 else Carried(d, item)
  }

  function DeliveredUnits(item: ItemId): Delivery -> int
  {
    (d: Delivery) => if d.status == DeliveryDelivered then Carried(d, item) else 0
  }

  /** The units of an item on deliveries that neither failed nor were cancelled. */
  function Allocated(order: Order, item: ItemId): int
  {
    Sum(order.deliveries, AllocatedUnits(item))
  }

  function DeliveredQuantity(order: Order, item: ItemId): int
  {
    Sum(order.deliveries, DeliveredUnits(item))
  }

  predicate FullyDelivered(order: Order, o: nat)
  {
    && order.items != []
    && forall i :: 0 <= i < |order.items| ==> order.items[i].quantity <= DeliveredQuantity(order, ItemId(o, i))
  }

  predicate AnyShipping(order: Order)
  {
    exists d :: d in order.deliveries && d.status == DeliveryShipping
  }

  /** The order status derived from its deliveries. */
  function RolledUp(order: Order, o: nat): OrderStatus
  {
    if order.deliveries == [] || order.status == Cancelled then order.status
    else if FullyDelivered(order, o) then Delivered
    else if AnyShipping(order) && order.status in {Pending, Confirmed} then Shipping
    else order.status
  }

  function RollUp(order: Order, o: nat): Order
  {
    order.(status := RolledUp(order, o))
  }

  predicate Belongs(order: Order, o: nat, item: ItemId)
  {
    item.order == o && item.index < |order.items|
  }

  /** What is wrong with line k of a new delivery, given the lines before it. */
  function DeliveryLineError(order: Order, o: nat, lines: seq<DeliveryLine>, k: nat): Option<Error>
    requires k < |lines|
  {
    if exists j :: 0 <= j < k && lines[j].item == lines[k].item then Some(DuplicateItem)
    else if !Belongs(order, o, lines[k].item) then Some(ForeignItem)
    else if order.items[lines[k].item.index].quantity - Allocated(order, lines[k].item) < lines[k].quantity
    then Some(OverAllocation)
    else None
  }

  /** The error of the first faulty line among the first n. */
  function DeliveryLinesError(order: Order, o: nat, lines: seq<DeliveryLine>, n: nat): Option<Error>
    requires n <= |lines|
  {
    if n == 0 then None
    else
      var before := DeliveryLinesError(order, o, lines, n - 1);
      if before.Some? then before else DeliveryLineError(order, o, lines, n - 1)
  }

  function DeliveryCode(number: string, k: nat): string
  {
    number + "-D" + Decimal(k)
  }

  function CreateDeliveryError(db: DB, o: nat, lines: seq<DeliveryLine>): Option<Error>
  {
    if |db.orders| <= o then Some(OrderNotFound)
    else if db.orders[o].status == Cancelled then Some(OrderIsCancelled)
    else DeliveryLinesError(db.orders[o], o, lines, |lines|)
  }

  function WithDelivery(order: Order, lines: seq<DeliveryLine>): Order
  {
    var code := DeliveryCode(order.number, |order.deliveries| + 1);
    order.(deliveries := order.deliveries + [Delivery(code, DeliveryPending, None, lines)])
  }

  function CreateDelivery(db: DB, o: nat, lines: seq<DeliveryLine>): DB
  {
    if CreateDeliveryError(db, o, lines).Some? then db
    else db.(orders := db.orders[o := RollUp(WithDelivery(db.orders[o], lines), o)])
  }

  function WithDeliveryStatus(order: Order, d: nat, status: DeliveryStatus): Order
    requires d < |order.deliveries|
  {
    order.(deliveries := order.deliveries[d := order.deliveries[d].(status := status)])
  }

  predicate DeliveryExists(db: DB, id: DeliveryId)
  {
    id.order < |db.orders| && id.index < |db.orders[id.order].deliveries|
  }

  /** Who may move a delivery: staff name the order it belongs to, a driver must be assigned to it. */
  datatype Mover = ForOrder(order: nat) | ByDriver(actor: Id, isAdmin: bool)

  function MoveDeliveryError(db: DB, id: DeliveryId, status: DeliveryStatus, mover: Mover): Option<Error>
  {
    if !DeliveryExists(db, id) then Some(DeliveryNotFound)
    else
      var delivery := db.orders[id.order].deliveries[id.index];
      var visible :=
        match mover
        case ForOrder(o) => id.order == o
        case ByDriver(actor, isAdmin) => isAdmin || delivery.driver == Some(actor);
      if !visible then Some(DeliveryNotFound)
      else if !AllowedDelivery(delivery.status, status) then Some(InvalidTransition)
      else None
  }

  function MoveDelivery(db: DB, id: DeliveryId, status: DeliveryStatus, mover: Mover): DB
  {
    if MoveDeliveryError(db, id, status, mover).Some? then db
    else
      var order := WithDeliveryStatus(db.orders[id.order], id.index, status);
      db.(orders := db.orders[id.order := RollUp(order, id.order)])
  }

  function AssignDriver(db: DB, id: DeliveryId, driver: Option<User>): DB
  {
    if !DeliveryExists(db, id) || (driver.Some? && !driver.value.IsDriver()) then db
    else
      var order := db.orders[id.order];
      var delivery := order.deliveries[id.index].(driver := UserId(driver));
      db.(orders := db.orders[id.order := order.(deliveries := order.deliveries[id.index := delivery])])
  }

  // ---------------------------------------------------------------- catalog and coupon administration

  const ALLOWED_SIZES: set<int> := {600, 1200, 4500}   // 6, 12 and 45 kg, in hundredths

  /** What the product schemas demand of a stored row. */
  predicate ValidProduct(p: Product)
  {
    && 0 < p.price
    && (p.salePrice.Some? ==> 0 < p.salePrice.value < p.price)
    && 0 <= p.stock
    && (p.category == Gas ==> p.sizeKg in ALLOWED_SIZES)
  }

  /** A partial update: None leaves a column alone. */
  datatype ProductPatch = ProductPatch(
    name: Option<string>, brand: Option<string>, sizeKg: Option<int>, category: Option<Category>,
    price: Option<int>, salePrice: Option<Option<int>>, stock: Option<int>, active: Option<bool>)

  function Or<T>(o: Option<T>, otherwise: T): T
  {
    match o
    case Some(value) => value
    case None => otherwise
  }

  function Patched(p: Product, patch: ProductPatch): Product
  {
    Product(Or(patch.name, p.name), Or(patch.brand, p.brand), Or(patch.sizeKg, p.sizeKg),
            Or(patch.category, p.category), Or(patch.price, p.price), Or(patch.salePrice, p.salePrice),
            Or(patch.stock, p.stock), Or(patch.active, p.active))
  }

  /** The checks on the payload alone; an absent category counts as gas. */
  predicate ValidPatch(patch: ProductPatch)
  {
    && (patch.sizeKg.Some? && Or(patch.category, Gas) == Gas ==> patch.sizeKg.value in ALLOWED_SIZES)
    && (patch.price.Some? ==> 0 < patch.price.value)
    && (patch.stock.Some? ==> 0 <= patch.stock.value)
    && (patch.salePrice.Some? && patch.salePrice.value.Some? ==>
          && 0 < patch.salePrice.value.value
          && (patch.price.Some? ==> patch.salePrice.value.value < patch.price.value))
  }

  /** update_product: the payload is checked before the write, the whole row when the response is built after it. */
  function EditProductError(db: DB, p: Id, patch: ProductPatch, actor: User): Option<Error>
  {
    if !ValidPatch(patch) then Some(InvalidPayload)
    else if !actor.IsAdmin() then Some(AdminRequired)
    else if p !in db.products then Some(UnknownRow)
    else if !ValidProduct(Patched(db.products[p], patch)) then Some(InvalidPayload)
    else None
  }

  function EditProduct(db: DB, p: Id, patch: ProductPatch, actor: User): DB
  {
    if EditProductError(db, p, patch, actor).Some? then db
    else db.(products := db.products[p := Patched(db.products[p], patch)])
  }

  function AddProduct(db: DB, p: Id, product: Product, actor: User): DB
  {
    if !actor.IsAdmin() || p in db.products || !ValidProduct(product) then db
    else db.(products := db.products[p := product])
  }

  /** The limits and terms of a coupon that an administrator may change; the code and the use count are not among them. */
  datatype CouponTerms = CouponTerms(
    rule: DiscountRule, minOrder: int, usageLimit: Option<int>, perUserLimit: Option<int>,
    active: bool, startsAt: Option<int>, endsAt: Option<int>)

  predicate ValidTerms(t: CouponTerms)
  {
    && 0 < t.rule.value && 0 <= t.minOrder
    && (t.rule.kind == Percent ==> t.rule.value <= PERCENT_UNIT)
    && (t.rule.maxDiscount.Some? ==> 0 < t.rule.maxDiscount.value)
    && (t.usageLimit.Some? ==> 1 <= t.usageLimit.value)
    && (t.perUserLimit.Some? ==> 1 <= t.perUserLimit.value)
    && (t.startsAt.Some? && t.endsAt.Some? ==> t.startsAt.value < t.endsAt.value)
  }

  function WithTerms(t: CouponTerms, usedCount: int): Coupon
  {
    Coupon(t.rule, t.minOrder, t.usageLimit, usedCount, t.perUserLimit, t.active, t.startsAt, t.endsAt)
  }

  /** A coupon update is checked on the merged terms, which are what `terms` stands for. */
  function EditCoupon(db: DB, code: Code, terms: CouponTerms, actor: User): DB
  {
    if !actor.IsAdmin() || code !in db.coupons || !ValidTerms(terms) then db
    else db.(coupons := db.coupons[code := WithTerms(terms, db.coupons[code].usedCount)])
  }

  function AddCoupon(db: DB, code: Code, terms: CouponTerms, actor: User): DB
  {
    if !actor.IsAdmin() || code in db.coupons || !ValidTerms(terms) then db
    else db.(coupons := db.coupons[code := WithTerms(terms, 0)])
  }

  // ---------------------------------------------------------------- reordering

  datatype SkipReason = NotFound | Inactive | OutOfStock

  datatype Rebuilt = Rebuilt(items: seq<CartLine>, skipped: seq<(Id, SkipReason)>)

  /** What becomes of one line of a past order, given the catalog of today. */
  function RebuiltLine(products: map<Id, Product>, item: OrderItem): Rebuilt
  {
    var p := item.product;
    if p !in products then Rebuilt([], [(p, NotFound)])
    else if !products[p].active then Rebuilt([], [(p, Inactive)])
    else if products[p].stock <= 0 then Rebuilt([], [(p, OutOfStock)])
    else
      var quantity := if item.quantity <= products[p].stock then item.quantity else products[p].stock;
      Rebuilt([CartLine(p, quantity, false)], [])
  }

  function RebuiltLines(products: map<Id, Product>, items: seq<OrderItem>): Rebuilt
  {
    if items == [] then Rebuilt([], [])
    else
      var before := RebuiltLines(products, items[..|items| - 1]);
      var last := RebuiltLine(products, items[|items| - 1]);
      Rebuilt(before.items + last.items, before.skipped + last.skipped)
  }

  function ReorderError(db: DB, o: nat, user: User): Option<Error>
  {
    if |db.orders| <= o then Some(OrderNotFound)
    else if db.orders[o].user != Some(user.id) then Some(Forbidden)
    else None
  }

  // ---------------------------------------------------------------- requests

  datatype Request =
    | Order_(checkout: CheckoutRequest)
    | StaffStatus(order: nat, status: OrderStatus, actor: User)
    | CustomerCancel(order: nat, user: Option<User>, phone: Option<string>)
    | NewDelivery(order: nat, lines: seq<DeliveryLine>)
    | DeliveryMove(id: DeliveryId, to: DeliveryStatus, mover: Mover)
    | DriverAssignment(id: DeliveryId, driver: Option<User>)
    | ProductEdit(product: Id, patch: ProductPatch, actor: User)
    | ProductCreation(product: Id, row: Product, actor: User)
    | CouponEdit(code: Code, terms: CouponTerms, actor: User)
    | CouponCreation(code: Code, terms: CouponTerms, actor: User)
    | RolledBack(request: Request)   // any request cut short by a database failure

  function Step(db: DB, request: Request): DB
  {
    match request
    case Order_(checkout) => Checkout(db, checkout)
    case StaffStatus(o, status, actor) => StaffUpdate(db, o, status, actor)
    case CustomerCancel(o, user, phone) => Cancel(db, o, user, phone)
    case NewDelivery(o, lines) => CreateDelivery(db, o, lines)
    case DeliveryMove(id, to, mover) => MoveDelivery(db, id, to, mover)
    case DriverAssignment(id, driver) => AssignDriver(db, id, driver)
    case ProductEdit(p, patch, actor) => EditProduct(db, p, patch, actor)
    case ProductCreation(p, row, actor) => AddProduct(db, p, row, actor)
    case CouponEdit(code, terms, actor) => EditCoupon(db, code, terms, actor)
    case CouponCreation(code, terms, actor) => AddCoupon(db, code, terms, actor)
    case RolledBack(_) => db
  }

  function Run(db: DB, requests: seq<Request>): DB
  {
    if requests == [] then db
    else Step(Run(db, requests[..|requests| - 1]), requests[|requests| - 1])
  }
}
