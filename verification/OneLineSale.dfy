/** A checkout of a single cart line, spelled out: what the concrete cases elsewhere start from. */
module OneLineSale {
  import opened Sums
  import opened Pricing
  import opened OrderNumbers
  import opened Ledger

  /** The only item of the order. */
  function ItemFor(product: Product, line: CartLine): OrderItem
  {
    OrderItem(line.product, line.quantity, product.UnitPrice(), product.UnitPrice() * line.quantity, line.exchange)
  }

  function LineQuote(product: Product, line: CartLine, discount: int): Quote
  {
    var subtotal, fee := product.UnitPrice() * line.quantity, DeliveryFee(product.category, line.quantity);
    Quote([ItemFor(product, line)], subtotal, fee, discount, OrderTotal(subtotal, fee, discount))
  }

  lemma LineDemand(line: CartLine)
    ensures ProductIds([line]) == {line.product} && Keys([line]) == [line.product]
    ensures forall p :: Demand([line], p) == if p == line.product then line.quantity else 0
    ensures forall p :: AnyExchange([line], p) <==> p == line.product && line.exchange
  {
    assert [line][..0] == [];
    assert Keys([]) == [];
    forall p
      ensures Demand([line], p) == if p == line.product then line.quantity else 0
      ensures AnyExchange([line], p) <==> p == line.product && line.exchange
    {
      SumAppend([], line, Wanted(p));
      assert [] + [line] == [line];
      assert line in [line];
    }
  }

  lemma LineCharge(rows: map<Id, Product>, line: CartLine)
    requires line.product in rows && rows[line.product].active
    ensures CartValue(rows, [line]) == rows[line.product].UnitPrice() * line.quantity
    ensures CartFee(rows, [line]) == DeliveryFee(rows[line.product].category, line.quantity)
    ensures Available(rows, [line]) && ItemsOf(rows, [line]) == [ItemFor(rows[line.product], line)]
  {
    hide Keys, Demand, AnyExchange, Product.UnitPrice;
    LineDemand(line);
    SumAppend([], line, LineValue(rows));
    SumAppend([], line, LineFee(rows));
    assert [] + [line] == [line];
    assert ItemOf(rows, [line], line.product) == ItemFor(rows[line.product], line);
  }

  /** Nothing speaks against the sale. */
  predicate Sells(db: DB, request: CheckoutRequest, line: CartLine)
  {
    && request.items == [line] && FindKey(db.orders, request.key).None?
    && line.product in db.products && db.products[line.product].active
    && line.quantity <= db.products[line.product].stock
    && (request.couponCode.Some? ==>
          CouponVerdict(CouponRow(db.coupons, request.couponCode),
                        db.products[line.product].UnitPrice() * line.quantity, request.now, request.user,
                        UserUses(db.redemptions, request.couponCode, request.user)).None?)
  }

  function DiscountOf(db: DB, request: CheckoutRequest, line: CartLine): int
    requires Sells(db, request, line)
  {
    if request.couponCode.None? then 0
    else ComputeDiscount(CouponRow(db.coupons, request.couponCode).value.rule,
                         db.products[line.product].UnitPrice() * line.quantity)
  }

  function Sold(db: DB, request: CheckoutRequest, line: CartLine): DB
    requires Sells(db, request, line)
  {
    var product := db.products[line.product];
    DB(db.products[line.product := product.(stock := product.stock - line.quantity)],
       db.orders + [NewOrder(request, LineQuote(product, line, DiscountOf(db, request, line)),
                             NextNumber(Numbers(db.orders), request.day))],
       CountUse(db.coupons, request.couponCode),
       Redeem(db.redemptions, request.couponCode, request.user, |db.orders|))
  }

  lemma LineSold(db: DB, request: CheckoutRequest, line: CartLine)
    requires Sells(db, request, line)
    ensures Checkout(db, request) == Sold(db, request, line)
    ensures CheckoutAnswer(db, request) == Some(|db.orders|)
  {
    hide Keys, Demand, AnyExchange, Product.UnitPrice, CartValue, CartFee, ItemsOf, ItemFor, NextNumber, Numbers, FindKey,
         CouponVerdict, ComputeDiscount;
    LineDemand(line);
    LineCharge(db.products, line);
    assert Debit(db.products, [line]) == Sold(db, request, line).products;
  }
}
