/** What administrators may write into the catalog and the coupons, and what customers may reorder. */
module CatalogRules {
  import opened Sums
  import opened Pricing
  import opened Ledger

  /** A gas bottle of 6, 12 or 45 kg, or any bottle of water. */
  predicate SizeAllowed(category: Category, sizeKg: int)
  {
    category == Water || sizeKg == 600 || sizeKg == 1200 || sizeKg == 4500
  }

  /** A row that the shop may have: a price, a sale price below it if any, no negative stock, an allowed size. */
  predicate SaneProduct(p: Product)
  {
    && 0 < p.price && 0 <= p.stock && SizeAllowed(p.category, p.sizeKg)
    && (p.salePrice.Some? ==> 0 < p.salePrice.value && p.salePrice.value < p.price)
  }

  /** Each column that the payload names takes its value, every other one stands. */
  predicate ColumnsWritten(before: Product, patch: ProductPatch, after: Product)
  {
    && after.name == (if patch.name.Some? then patch.name.value else before.name)
    && after.brand == (if patch.brand.Some? then patch.brand.value else before.brand)
    && after.sizeKg == (if patch.sizeKg.Some? then patch.sizeKg.value else before.sizeKg)
    && after.category == (if patch.category.Some? then patch.category.value else before.category)
    && after.price == (if patch.price.Some? then patch.price.value else before.price)
    && after.salePrice == (if patch.salePrice.Some? then patch.salePrice.value else before.salePrice)
    && after.stock == (if patch.stock.Some? then patch.stock.value else before.stock)
    && after.active == (if patch.active.Some? then patch.active.value else before.active)
  }

  /**
   * A size that comes without a category is taken for one of gas, before the row is known;
   * everything else the payload says is judged with the row it leads to.
   */
  lemma ProductEditRules(db: DB, p: Id, patch: ProductPatch, actor: User)
    ensures
      var after := EditProduct(db, p, patch, actor);
      && (EditProductError(db, p, patch, actor).Some? ==> after == db)
      && (EditProductError(db, p, patch, actor).None? ==>
            && after == db.(products := after.products) && p in db.products && p in after.products
            && after.products == db.products[p := after.products[p]]
            && ColumnsWritten(db.products[p], patch, after.products[p]))
      && (EditProductError(db, p, patch, actor).None? <==>
            && actor.role == Admin && p in db.products
            && (patch.sizeKg.Some? ==> SizeAllowed(if patch.category.Some? then patch.category.value else Gas, patch.sizeKg.value))
            && exists row :: ColumnsWritten(db.products[p], patch, row) && SaneProduct(row))
  {
    if p in db.products {
      assert ColumnsWritten(db.products[p], patch, Patched(db.products[p], patch));
    }
  }

  lemma ProductErrorsAreReal(db: DB, p: Id, patch: ProductPatch, actor: User)
    ensures
      match EditProductError(db, p, patch, actor)
      case None => true
      case Some(AdminRequired) => actor.role != Admin
      case Some(UnknownRow) => p !in db.products
      case Some(InvalidPayload) =>
        p in db.products ==>
          || (patch.sizeKg.Some? && !SizeAllowed(if patch.category.Some? then patch.category.value else Gas, patch.sizeKg.value))
          || forall row :: ColumnsWritten(db.products[p], patch, row) ==> !SaneProduct(row)
      case Some(_) => false
  {
  }

  lemma ProductCreationRules(db: DB, p: Id, row: Product, actor: User)
    ensures AddProduct(db, p, row, actor)
         == if actor.role == Admin && p !in db.products && SaneProduct(row) then db.(products := db.products[p := row]) else db
  {
  }

  /** Terms that a coupon may have. */
  predicate SaneTerms(t: CouponTerms)
  {
    && 0 < t.rule.value && (t.rule.kind == Percent ==> t.rule.value <= 100 * 100)
    && 0 <= t.minOrder
    && (t.rule.maxDiscount.Some? ==> 0 < t.rule.maxDiscount.value)
    && (t.usageLimit.Some? ==> 0 < t.usageLimit.value) && (t.perUserLimit.Some? ==> 0 < t.perUserLimit.value)
    && !(t.startsAt.Some? && t.endsAt.Some? && t.endsAt.value <= t.startsAt.value)
  }

  /** The coupon has these terms and this use. */
  predicate HasTerms(c: Coupon, t: CouponTerms, used: int)
  {
    && c.rule == t.rule && c.minOrder == t.minOrder && c.usageLimit == t.usageLimit && c.perUserLimit == t.perUserLimit
    && c.active == t.active && c.startsAt == t.startsAt && c.endsAt == t.endsAt && c.usedCount == used
  }

  /** An administrator changes the terms of a coupon that exists, or creates one that does not; its uses are not theirs to set. */
  lemma CouponRules(db: DB, code: Code, terms: CouponTerms, actor: User)
    ensures
      var after := EditCoupon(db, code, terms, actor);
      if actor.role == Admin && code in db.coupons && SaneTerms(terms) then
        && after == db.(coupons := after.coupons) && code in after.coupons
        && after.coupons == db.coupons[code := after.coupons[code]]
        && HasTerms(after.coupons[code], terms, db.coupons[code].usedCount)
      else after == db
    ensures
      var after := AddCoupon(db, code, terms, actor);
      if actor.role == Admin && code !in db.coupons && SaneTerms(terms) then
        && after == db.(coupons := after.coupons) && code in after.coupons
        && after.coupons == db.coupons[code := after.coupons[code]]
        && HasTerms(after.coupons[code], terms, 0)
      else after == db
  {
  }

  /** Only the account that placed an order can reorder it. */
  lemma ReorderRules(db: DB, o: nat, user: User)
    ensures ReorderError(db, o, user).None? <==> o < |db.orders| && db.orders[o].user.Some? && db.orders[o].user.value == user.id
    ensures ReorderError(db, o, user) == Some(OrderNotFound) <==> |db.orders| <= o
  {
  }
}
