/** A coupon that an accepted edit puts beyond its limit. */
module CouponCase {
  import opened Sums
  import opened Pricing
  import opened OrderNumbers
  import opened Ledger
  import opened LedgerInvariants
  import opened LedgerRuns
  import opened OneLineSale

  const BOTTLE := Product("Gas 12", "QC", 1200, Gas, 100, None, 10, true)
  const CODE: Code := "TEN"
  const DAY: Day := "20250101"
  const ADMIN := User(1, Admin)
  const ONE := CartLine(0, 1, false)

  function Terms(limit: int): CouponTerms
  {
    CouponTerms(DiscountRule(Fixed, 10, None), 0, Some(limit), None, true, None, None)
  }

  function Buy(key: Id): CheckoutRequest
  {
    CheckoutRequest([ONE], Some(CODE), key, None, "+84901", 0, DAY)
  }

  function OpeningDay(): DB
  {
    DB(map[0 := BOTTLE], [], map[CODE := WithTerms(Terms(2), 0)], [])
  }

  function FirstSale(): DB { Step(OpeningDay(), Order_(Buy(1))) }
  function SecondSale(): DB { Step(FirstSale(), Order_(Buy(2))) }

  lemma SoldOnce()
    ensures
      var db := FirstSale();
      && db.products == map[0 := BOTTLE.(stock := 9)] && |db.orders| == 1 && db.orders[0].key == 1
      && db.coupons == map[CODE := WithTerms(Terms(2), 1)] && db.redemptions == [Redemption(CODE, None, 0)]
  {
    hide NextNumber, Numbers, ComputeDiscount;
    var db := OpeningDay();
    assert db.products[0].UnitPrice() == 100;
    assert Sells(db, Buy(1), ONE);
    LineSold(db, Buy(1), ONE);
  }

  lemma SoldTwice()
    ensures SecondSale().coupons == map[CODE := WithTerms(Terms(2), 2)]
    ensures SecondSale().redemptions == [Redemption(CODE, None, 0), Redemption(CODE, None, 1)]
  {
    hide NextNumber, Numbers, ComputeDiscount, FirstSale;
    SoldOnce();
    var db := FirstSale();
    assert db.products[0].UnitPrice() == 100;
    assert db.orders[..0] == [];
    assert FindKey(db.orders, 2).None?;
    assert Sells(db, Buy(2), ONE);
    LineSold(db, Buy(2), ONE);
  }

  /**
   * A coupon for two uses is used twice; the administrator then allows one. Only the terms
   * themselves are validated, so the edit is accepted and the coupon is beyond its limit.
   */
  lemma LimitCutBelowUse()
    ensures Opening(OpeningDay())
    ensures
      var sales, cut := [Order_(Buy(1)), Order_(Buy(2))], CouponEdit(CODE, Terms(1), ADMIN);
      && AllWithinLimits(Run(OpeningDay(), sales))
      && EditAccepted(Run(OpeningDay(), sales), CODE, Terms(1), ADMIN)
      && !AllWithinLimits(Run(OpeningDay(), sales + [cut]))
  {
    hide Step, AllWithinLimits;
    var db, a, b := OpeningDay(), Order_(Buy(1)), Order_(Buy(2));
    SoldTwice();
    assert [a, b][..1] == [a] && [a][..0] == [];
    assert Run(db, [a]) == Step(Run(db, []), a);
    assert Run(db, [a, b]) == SecondSale();
    TwoUsesAreAllowed();
    RunSnoc(db, [a, b], CouponEdit(CODE, Terms(1), ADMIN));
    EditKeepsLimitsIff(SecondSale(), CODE, Terms(1), ADMIN);
  }

  lemma TwoUsesAreAllowed()
    ensures AllWithinLimits(SecondSale())
  {
    hide SecondSale;
    SoldTwice();
  }
}
