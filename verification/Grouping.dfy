/**
 * Checkout groups the lines of a cart by product. Whatever is linear in the quantities
 * comes out the same before and after the grouping.
 */
module Grouping {
  import opened Sums
  import opened Pricing
  import opened Ledger

  /** A quantity-proportional charge, on one line and on the grouped quantity of a product. */
  function OnLine(weight: Id -> int): CartLine -> int
  {
    (line: CartLine) => weight(line.product) * line.quantity
  }

  function OnProduct(weight: Id -> int, cart: seq<CartLine>): Id -> int
  {
    (p: Id) => weight(p) * Demand(cart, p)
  }

  lemma DemandSnoc(cart: seq<CartLine>, line: CartLine, p: Id)
    ensures Demand(cart + [line], p) == Demand(cart, p) + if line.product == p then line.quantity else 0
  {
    SumAppend(cart, line, Wanted(p));
  }

  lemma KeysSnoc(cart: seq<CartLine>, line: CartLine)
    ensures Keys(cart + [line]) == if line.product in Keys(cart) then Keys(cart) else Keys(cart) + [line.product]
  {
    assert (cart + [line])[..|cart|] == cart;
  }

  /** Charging the grouped quantities is charging the lines. */
  lemma {:induction false} Regroup(cart: seq<CartLine>, weight: Id -> int)
    ensures Sum(Keys(cart), OnProduct(weight, cart)) == Sum(cart, OnLine(weight))
  {
    if cart != [] {
      var front, line := cart[..|cart| - 1], cart[|cart| - 1];
      assert cart == front + [line];
      Regroup(front, weight);
      RegroupSnoc(front, line, weight);
      SumAppend(front, line, OnLine(weight));
    }
  }

  lemma RegroupSnoc(front: seq<CartLine>, line: CartLine, weight: Id -> int)
    ensures
      var cart := front + [line];
      Sum(Keys(cart), OnProduct(weight, cart))
      == Sum(Keys(front), OnProduct(weight, front)) + weight(line.product) * line.quantity
  {
    var cart, p, keys := front + [line], line.product, Keys(front);
    var before, after := OnProduct(weight, front), OnProduct(weight, cart);
    KeysSnoc(front, line);
    DemandSnoc(front, line, p);
    forall q | q in keys && q != p
      ensures before(q) == after(q)
    {
      DemandSnoc(front, line, q);
    }
    assert after(p) == before(p) + weight(p) * line.quantity by {
      assert weight(p) * (Demand(front, p) + line.quantity)
          == weight(p) * Demand(front, p) + weight(p) * line.quantity;
    }
    if p in keys {
      SumPoint(keys, p, before, after);
    } else {
      assert p !in ProductIds(front);
      SumCongruent(keys, before, after);
      SumAppend(keys, p, after);
      assert before(p) == 0;
    }
  }

  function PriceOf(rows: map<Id, Product>): Id -> int
  {
    (p: Id) => if p in rows then rows[p].UnitPrice() else 0
  }

  function FeeOf(rows: map<Id, Product>): Id -> int
  {
    (p: Id) => if p in rows then FeePerUnit(rows[p].category) else 0
  }

  function Indicator(p: Id): Id -> int
  {
    (q: Id) => if q == p then 1 else 0
  }

  lemma SameCharge(rows: map<Id, Product>, line: CartLine)
    ensures OnLine(PriceOf(rows))(line) == LineValue(rows)(line)
    ensures OnLine(FeeOf(rows))(line) == LineFee(rows)(line)
  {
    hide Product.UnitPrice;
  }

  /** The subtotal charged for the grouped cart is the value of its lines. */
  lemma GroupedValue(rows: map<Id, Product>, cart: seq<CartLine>)
    ensures Sum(Keys(cart), OnProduct(PriceOf(rows), cart)) == CartValue(rows, cart)
  {
    hide Sum, Demand, Keys, PriceOf, OnLine, OnProduct, LineValue;
    Regroup(cart, PriceOf(rows));
    forall line | line in cart
      ensures OnLine(PriceOf(rows))(line) == LineValue(rows)(line)
    {
      SameCharge(rows, line);
    }
    SumCongruent(cart, OnLine(PriceOf(rows)), LineValue(rows));
  }

  /** The delivery fee charged for the grouped cart is the fee of its lines. */
  lemma GroupedFee(rows: map<Id, Product>, cart: seq<CartLine>)
    ensures Sum(Keys(cart), OnProduct(FeeOf(rows), cart)) == CartFee(rows, cart)
  {
    hide Sum, Demand, Keys, FeeOf, OnLine, OnProduct, LineFee;
    Regroup(cart, FeeOf(rows));
    forall line | line in cart
      ensures OnLine(FeeOf(rows))(line) == LineFee(rows)(line)
    {
      SameCharge(rows, line);
    }
    SumCongruent(cart, OnLine(FeeOf(rows)), LineFee(rows));
  }

  function SubtotalOf(): OrderItem -> int
  {
    (item: OrderItem) => item.subtotal
  }

  /** The stored item subtotals add up to the value of the cart. */
  lemma ItemSubtotals(rows: map<Id, Product>, cart: seq<CartLine>)
    requires Available(rows, cart)
    ensures Sum(ItemsOf(rows, cart), SubtotalOf()) == CartValue(rows, cart)
  {
    var keys, items := Keys(cart), ItemsOf(rows, cart);
    forall i | 0 <= i < |keys|
      ensures OnProduct(PriceOf(rows), cart)(keys[i]) == SubtotalOf()(items[i])
    {
      assert keys[i] in keys;
    }
    SumPointwise(keys, items, OnProduct(PriceOf(rows), cart), SubtotalOf());
    GroupedValue(rows, cart);
  }

  /** The stored items hold exactly the units the cart asked for. */
  lemma ItemUnits(rows: map<Id, Product>, cart: seq<CartLine>, p: Id)
    requires Available(rows, cart)
    ensures Sum(ItemsOf(rows, cart), UnitsOf(p)) == Demand(cart, p)
  {
    var keys, items := Keys(cart), ItemsOf(rows, cart);
    forall i | 0 <= i < |keys|
      ensures OnProduct(Indicator(p), cart)(keys[i]) == UnitsOf(p)(items[i])
    {
      assert keys[i] in keys;
    }
    SumPointwise(keys, items, OnProduct(Indicator(p), cart), UnitsOf(p));
    Regroup(cart, Indicator(p));
    SumCongruent(cart, OnLine(Indicator(p)), Wanted(p));
  }

  lemma {:induction false} CartValueNonNegative(rows: map<Id, Product>, cart: seq<CartLine>)
    requires forall p :: p in rows ==> 0 <= rows[p].UnitPrice()
    ensures 0 <= CartValue(rows, cart) && 0 <= CartFee(rows, cart)
  {
    forall line | line in cart
      ensures 0 <= LineValue(rows)(line) && 0 <= LineFee(rows)(line)
    {
      if line.product in rows {
        Scaled(line.quantity, 0, rows[line.product].UnitPrice());
      }
    }
    SumNonNegative(cart, LineValue(rows));
    SumNonNegative(cart, LineFee(rows));
  }
}
