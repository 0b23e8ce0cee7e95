/** What one turn of a chat order guarantees: who gets through to an order, and at which price. */
module ChatLaws {
  import opened Sums
  import opened Pricing
  import opened OrderNumbers
  import opened Ledger
  import opened LedgerInvariants
  import opened Grouping
  import opened ChatCart
  import opened ChatOrder

  // ---------------------------------------------------------------- the gate

  /** The stored state was about a line that still has to be chosen. */
  predicate ChoiceIsOpen(env: Env, state: Stored)
  {
    && state.status == AwaitingProductChoice
    && ChoicePending(env, state).Some? && Incomplete(env, ChoicePending(env, state).value)
  }

  lemma OnlyOpenChoiceResolves(env: Env, turn: Turn, state: Option<Stored>)
    requires Read(env, turn, state).Continue? && Read(env, turn, state).resolved
    ensures turn.affirms && state.Some? && ChoiceIsOpen(env, state.value)
  {
    hide Recalled, AppendItems, ReplaceFirstMatching, MergeAllExisting, RemoveItem, MergeSlots, DropIncomplete, DetectOperation;
  }

  /** A turn reaches order creation only through an affirmation of a summary or of an open product choice. */
  lemma OrderGate(env: Env, turn: Turn, state: Option<Stored>)
    requires ChatTurn(env, turn, state).Place?
    ensures turn.affirms && !turn.cancels && !turn.vagueTime && state.Some?
    ensures state.value.status == AwaitingConfirmation || ChoiceIsOpen(env, state.value)
  {
    hide ReadChoice, ReadChange, ReadAddOrReplace, ReadPlain, Ready, LinesOf;
    var reading := Read(env, turn, state);
    var slots := Settled(env, turn, state, reading);
    assert slots.confirmed by {
      MergeKeepsFlag(env, AccountSlots(env), slots);
    }
    if reading.resolved {
      OnlyOpenChoiceResolves(env, turn, state);
    }
  }

  lemma MergeKeepsFlag(env: Env, a: Slots, b: Slots)
    ensures MergeSlots(env.normal, a, b).confirmed == (a.confirmed || b.confirmed)
  {
  }

  /** An order that is placed has every slot filled, and each of its lines is a catalog product in stock. */
  lemma PlacedOrderReady(env: Env, turn: Turn, state: Option<Stored>)
    requires ChatTurn(env, turn, state).Place?
    ensures
      var order := ChatTurn(env, turn, state).order;
      && Ready(env, order.slots)
      && env.validPhone(order.slots.phone.value) == Some(order.phone)
      && env.paymentMethod(order.slots.payment.value) == Some(order.payment)
      && order.lines != [] && |order.lines| == |order.slots.items|
      && forall k :: 0 <= k < |order.lines| ==>
           && ProductFor(env, order.slots.items[k]) == Some(order.lines[k].product)
           && order.slots.items[k].quantity == Some(order.lines[k].quantity)
           && order.lines[k].product in env.catalog
           && order.lines[k].quantity <= env.catalog[order.lines[k].product].stock
           && order.lines[k].quantity <= 100
  {
    hide Read, Settled, FirstBare, MergeSlots;
  }

  // ---------------------------------------------------------------- the quoted total is the charged total

  function WaterFee(env: Env): Item -> int
  {
    (item: Item) => WATER_FEE_PER_UNIT * WaterUnits(env)(item)
  }

  /** What a summary adds up line by line is the value of the cart plus its delivery fee. */
  lemma SummaryIsCartTotal(env: Env, items: seq<Item>)
    requires AllMatched(env, items) && forall k :: 0 <= k < |items| ==> Orderable(items[k])
    ensures SummaryTotal(env, items)
         == CartValue(env.catalog, LinesOf(env, items)) + CartFee(env.catalog, LinesOf(env, items))
  {
    hide Sum, Product.UnitPrice;
    var rows, lines := env.catalog, LinesOf(env, items);
    SumPointwise(items, lines, ItemValue(env), LineValue(rows));
    SumScaled(items, WATER_FEE_PER_UNIT, WaterUnits(env), WaterFee(env));
    SumPointwise(items, lines, WaterFee(env), LineFee(rows));
  }

  /** The catalog a quote was made from and the rows a checkout reads agree on the price of every line. */
  predicate SamePrices(quoted: map<Id, Product>, rows: map<Id, Product>, lines: seq<CartLine>)
  {
    forall line :: line in lines ==>
      && line.product in quoted && line.product in rows
      && rows[line.product].UnitPrice() == quoted[line.product].UnitPrice()
      && rows[line.product].category == quoted[line.product].category
  }

  lemma SamePricesSameTotal(quoted: map<Id, Product>, rows: map<Id, Product>, lines: seq<CartLine>)
    requires SamePrices(quoted, rows, lines)
    ensures CartValue(quoted, lines) == CartValue(rows, lines) && CartFee(quoted, lines) == CartFee(rows, lines)
  {
    hide Product.UnitPrice;
    SumCongruent(lines, LineValue(quoted), LineValue(rows));
    SumCongruent(lines, LineFee(quoted), LineFee(rows));
  }

  /** Quote equals charge: the order row that checkout stores for the lines of a chat carries the total the summary quotes. */
  lemma ChargeIsQuote(env: Env, items: seq<Item>, db: DB, request: CheckoutRequest)
    requires AllMatched(env, items) && forall k :: 0 <= k < |items| ==> Orderable(items[k])
    requires CatalogOk(db.products) && request.items == LinesOf(env, items) && request.couponCode.None?
    requires SamePrices(env.catalog, db.products, request.items)
    requires FindKey(db.orders, request.key).None? && CheckoutAnswer(db, request).Some?
    ensures
      var after := Checkout(db, request).orders;
      |after| == |db.orders| + 1 && after[|db.orders|].total == SummaryTotal(env, items)
  {
    hide NextNumber, Numbers, Debit, SummaryTotal, CartValue, CartFee, LinesOf, CatalogOk;
    SummaryIsCartTotal(env, items);
    SamePricesSameTotal(env.catalog, db.products, request.items);
    PricesNonNegative(db.products);
    CartValueNonNegative(db.products, request.items);
  }

  lemma PricesNonNegative(rows: map<Id, Product>)
    requires CatalogOk(rows)
    ensures forall p :: p in rows ==> 0 <= rows[p].UnitPrice()
  {
  }

  // ---------------------------------------------------------------- a cart read back from storage

  /** Matching ignores surrounding blanks, and a text of blanks matches nothing. */
  ghost predicate Trims(env: Env)
  {
    forall t: string :: Named(env)(env.strip(t)) == Named(env)(t) && (env.strip(t) == "" ==> Named(env)(t) == None)
  }

  lemma ItemReadBack(env: Env, item: Item)
    requires Trims(env) && ProductFor(env, item).Some?
    ensures
      var back := CleanItem(env.strip, item);
      !Blank(back) && ProductFor(env, back) == ProductFor(env, item) && back.quantity == CleanCount(item.quantity)
  {
    assert Named(env)(env.strip(item.product.value)) == Named(env)(item.product.value);
  }

  /** A stored cart of known products comes back line by line; a quantity that is not positive is forgotten. */
  lemma {:induction false} CartReadBack(env: Env, items: seq<Item>)
    requires Trims(env) && AllMatched(env, items)
    ensures
      var back := Recalled(env.strip, items);
      && |back| == |items|
      && forall k :: 0 <= k < |items| ==>
           ProductFor(env, back[k]) == ProductFor(env, items[k]) && back[k].quantity == CleanCount(items[k].quantity)
  {
    hide Named, Trims;
    if items != [] {
      var n := |items| - 1;
      assert forall k :: 0 <= k < n ==> items[..n][k] == items[k];
      CartReadBack(env, items[..n]);
      ItemReadBack(env, items[n]);
    }
  }

  /** Two environments offer the same for a cart: the same products at the same prices. */
  predicate SameOffer(a: Env, b: Env, items: seq<Item>)
  {
    forall k :: 0 <= k < |items| ==>
      && ProductFor(a, items[k]) == ProductFor(b, items[k])
      && (ProductFor(a, items[k]).Some? ==>
            var p := ProductFor(a, items[k]).value;
            && a.catalog[p].UnitPrice() == b.catalog[p].UnitPrice()
            && a.catalog[p].category == b.catalog[p].category)
  }

  lemma SameOfferSameTotal(a: Env, b: Env, items: seq<Item>)
    requires SameOffer(a, b, items)
    ensures SummaryTotal(a, items) == SummaryTotal(b, items)
  {
    hide Sum, Product.UnitPrice, ProductOf;
    SumPointwise(items, items, ItemValue(a), ItemValue(b));
    SumPointwise(items, items, WaterUnits(a), WaterUnits(b));
  }

  lemma ReadBackSameTotal(env: Env, items: seq<Item>)
    requires Trims(env) && AllMatched(env, items) && AllCounted(Recalled(env.strip, items))
    ensures SummaryTotal(env, Recalled(env.strip, items)) == SummaryTotal(env, items)
  {
    hide Sum, Product.UnitPrice, ProductOf, Trims;
    CartReadBack(env, items);
    var back := Recalled(env.strip, items);
    SumPointwise(back, items, ItemValue(env), ItemValue(env));
    SumPointwise(back, items, WaterUnits(env), WaterUnits(env));
  }

  // ---------------------------------------------------------------- summary, then confirmation

  /** Only a complete order is summarised, and the quote is the total of its lines. */
  lemma SummaryIsReady(env: Env, turn: Turn, state: Option<Stored>)
    ensures
      var outcome := ChatTurn(env, turn, state);
      && outcome != ChangeRequested
      && (outcome.Ask? ==>
            && (outcome.quoted.Some? <==> outcome.state.status == AwaitingConfirmation)
            && (outcome.quoted.Some? ==>
                  && Ready(env, outcome.state.slots)
                  && outcome.quoted == Some(SummaryTotal(env, outcome.state.slots.items))))
  {
    hide Ready, SummaryTotal, Settled, MergeSlots, NothingOpen, LinesOf, FirstBare;
    if Read(env, turn, state).Answer? {
      AnswersAskNoConfirmation(env, turn, state);
    }
  }

  lemma AnswersAskNoConfirmation(env: Env, turn: Turn, state: Option<Stored>)
    requires Read(env, turn, state).Answer?
    ensures Read(env, turn, state).state.status != AwaitingConfirmation
  {
    hide Recalled, AppendItems, ReplaceFirstMatching, MergeAllExisting, RemoveItem, MergeSlots, DropIncomplete, DetectOperation;
  }

  /** The same products in the same quantities, line by line. */
  predicate SameLines(env: Env, a: seq<Item>, b: seq<Item>)
  {
    |a| == |b| && forall k :: 0 <= k < |a| ==> ProductFor(env, a[k]) == ProductFor(env, b[k]) && a[k].quantity == b[k].quantity
  }

  lemma SameLinesSameTotal(env: Env, a: seq<Item>, b: seq<Item>)
    requires SameLines(env, a, b)
    ensures SummaryTotal(env, a) == SummaryTotal(env, b)
  {
    hide Sum, Product.UnitPrice, ProductFor;
    SumPointwise(a, b, ItemValue(env), ItemValue(env));
    SumPointwise(a, b, WaterUnits(env), WaterUnits(env));
  }

  /** The lines that a turn goes on with, if it does. */
  function LinesGoneOnWith(env: Env, turn: Turn, state: Stored): Option<seq<Item>>
  {
    match Read(env, turn, Some(state))
    case Answer(_) => None
    case Continue(slots, _) => Some(slots.items)
  }

  /** Reading the message leaves the lines of the cart as they were stored. */
  predicate LeavesLines(env: Env, turn: Turn, state: Stored)
  {
    var lines := LinesGoneOnWith(env, turn, state);
    lines.Some? && SameLines(env, lines.value, Recalled(env.strip, state.slots.items))
  }

  /** A confirmation that brings no new lines leaves them. */
  lemma NothingNewLeavesLines(env: Env, turn: Turn, state: Stored)
    requires state.status == AwaitingConfirmation && turn.incoming.items == [] && !turn.cancels && !turn.vagueTime
    ensures LeavesLines(env, turn, state)
  {
    hide Recalled;
  }

  lemma PlacedLinesGoneOnWith(env: Env, turn: Turn, state: Stored)
    requires ChatTurn(env, turn, Some(state)).Place?
    ensures LinesGoneOnWith(env, turn, state) == Some(ChatTurn(env, turn, Some(state)).order.slots.items)
  {
    hide Read, Ready, LinesOf, FirstBare;
  }

  /** The order has the lines of the stored cart, and its value with the fee is what was quoted. */
  predicate AsQuoted(asked: Env, state: Stored, quoted: Option<int>, now: Env, order: ChatCheckout)
  {
    && |order.lines| == |state.slots.items|
    && (forall k :: 0 <= k < |order.lines| ==>
          && Some(order.lines[k].product) == ProductFor(asked, state.slots.items[k])
          && Some(order.lines[k].quantity) == state.slots.items[k].quantity)
    && quoted == Some(CartValue(now.catalog, order.lines) + CartFee(now.catalog, order.lines))
  }

  /**
   * Which orders are as quoted: while the offer is unchanged, exactly those that confirm a
   * summary with a message that leaves its lines.
   */
  lemma PlacedAsQuotedIff(asked: Env, asking: Turn, before: Option<Stored>, now: Env, turn: Turn)
    requires ChatTurn(asked, asking, before).Ask? && Trims(now)
    requires SameOffer(asked, now, ChatTurn(asked, asking, before).state.slots.items)
    requires ChatTurn(now, turn, Some(ChatTurn(asked, asking, before).state)).Place?
    ensures
      var reply := ChatTurn(asked, asking, before);
      var order := ChatTurn(now, turn, Some(reply.state)).order;
      AsQuoted(asked, reply.state, reply.quoted, now, order)
      <==> reply.state.status == AwaitingConfirmation && LeavesLines(now, turn, reply.state)
  {
    hide ChatTurn, SummaryTotal, CartValue, CartFee, LinesOf, Trims, ProductFor, Product.UnitPrice, SameOffer, Ready, Read, Recalled;
    var reply := ChatTurn(asked, asking, before);
    var items, order := reply.state.slots.items, ChatTurn(now, turn, Some(reply.state)).order;
    SummaryIsReady(asked, asking, before);
    PlacedLinesGoneOnWith(now, turn, reply.state);
    PlacedOrderReady(now, turn, Some(reply.state));
    PlacedLines(now, turn, Some(reply.state));
    SummaryIsCartTotal(now, order.slots.items);
    if reply.state.status == AwaitingConfirmation {
      ReadyIsMatched(asked, reply.state.slots);
      OfferNames(asked, now, items);
      CartReadBack(now, items);
      if LeavesLines(now, turn, reply.state) {
        SameLinesSameTotal(now, order.slots.items, Recalled(now.strip, items));
        ReadBackSameTotal(now, items);
        SameOfferSameTotal(asked, now, items);
      }
    }
  }

  lemma ReadyIsMatched(env: Env, slots: Slots)
    requires Ready(env, slots)
    ensures AllMatched(env, slots.items) && AllCounted(slots.items)
  {
  }

  lemma OfferNames(a: Env, b: Env, items: seq<Item>)
    requires SameOffer(a, b, items)
    ensures forall k :: 0 <= k < |items| ==> ProductFor(a, items[k]) == ProductFor(b, items[k])
  {
  }

  lemma PlacedLines(env: Env, turn: Turn, state: Option<Stored>)
    requires ChatTurn(env, turn, state).Place?
    ensures
      var order := ChatTurn(env, turn, state).order;
      && AllMatched(env, order.slots.items)
      && (forall k :: 0 <= k < |order.slots.items| ==> Orderable(order.slots.items[k]))
      && order.lines == LinesOf(env, order.slots.items)
  {
    hide Read, Settled, FirstBare, MergeSlots;
  }

  /** A message that affirms and says nothing else. */
  ghost predicate BareConfirmation(turn: Turn)
  {
    && turn.affirms && !turn.cancels && !turn.vagueTime
    && turn.incoming == NO_SLOTS
    && turn.phone.None? && turn.payment.None? && forall method_ :: turn.nameGiven(method_) == None
  }

  /** The slots that storage gives back unchanged. */
  predicate Stable(env: Env, state: Stored)
  {
    RecalledSlots(env, Some(state)) == state.slots.(confirmed := false)
  }

  /**
   * A bare confirmation of a summary places the order exactly when the lines are still
   * in stock and no quantity exceeds what the checkout accepts.
   */
  lemma ConfirmationPlacesIff(asked: Env, asking: Turn, before: Option<Stored>, now: Env, confirming: Turn)
    requires ChatTurn(asked, asking, before).Ask? && ChatTurn(asked, asking, before).quoted.Some?
    requires BareConfirmation(confirming)
    requires now == asked.(catalog := now.catalog, find := now.find)
    requires SameOffer(asked, now, ChatTurn(asked, asking, before).state.slots.items)
    requires Stable(now, ChatTurn(asked, asking, before).state)
    ensures
      var state := ChatTurn(asked, asking, before).state;
      ChatTurn(now, confirming, Some(state)).Place?
      <==> LinesInStock(now, state.slots.items) && forall k :: 0 <= k < |state.slots.items| ==> Orderable(state.slots.items[k])
  {
    hide ChatTurn, LinesInStock, Stable, SummaryTotal, LinesOf, RecalledSlots;
    var state := ChatTurn(asked, asking, before).state;
    SummaryIsReady(asked, asking, before);
    SummaryHasNoBare(asked, asking, before);
    BareConfirmationConcludes(asked, now, confirming, state);
    assert Ready(now, state.slots) <==> LinesInStock(now, state.slots.items);
  }

  lemma SummaryHasNoBare(env: Env, turn: Turn, state: Option<Stored>)
    requires ChatTurn(env, turn, state).Ask? && ChatTurn(env, turn, state).quoted.Some?
    ensures FirstBare(env, ChatTurn(env, turn, state).state.slots.items).None?
  {
    hide Read, Settled, Ready, SummaryTotal;
  }

  lemma BareConfirmationConcludes(asked: Env, now: Env, turn: Turn, state: Stored)
    requires BareConfirmation(turn) && state.status == AwaitingConfirmation && Stable(now, state)
    requires now == asked.(catalog := now.catalog, find := now.find)
    requires FirstBare(asked, state.slots.items).None? && Ready(asked, state.slots)
    requires SameOffer(asked, now, state.slots.items)
    ensures exists slots :: ChatTurn(now, turn, Some(state)) == Conclude(now, slots) && AsAgreed(state.slots, slots)
  {
    hide Conclude, Product.UnitPrice, PhoneIsGood, Recalled;
    var reading := Read(now, turn, Some(state));
    assert reading == Continue(Merged(now, turn, state.slots.(confirmed := false)), false);
    var settled := Settled(now, turn, Some(state), reading);
    assert AsAgreed(state.slots, settled);
    var slots := MergeSlots(now.normal, AccountSlots(now), settled);
    assert AsAgreed(state.slots, slots);
    assert FirstBare(now, settled.items).None?;
    assert AllMatched(now, settled.items);
    assert ChatTurn(now, turn, Some(state)) == Conclude(now, slots);
  }

  /** Confirmed slots that differ from the summarised ones at most in the delivery notes. */
  predicate AsAgreed(summarised: Slots, slots: Slots)
  {
    slots == summarised.(notes := slots.notes, confirmed := true)
  }

  // ---------------------------------------------------------------- the guarantees of a turn

  /**
   * Only an affirmation places an order, and only of a summary or of an open product
   * choice; the order is complete, with the products, quantities and stock its lines need.
   * A reply quotes a total exactly when it is a summary; a summary is complete, and the
   * quote is the total of its lines. Cancelling forgets everything; a vague time changes nothing.
   */
  predicate Guarded(env: Env, turn: Turn, state: Option<Stored>, outcome: Outcome)
  {
    && (outcome.Place? ==>
          && turn.affirms && !turn.cancels && state.Some?
          && (state.value.status == AwaitingConfirmation || ChoiceIsOpen(env, state.value))
          && Ready(env, outcome.order.slots)
          && AllMatched(env, outcome.order.slots.items)
          && (forall k :: 0 <= k < |outcome.order.slots.items| ==> Orderable(outcome.order.slots.items[k]))
          && outcome.order.lines == LinesOf(env, outcome.order.slots.items))
    && (outcome.Ask? ==>
          && (outcome.quoted.Some? <==> outcome.state.status == AwaitingConfirmation)
          && (outcome.quoted.Some? ==>
                && Ready(env, outcome.state.slots)
                && outcome.quoted == Some(SummaryTotal(env, outcome.state.slots.items))))
    && (state.Some? && turn.cancels ==> outcome.Ask? && outcome.state == Stored(OrderCancelled, NO_SLOTS, None, []))
    && (state.Some? && !turn.cancels && turn.vagueTime ==>
          && outcome.Ask? && outcome.state.status == AwaitingMissingSlots
          && outcome.state.slots == RecalledSlots(env, state))
  }

  lemma TurnLaw(env: Env, turn: Turn, state: Option<Stored>)
    ensures Guarded(env, turn, state, ChatTurn(env, turn, state))
  {
    SummaryIsReady(env, turn, state);
    if ChatTurn(env, turn, state).Place? {
      OrderGate(env, turn, state);
      PlacedOrderReady(env, turn, state);
      PlacedLines(env, turn, state);
    }
    if state.Some? && turn.cancels {
      assert Read(env, turn, state) == Answer(Stored(OrderCancelled, NO_SLOTS, None, []));
    } else if state.Some? && turn.vagueTime {
      assert Read(env, turn, state) == Answer(Stored(AwaitingMissingSlots, RecalledSlots(env, state), None, []));
    }
    hide Read, Ready, LinesOf, SummaryTotal, Finish, ChoiceIsOpen, RecalledSlots;
  }
}
