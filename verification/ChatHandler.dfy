/**
 * The chat order handler in its own form: the slots are revised step by step, the cart
 * line by line, and every early reply leaves at once. Each part is proved to compute the
 * value that the state machine in ChatOrder gives.
 */
module ChatHandler {
  import opened Sums
  import opened Pricing
  import opened Ledger
  import opened ChatCart
  import opened ChatOrder
  import opened ChatLaws
  import opened ChatAnswers

  // ---------------------------------------------------------------- reading the message

  method FirstIncomplete(env: Env, items: seq<Item>) returns (found: Option<Item>)
    ensures found == FirstWhere(items, (item: Item) => Incomplete(env, item))
  {
    for i := 0 to |items|
      invariant forall k :: 0 <= k < i ==> !Incomplete(env, items[k])
    {
      if Incomplete(env, items[i]) {
        return Some(items[i]);
      }
    }
    found := None;
  }

  method DropIncompleteItems(env: Env, slots: Slots) returns (kept: Slots)
    ensures kept == DropIncomplete(env, slots)
  {
    var items := [];
    var complete := (item: Item) => !Incomplete(env, item);
    for i := 0 to |slots.items|
      invariant items == Filter(slots.items[..i], complete)
    {
      assert slots.items[..i + 1][..i] == slots.items[..i];
      if !Incomplete(env, slots.items[i]) {
        items := items + [slots.items[i]];
      }
    }
    assert slots.items[..|slots.items|] == slots.items;
    kept := slots.(items := items, confirmed := false);
  }

  method HandleChoice(env: Env, turn: Turn, state: Stored) returns (reading: Reading)
    ensures reading == ReadChoice(env, turn, state)
    ensures ChoiceAnswered(env, turn, state, reading)
  {
    hide ChoiceAnswered;
    ChoiceLaw(env, turn, state);
    var base := RecalledSlots(env, Some(state));
    var pending := RecalledPending(env, state);
    if pending.None? {
      pending := FirstIncomplete(env, base.items);
    }
    if pending.None? || !Incomplete(env, pending.value) {
      reading := HandlePlain(env, turn, base);
      return;
    }
    var slots := base;
    var resolved := false;
    if turn.cancelsAdd {
      slots := DropIncompleteItems(env, base);
    } else if turn.affirms {
      slots := DropIncompleteItems(env, base);
      resolved := true;
    } else if turn.picked.Some? {
      slots := DropIncompleteItems(env, base);
      var items := AppendOrderItems(Named(env), slots.items, [Item(turn.picked, pending.value.quantity)]);
      slots := slots.(items := items, confirmed := false);
    } else if turn.sizeChosen {
      return Answer(Stored(AwaitingProductChoice, base, pending, []));
    } else {
      reading := HandlePlain(env, turn, base);
      return;
    }
    slots := MergeSlots(env.normal, slots, ContactOf(turn));
    reading := Continue(slots, resolved);
  }

  method PendingChange(env: Env, previous: seq<Item>, lines: seq<Item>) returns (pending: Option<Item>)
    ensures pending == ChangePending(env, previous, lines)
  {
    for i := 0 to |lines|
      invariant forall k :: 0 <= k < i ==> MatchingIndex(Named(env), previous, lines[k]).Some?
    {
      var index := FindMatchingItemIndex(Named(env), previous, lines[i]);
      if index.None? {
        return Some(lines[i]);
      }
    }
    pending := First(lines);
  }

  method HandleChange(env: Env, turn: Turn, state: Stored) returns (reading: Reading)
    ensures reading == ReadChange(env, turn, state)
    ensures ChangeAnswered(env, turn, state, reading)
  {
    hide ChangeAnswered;
    ChangeLaw(env, turn, state);
    var base := RecalledSlots(env, Some(state));
    var previous := PreviousItems(env, state);
    var slots := base.(items := previous, confirmed := false);
    var pending := RecalledPending(env, state);
    if pending.None? {
      pending := PendingChange(env, previous, base.items);
    }
    var candidates := turn.incoming.items;
    if Truthy(turn.payment) {
      slots := slots.(payment := turn.payment);
    } else if turn.negates && turn.addCue && pending.Some? {
      slots := slots.(items := slots.items + [pending.value]);
    } else if turn.affirms {
      slots := base.(confirmed := false);
    } else if !turn.negates && !turn.keepsPrevious {
      if turn.addCue && (candidates != [] || pending.Some?) {
        var more := if candidates != [] then candidates else [pending.value];
        var items := AppendOrderItems(Named(env), previous, more);
        slots := slots.(items := items);
      } else if candidates != [] && Truthy(candidates[0].product) {
        var items := ReplaceFirstMatchingItem(Named(env), previous, candidates[0]);
        slots := slots.(items := items);
        return Answer(Stored(AwaitingProductChange, slots, Some(candidates[0]), previous));
      } else {
        return Answer(Stored(AwaitingProductChange, base, pending, previous));
      }
    }
    slots := MergeSlots(env.normal, slots, ContactOf(turn));
    reading := Continue(slots, false);
  }

  method HandleAddOrReplace(env: Env, turn: Turn, state: Stored) returns (reading: Reading)
    ensures reading == ReadAddOrReplace(env, turn, state)
    ensures AddOrReplaceAnswered(env, turn, state, reading)
  {
    hide AddOrReplaceAnswered;
    AddOrReplaceLaw(env, turn, state);
    var slots := RecalledSlots(env, Some(state));
    var candidate := First(turn.incoming.items);
    var pending := RecalledPending(env, state);
    if pending.None? {
      pending := candidate;
    }
    if Truthy(turn.payment) {
      slots := slots.(payment := turn.payment);
    } else if pending.Some? && turn.addCue {
      var items := AppendOrderItems(Named(env), slots.items, [pending.value]);
      slots := slots.(items := items);
    } else if pending.Some? && (turn.replaceCue || turn.affirms) {
      var items := ReplaceFirstMatchingItem(Named(env), slots.items, pending.value);
      slots := slots.(items := items);
    } else if !turn.negates {
      var asked := if candidate.Some? && Truthy(candidate.value.product) then candidate else pending;
      return Answer(Stored(AwaitingAddOrReplace, slots, asked, []));
    }
    slots := MergeSlots(env.normal, slots, ContactOf(turn));
    reading := Continue(slots, false);
  }

  /** _detect_order_items_operation */
  method ClassifyOperation(env: Env, turn: Turn, previous: seq<Item>) returns (operation: Operation)
    ensures operation == DetectOperation(env, turn, previous)
    ensures AsksFor(env, turn, previous, operation)
  {
    DetectedIsAsked(env, turn, previous);
    hide AsksFor;
    var items := turn.incoming.items;
    var anyNamed, allMatch := false, true;
    for i := 0 to |items|
      invariant anyNamed <==> exists k :: 0 <= k < i && Truthy(items[k].product)
      invariant allMatch <==> forall k :: 0 <= k < i && Truthy(items[k].product) ==>
                                MatchingIndex(Named(env), previous, items[k]).Some?
    {
      if Truthy(items[i].product) {
        anyNamed := true;
        var index := FindMatchingItemIndex(Named(env), previous, items[i]);
        allMatch := allMatch && index.Some?;
      }
    }
    var named := Filter(items, (item: Item) => Truthy(item.product));
    assert named != [] ==> named[0] in named;
    assert forall k :: 0 <= k < |items| && Truthy(items[k].product) ==> items[k] in named;
    if !anyNamed {
      return SetLines;
    }
    if turn.removeCue {
      return RemoveLine;
    }
    if turn.addCue {
      return AddLines;
    }
    if turn.replaceCue {
      return ReplaceLine;
    }
    if previous == [] {
      return SetLines;
    }
    operation := if allMatch then MergeLines else Unclear;
  }

  method HandlePlain(env: Env, turn: Turn, previous: Slots) returns (reading: Reading)
    ensures reading == ReadPlain(env, turn, previous)
    ensures PlainAnswered(env, turn, previous, reading)
    ensures CuesFollowed(env, turn, previous.items, reading)
  {
    hide PlainAnswered, CuesFollowed;
    PlainLaw(env, turn, previous);
    CuesLaw(env, turn, previous);
    var slots := MergeSlots(env.normal, previous, ContactOf(turn));
    var candidates := turn.incoming.items;
    if candidates == [] {
      return Continue(slots, false);
    }
    var operation := ClassifyOperation(env, turn, previous.items);
    match operation {
    case SetLines =>
      slots := WithItems(slots, candidates);
      if previous.items == [] {
        slots := slots.(confirmed := turn.incoming.confirmed);
      }
    case AddLines =>
      var items := AppendOrderItems(Named(env), slots.items, candidates);
      slots := WithItems(slots, items);
    case ReplaceLine =>
      if slots.items != [] {
        var items := ReplaceFirstMatchingItem(Named(env), slots.items, candidates[0]);
        return Answer(Stored(AwaitingProductChange, WithItems(slots, items), Some(candidates[0]), slots.items));
      }
      slots := WithItems(slots, candidates);
    case RemoveLine =>
      var items := RemoveOrderItem(Named(env), slots.items, candidates[0]);
      if items != slots.items {
        slots := WithItems(slots, items);
      }
    case MergeLines =>
      var items := MergeExistingItems(Named(env), slots.items, candidates);
      slots := WithItems(slots, items);
    case Unclear =>
      return Answer(Stored(AwaitingAddOrReplace, slots, Some(candidates[0]), []));
    }
    reading := Continue(slots, false);
  }

  // ---------------------------------------------------------------- asking, quoting, ordering

  method CheckLineStock(env: Env, items: seq<Item>) returns (enough: bool)
    requires AllMatched(env, items) && AllCounted(items)
    ensures enough <==> LinesInStock(env, items)
  {
    for i := 0 to |items|
      invariant LinesInStock(env, items[..i])
    {
      var product := env.catalog[ProductFor(env, items[i]).value];
      if product.stock < items[i].quantity.value {
        return false;
      }
    }
    assert items[..|items|] == items;
    enough := true;
  }

  /** _format_order_summary, as far as the quoted amount goes. */
  method QuoteTotal(env: Env, items: seq<Item>) returns (total: int)
    requires AllMatched(env, items)
    ensures total == SummaryTotal(env, items)
  {
    var subtotal, water := 0, 0;
    for i := 0 to |items|
      invariant subtotal == Sum(items[..i], ItemValue(env))
      invariant water == Sum(items[..i], WaterUnits(env))
    {
      assert items[..i + 1] == items[..i] + [items[i]];
      SumAppend(items[..i], items[i], ItemValue(env));
      SumAppend(items[..i], items[i], WaterUnits(env));
      var product := env.catalog[ProductFor(env, items[i]).value];
      subtotal := subtotal + product.UnitPrice() * Count(items[i]);
      if product.category == Water {
        water := water + Count(items[i]);
      }
    }
    assert items[..|items|] == items;
    total := subtotal + WATER_FEE_PER_UNIT * water;
  }

  method FindBare(env: Env, items: seq<Item>) returns (bare: Option<Item>)
    ensures bare == FirstBare(env, items)
  {
    for i := 0 to |items|
      invariant forall k :: 0 <= k < i ==> !IsBare(env, items[k])
    {
      if IsBare(env, items[i]) {
        return Some(items[i]);
      }
    }
    bare := None;
  }

  /** What is missing, line by line and slot by slot. */
  method MissingSlots(env: Env, slots: Slots) returns (missing: bool)
    ensures missing <==> !Filled(env, slots)
  {
    missing := slots.items == [];
    for i := 0 to |slots.items|
      invariant !missing <==> slots.items != [] && AllMatched(env, slots.items[..i]) && AllCounted(slots.items[..i])
    {
      if ProductFor(env, slots.items[i]).None? || slots.items[i].quantity.None? {
        missing := true;
      }
      assert slots.items[..i + 1] == slots.items[..i] + [slots.items[i]];
    }
    assert slots.items[..|slots.items|] == slots.items;
    if !Truthy(slots.name) || !Truthy(slots.phone) || !Truthy(slots.address) || !Truthy(slots.payment) {
      missing := true;
    }
  }

  /** The final part of the handler. The asserts are those of the program. */
  method ConcludeOrder(env: Env, slots: Slots) returns (outcome: Outcome)
    ensures outcome == Conclude(env, slots)
  {
    var phone := if Truthy(slots.phone) then env.validPhone(slots.phone.value) else None;
    if Truthy(slots.phone) && phone.None? {
      return Missing(slots);
    }
    var missing := MissingSlots(env, slots);
    if missing {
      return Missing(slots);
    }
    assert slots.name.Some? && slots.phone.Some? && slots.address.Some? && slots.payment.Some?;
    assert phone.Some?;
    assert slots.items != [];
    if !env.deliverable(slots.address.value) || !env.precise(slots.address.value) {
      return Missing(slots);
    }
    var enough := CheckLineStock(env, slots.items);
    if !enough {
      return Missing(slots);
    }
    var payment := env.paymentMethod(slots.payment.value);
    if payment.None? {
      return Missing(slots);
    }
    if !slots.confirmed {
      var total := QuoteTotal(env, slots.items);
      return Ask(Stored(AwaitingConfirmation, slots, None, []), Some(total));
    }
    var lines: seq<CartLine> := [];
    for i := 0 to |slots.items|
      invariant forall k :: 0 <= k < i ==> Orderable(slots.items[k])
      invariant |lines| == i && forall k :: 0 <= k < i ==> lines[k] == LineOf(env, slots.items[k])
    {
      if !Orderable(slots.items[i]) {
        return Rejected;
      }
      lines := lines + [LineOf(env, slots.items[i])];
    }
    assert lines == LinesOf(env, slots.items);
    outcome := Place(ChatCheckout(lines, slots, phone.value, payment.value));
  }

  method FinishOrder(env: Env, state: Option<Stored>, slots: Slots) returns (outcome: Outcome)
    ensures outcome == Finish(env, state, slots)
  {
    var bare := FindBare(env, slots.items);
    if bare.Some? {
      return Ask(Stored(AwaitingProductChoice, slots, bare, []), None);
    }
    var open := slots.items == [];
    for i := 0 to |slots.items|
      invariant !exists k :: 0 <= k < i && Truthy(slots.items[k].product) && ProductFor(env, slots.items[k]).None?
      invariant !open <==> NothingOpen(env, slots.items[..i]) || (i == 0 && slots.items != [])
    {
      var item := slots.items[i];
      if Truthy(item.product) && ProductFor(env, item).None? {
        return Ask(Stored(AwaitingProductChoice, slots, None, []), None);
      }
      if ProductFor(env, item).None? || item.quantity.None? {
        open := true;
      }
      assert slots.items[..i + 1] == slots.items[..i] + [item];
    }
    assert slots.items[..|slots.items|] == slots.items;
    var reused, account := ReusedSlots(env), AccountSlots(env);
    if state.None? && !open && HasContact(reused) && !HasContact(slots) {
      return Ask(Stored(AwaitingReusedContact, MergeSlots(env.normal, slots, reused), None, []), None);
    }
    if state.None? && !open && HasContact(account) && !Truthy(slots.name) && !Truthy(slots.phone) {
      return Ask(Stored(AwaitingAccountContact, MergeSlots(env.normal, account, slots), None, []), None);
    }
    outcome := ConcludeOrder(env, MergeSlots(env.normal, account, slots));
  }

  method HandleChatOrder(env: Env, turn: Turn, state: Option<Stored>) returns (outcome: Outcome)
    ensures outcome == ChatTurn(env, turn, state)
    ensures Guarded(env, turn, state, outcome)
  {
    TurnLaw(env, turn, state);
    hide Guarded, MergeSlots, RecalledSlots, ReadChoice, ReadChange, ReadAddOrReplace, ReadPlain, Finish;
    var base := RecalledSlots(env, state);
    if state.Some? && turn.cancels {
      return Ask(Stored(OrderCancelled, NO_SLOTS, None, []), None);
    }
    if state.Some? && turn.vagueTime {
      return Ask(Stored(AwaitingMissingSlots, base, None, []), None);
    }
    var reading;
    if state.Some? && state.value.status == AwaitingProductChoice {
      reading := HandleChoice(env, turn, state.value);
    } else if state.Some? && state.value.status == AwaitingProductChange {
      reading := HandleChange(env, turn, state.value);
    } else if state.Some? && state.value.status == AwaitingAddOrReplace {
      reading := HandleAddOrReplace(env, turn, state.value);
    } else {
      reading := HandlePlain(env, turn, base);
    }
    if reading.Answer? {
      return Ask(reading.state, None);
    }
    var slots := reading.slots;
    if Truthy(turn.phone) && !PhoneIsGood(env, slots) {
      slots := slots.(phone := turn.phone);
    }
    slots := slots.(payment := OrText(slots.payment, turn.payment));
    slots := slots.(name := OrText(turn.nameGiven(slots.payment), slots.name));
    slots := slots.(notes := OrText(slots.notes, turn.time));
    if state.Some? && (state.value.status == AwaitingReusedContact || state.value.status == AwaitingAccountContact) {
      slots := slots.(confirmed := false);
    } else if state.Some? && state.value.status == AwaitingConfirmation {
      slots := slots.(confirmed := turn.affirms || reading.resolved);
    } else {
      slots := slots.(confirmed := reading.resolved);
    }
    outcome := FinishOrder(env, state, slots);
  }
}
