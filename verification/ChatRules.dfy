/**
 * The rules of a chat order as a customer meets them: whose word counts for each slot, what
 * is asked and when, what an order needs, and which reply the next message answers.
 */
module ChatRules {
  import opened Sums
  import opened Ledger
  import opened ChatCart
  import opened ChatOrder
  import opened ChatLaws
  import opened ChatRuns

  // ---------------------------------------------------------------- whose word counts

  predicate Given(s: Option<string>)
  {
    s.Some? && s.value != ""
  }

  /** The first of two texts that says anything. */
  function FirstText(a: Option<string>, b: Option<string>): Option<string>
  {
    if Given(a) then a else if Given(b) then b else None
  }

  /** A word about payment answers the questions about the cart. */
  predicate PaymentAnswers(turn: Turn, state: Option<Stored>)
  {
    state.Some? && state.value.status in {AwaitingProductChange, AwaitingAddOrReplace} && Given(turn.payment)
  }

  /** The payment method before the message is searched for one. */
  function PaymentSoFar(env: Env, turn: Turn, state: Option<Stored>): Option<string>
  {
    FirstText(turn.incoming.payment, if PaymentAnswers(turn, state) then turn.payment else RecalledSlots(env, state).payment)
  }

  /** The contact data of the message, where it gives any, and what the cart's slots had otherwise. */
  predicate MessageFirst(turn: Turn, base: Slots, payment: Option<string>, slots: Slots)
  {
    && slots.name == FirstText(turn.incoming.name, base.name)
    && slots.phone == FirstText(turn.incoming.phone, base.phone)
    && slots.address == FirstText(turn.incoming.address, base.address)
    && slots.notes == FirstText(turn.incoming.notes, base.notes)
    && slots.payment == FirstText(turn.incoming.payment, payment)
  }

  lemma MergingIsMessageFirst(env: Env, turn: Turn, base: Slots)
    ensures MessageFirst(turn, base, base.payment, Merged(env, turn, base))
  {
    hide MergeItems;
  }

  /** The same contact data, whatever the cart. */
  predicate SameContact(base: Slots, payment: Option<string>, x: Slots)
  {
    x == base.(items := x.items, confirmed := x.confirmed, payment := payment)
  }

  /** The slots are those of the message merged into a cart with the contact data of `base`. */
  ghost predicate ComesFrom(env: Env, turn: Turn, base: Slots, payment: Option<string>, slots: Slots)
  {
    exists x :: SameContact(base, payment, x) && SameContact(Merged(env, turn, x), Merged(env, turn, x).payment, slots)
  }

  lemma ComesFromIsMessageFirst(env: Env, turn: Turn, base: Slots, payment: Option<string>, slots: Slots)
    requires ComesFrom(env, turn, base, payment, slots)
    ensures MessageFirst(turn, base, payment, slots)
  {
    hide Merged;
    var x :| SameContact(base, payment, x) && SameContact(Merged(env, turn, x), Merged(env, turn, x).payment, slots);
    MergingIsMessageFirst(env, turn, x);
  }

  lemma PlainComesFrom(env: Env, turn: Turn, base: Slots)
    requires ReadPlain(env, turn, base).Continue?
    ensures ComesFrom(env, turn, base, base.payment, ReadPlain(env, turn, base).slots)
  {
    hide Merged, AppendItems, ReplaceFirstMatching, MergeAllExisting, RemoveItem, DetectOperation;
    assert SameContact(base, base.payment, base);
  }

  lemma ChoiceComesFrom(env: Env, turn: Turn, state: Stored)
    requires ReadChoice(env, turn, state).Continue?
    ensures
      var base := RecalledSlots(env, Some(state));
      ComesFrom(env, turn, base, base.payment, ReadChoice(env, turn, state).slots)
  {
    hide Merged, AppendItems, RecalledSlots, ReadPlain, Filter, ChoicePending, ComesFrom;
    var base := RecalledSlots(env, Some(state));
    if ReadPlain(env, turn, base).Continue? {
      PlainComesFrom(env, turn, base);
    }
    var kept := DropIncomplete(env, base);
    MergedComesFrom(env, turn, base, base.payment, kept);
    if ChoicePending(env, state).Some? {
      var chosen := Item(turn.picked, ChoicePending(env, state).value.quantity);
      MergedComesFrom(env, turn, base, base.payment, WithItems(kept, AppendItems(Named(env), kept.items, [chosen])));
    }
  }

  lemma MergedComesFrom(env: Env, turn: Turn, base: Slots, payment: Option<string>, x: Slots)
    requires SameContact(base, payment, x)
    ensures ComesFrom(env, turn, base, payment, Merged(env, turn, x))
  {
    hide Merged;
    assert SameContact(Merged(env, turn, x), Merged(env, turn, x).payment, Merged(env, turn, x));
  }

  lemma ChangeComesFrom(env: Env, turn: Turn, state: Stored)
    requires ReadChange(env, turn, state).Continue?
    ensures
      var base := RecalledSlots(env, Some(state));
      ComesFrom(env, turn, base, if Given(turn.payment) then turn.payment else base.payment, ReadChange(env, turn, state).slots)
  {
    hide Merged, AppendItems, ReplaceFirstMatching, RecalledSlots, ChangePending, RecalledPending, PreviousItems, ComesFrom;
    var base := RecalledSlots(env, Some(state));
    forall x, payment | SameContact(base, payment, x)
      ensures ComesFrom(env, turn, base, payment, Merged(env, turn, x))
    {
      MergedComesFrom(env, turn, base, payment, x);
    }
  }

  lemma AddOrReplaceComesFrom(env: Env, turn: Turn, state: Stored)
    requires ReadAddOrReplace(env, turn, state).Continue?
    ensures
      var base := RecalledSlots(env, Some(state));
      ComesFrom(env, turn, base, if Given(turn.payment) then turn.payment else base.payment,
                ReadAddOrReplace(env, turn, state).slots)
  {
    hide Merged, AppendItems, ReplaceFirstMatching, RecalledSlots, RecalledPending, ComesFrom;
    var base := RecalledSlots(env, Some(state));
    forall x, payment | SameContact(base, payment, x)
      ensures ComesFrom(env, turn, base, payment, Merged(env, turn, x))
    {
      MergedComesFrom(env, turn, base, payment, x);
    }
  }

  lemma ReadKeepsContact(env: Env, turn: Turn, state: Option<Stored>)
    requires Read(env, turn, state).Continue?
    ensures
      var slots, stored := Read(env, turn, state).slots, RecalledSlots(env, state);
      && slots.name == FirstText(turn.incoming.name, stored.name)
      && slots.phone == FirstText(turn.incoming.phone, stored.phone)
      && slots.address == FirstText(turn.incoming.address, stored.address)
      && slots.notes == FirstText(turn.incoming.notes, stored.notes)
      && slots.payment == PaymentSoFar(env, turn, state)
  {
    hide ReadPlain, ReadChoice, ReadChange, ReadAddOrReplace, RecalledSlots, FirstText, ComesFrom;
    var base, slots := RecalledSlots(env, state), Read(env, turn, state).slots;
    var payment := if PaymentAnswers(turn, state) then turn.payment else base.payment;
    if state.Some? {
      match state.value.status
      case AwaitingProductChoice => ChoiceComesFrom(env, turn, state.value);
      case AwaitingProductChange => ChangeComesFrom(env, turn, state.value);
      case AwaitingAddOrReplace => AddOrReplaceComesFrom(env, turn, state.value);
      case _ => PlainComesFrom(env, turn, base);
    } else {
      PlainComesFrom(env, turn, base);
    }
    ComesFromIsMessageFirst(env, turn, base, payment, slots);
  }

  function AccountText(env: Env, pick: Contact -> Option<string>): Option<string>
  {
    if env.account.Some? then pick(env.account.value) else None
  }

  predicate GoodPhone(env: Env, phone: Option<string>)
  {
    Given(phone) && env.validPhone(phone.value).Some?
  }

  /**
   * What the customer said last counts, then what was said before, then the account. A
   * number in the message replaces only a phone that is missing or not valid, and a name
   * that the message states outright comes first.
   */
  predicate LastWordCounts(env: Env, turn: Turn, state: Option<Stored>, slots: Slots)
  {
    var stored, said := RecalledSlots(env, state), turn.incoming;
    var payment := FirstText(PaymentSoFar(env, turn, state), turn.payment);
    var phone := FirstText(said.phone, stored.phone);
    && slots.address == FirstText(FirstText(said.address, stored.address), AccountText(env, (c: Contact) => c.address))
    && slots.payment == payment
    && slots.phone == FirstText(if Given(turn.phone) && !GoodPhone(env, phone) then turn.phone else phone,
                                AccountText(env, (c: Contact) => c.phone))
    && slots.name == FirstText(FirstText(turn.nameGiven(OrText(PaymentSoFar(env, turn, state), turn.payment)),
                                         FirstText(said.name, stored.name)),
                               AccountText(env, (c: Contact) => c.name))
    && slots.notes == FirstText(FirstText(FirstText(said.notes, stored.notes), turn.time),
                                AccountText(env, (c: Contact) => c.notes))
  }

  /** The slots that the turn ends with, the account's data merged in. */
  function FinalSlots(env: Env, turn: Turn, state: Option<Stored>): Slots
    requires Read(env, turn, state).Continue?
  {
    MergeSlots(env.normal, AccountSlots(env), Settled(env, turn, state, Read(env, turn, state)))
  }

  lemma FinalSlotsFollow(env: Env, turn: Turn, state: Option<Stored>)
    requires Read(env, turn, state).Continue?
    ensures LastWordCounts(env, turn, state, FinalSlots(env, turn, state))
  {
    hide Read, RecalledSlots, PaymentSoFar, MergeItems;
    ReadKeepsContact(env, turn, state);
  }

  lemma ConcludedOnFinalSlots(env: Env, turn: Turn, state: Option<Stored>)
    ensures
      match ChatTurn(env, turn, state)
      case Ask(next, quoted) => quoted.Some? ==> Read(env, turn, state).Continue? && next.slots == FinalSlots(env, turn, state)
      case Place(order) => Read(env, turn, state).Continue? && order.slots == FinalSlots(env, turn, state)
      case _ => true
  {
    hide Ready, LinesOf, SummaryTotal, FirstBare, NothingOpen, Read, Settled, MergeSlots, HasContact;
  }

  /** Every summary and every order follows that rule. */
  lemma ContactRules(env: Env, turn: Turn, state: Option<Stored>)
    ensures
      match ChatTurn(env, turn, state)
      case Ask(next, quoted) => quoted.Some? ==> LastWordCounts(env, turn, state, next.slots)
      case Place(order) => LastWordCounts(env, turn, state, order.slots)
      case _ => true
  {
    hide ChatTurn, Read, LastWordCounts, FinalSlots;
    ConcludedOnFinalSlots(env, turn, state);
    if Read(env, turn, state).Continue? {
      FinalSlotsFollow(env, turn, state);
    }
  }

  // ---------------------------------------------------------------- what an order needs

  /** The text names a product on offer. */
  predicate OnOffer(env: Env, item: Item, p: Id)
  {
    Given(item.product) && env.find(item.product.value) == Some(p) && p in env.catalog
  }

  /** One line that can be ordered from stock. */
  predicate LineIsFit(env: Env, item: Item)
  {
    && Given(item.product) && env.find(item.product.value).Some?
    && var p := env.find(item.product.value).value;
       p in env.catalog && item.quantity.Some? && item.quantity.value <= env.catalog[p].stock
  }

  /** All that is needed before an order is summarised or placed. */
  predicate FitToOrder(env: Env, slots: Slots)
  {
    && slots.items != [] && (forall item :: item in slots.items ==> LineIsFit(env, item))
    && Given(slots.name)
    && Given(slots.phone) && env.validPhone(slots.phone.value).Some?
    && Given(slots.address) && env.deliverable(slots.address.value) && env.precise(slots.address.value)
    && Given(slots.payment) && env.paymentMethod(slots.payment.value).Some?
  }

  lemma ReadyIff(env: Env, slots: Slots)
    ensures Ready(env, slots) <==> FitToOrder(env, slots)
  {
    if Ready(env, slots) {
      forall item | item in slots.items
        ensures LineIsFit(env, item)
      {
        var k :| 0 <= k < |slots.items| && slots.items[k] == item;
        assert ProductFor(env, slots.items[k]).Some?;
      }
    }
    if FitToOrder(env, slots) {
      forall k | 0 <= k < |slots.items|
        ensures ProductFor(env, slots.items[k]).Some? && slots.items[k].quantity.Some?
        ensures slots.items[k].quantity.value <= env.catalog[ProductFor(env, slots.items[k]).value].stock
      {
        assert LineIsFit(env, slots.items[k]);
      }
    }
  }

  // ---------------------------------------------------------------- what is asked, and when

  /** A line that says no more than a category, or that names nothing on offer. */
  predicate LineIsUnclear(env: Env, item: Item)
  {
    && Given(item.product)
    && (env.category(item.product.value).Some? || forall p :: p in env.catalog ==> env.find(item.product.value) != Some(p))
  }

  predicate NamesCategoryOnly(env: Env, item: Item)
  {
    Given(item.product) && env.category(item.product.value).Some?
  }

  /** Every line names a product on offer and a quantity. */
  predicate CartIsClear(env: Env, items: seq<Item>)
  {
    && items != []
    && forall item :: item in items ==>
         && Given(item.product) && item.quantity.Some?
         && env.find(item.product.value).Some? && env.find(item.product.value).value in env.catalog
  }

  predicate AnyContact(name: Option<string>, phone: Option<string>, address: Option<string>)
  {
    Given(name) || Given(phone) || Given(address)
  }

  /** In a new order without any contact data, that of an earlier message is offered. */
  predicate OffersEarlier(env: Env, state: Option<Stored>, slots: Slots)
  {
    && state.None? && CartIsClear(env, slots.items)
    && env.earlier.Some? && AnyContact(env.earlier.value.name, env.earlier.value.phone, env.earlier.value.address)
    && !AnyContact(slots.name, slots.phone, slots.address)
  }

  /** In a new order without name and phone, the account's data is offered. */
  predicate OffersAccount(env: Env, state: Option<Stored>, slots: Slots)
  {
    && state.None? && CartIsClear(env, slots.items)
    && env.account.Some? && AnyContact(env.account.value.name, env.account.value.phone, env.account.value.address)
    && !Given(slots.name) && !Given(slots.phone)
  }

  lemma NothingOpenIff(env: Env, items: seq<Item>)
    ensures NothingOpen(env, items) <==> CartIsClear(env, items)
  {
    if NothingOpen(env, items) {
      forall item | item in items
        ensures Given(item.product) && item.quantity.Some?
        ensures env.find(item.product.value).Some? && env.find(item.product.value).value in env.catalog
      {
        var k :| 0 <= k < |items| && items[k] == item;
        assert ProductFor(env, items[k]).Some? && items[k].quantity.Some?;
      }
    }
    if CartIsClear(env, items) {
      forall k | 0 <= k < |items|
        ensures ProductFor(env, items[k]).Some? && items[k].quantity.Some?
      {
        assert items[k] in items;
      }
    }
  }

  lemma UnclearIff(env: Env, item: Item)
    ensures LineIsUnclear(env, item) <==> IsBare(env, item) || (Truthy(item.product) && ProductFor(env, item).None?)
  {
  }

  /** The question that a settled turn ends with, or its summary or order. */
  predicate QuestionIsRight(env: Env, state: Option<Stored>, slots: Slots, outcome: Outcome)
  {
    if exists item :: item in slots.items && LineIsUnclear(env, item) then
      && outcome.Ask? && outcome.quoted.None? && outcome.state.status == AwaitingProductChoice && outcome.state.slots == slots
      && if exists item :: item in slots.items && NamesCategoryOnly(env, item)
         then outcome.state.pending.Some? && outcome.state.pending.value in slots.items
              && NamesCategoryOnly(env, outcome.state.pending.value)
         else outcome.state.pending.None?
    else if OffersEarlier(env, state, slots) then
      outcome.Ask? && outcome.quoted.None? && outcome.state.status == AwaitingReusedContact
    else if OffersAccount(env, state, slots) then
      outcome.Ask? && outcome.quoted.None? && outcome.state.status == AwaitingAccountContact
    else
      match outcome
      case Ask(next, quoted) =>
        if quoted.Some? then next.status == AwaitingConfirmation && FitToOrder(env, next.slots) && !slots.confirmed
        else next.status == AwaitingMissingSlots && !FitToOrder(env, next.slots) && next.slots.items == slots.items
      case Place(order) => slots.confirmed && FitToOrder(env, order.slots) && order.slots.items == slots.items
      case Rejected => slots.confirmed && exists item :: item in slots.items && !(item.quantity.Some? && 1 <= item.quantity.value <= 100)
      case ChangeRequested => false
  }

  lemma QuestionRules(env: Env, state: Option<Stored>, slots: Slots)
    ensures QuestionIsRight(env, state, slots, Finish(env, state, slots))
  {
    hide Ready, FitToOrder, NothingOpen, CartIsClear, LinesOf, SummaryTotal, LineIsUnclear, ProductFor, MergeItems, FirstBare,
         NamesCategoryOnly;
    BareLines(env, slots.items);
    var final := MergeSlots(env.normal, AccountSlots(env), slots);
    NothingOpenIff(env, slots.items);
    ReadyIff(env, final);
    UnclearLines(env, slots.items);
    AccountMerge(env, slots);
  }

  lemma BareLines(env: Env, items: seq<Item>)
    ensures FirstBare(env, items).Some? <==> exists item :: item in items && NamesCategoryOnly(env, item)
    ensures FirstBare(env, items).Some? ==>
              FirstBare(env, items).value in items && NamesCategoryOnly(env, FirstBare(env, items).value)
  {
    if FirstBare(env, items).None? {
      forall item | item in items
        ensures !NamesCategoryOnly(env, item)
      {
        var k :| 0 <= k < |items| && items[k] == item;
        assert !IsBare(env, items[k]);
      }
    } else {
      var bare := FirstBare(env, items).value;
      assert bare in items && NamesCategoryOnly(env, bare);
    }
  }

  lemma UnclearLines(env: Env, items: seq<Item>)
    ensures (exists item :: item in items && LineIsUnclear(env, item)) <==>
              FirstBare(env, items).Some? || exists item :: item in items && Truthy(item.product) && ProductFor(env, item).None?
  {
    hide LineIsUnclear, ProductFor, IsBare;
    forall item: Item
      ensures LineIsUnclear(env, item) <==> IsBare(env, item) || (Truthy(item.product) && ProductFor(env, item).None?)
    {
      UnclearIff(env, item);
    }
    if FirstBare(env, items).None? {
      forall item | item in items
        ensures !IsBare(env, item)
      {
        var k :| 0 <= k < |items| && items[k] == item;
      }
    }
  }

  lemma AccountMerge(env: Env, slots: Slots)
    ensures
      var final := MergeSlots(env.normal, AccountSlots(env), slots);
      final.items == slots.items && final.confirmed == slots.confirmed
  {
  }

  /** Earlier contact data only fills gaps, and so does the account's. */
  lemma OfferedContact(env: Env, state: Option<Stored>, slots: Slots)
    ensures
      match Finish(env, state, slots)
      case Ask(next, _) =>
        && (next.status == AwaitingReusedContact && env.earlier.Some? ==>
              && next.slots.name == FirstText(env.earlier.value.name, None)
              && next.slots.phone == FirstText(env.earlier.value.phone, None)
              && next.slots.address == FirstText(env.earlier.value.address, None)
              && next.slots.items == slots.items)
        && (next.status == AwaitingAccountContact && env.account.Some? ==>
              && next.slots.name == FirstText(env.account.value.name, None)
              && next.slots.phone == FirstText(env.account.value.phone, None)
              && next.slots.address == FirstText(slots.address, env.account.value.address)
              && next.slots.items == slots.items)
      case _ => true
  {
    hide Ready, NothingOpen, LinesOf, SummaryTotal, FirstBare, ProductFor;
  }

  // ---------------------------------------------------------------- what is remembered

  /** A text as it comes back from storage: without surrounding blanks, and not at all if nothing is left. */
  function Remembered(env: Env, s: Option<string>): Option<string>
  {
    if Given(s) && env.strip(s.value) != "" then Some(env.strip(s.value)) else None
  }

  /** Every slot is remembered, only a confirmation is not. */
  lemma MemoryRules(env: Env, state: Stored)
    ensures
      var slots, back := state.slots, RecalledSlots(env, Some(state));
      && back.name == Remembered(env, slots.name) && back.phone == Remembered(env, slots.phone)
      && back.address == Remembered(env, slots.address) && back.notes == Remembered(env, slots.notes)
      && back.payment == Remembered(env, slots.payment) && !back.confirmed
      && |back.items| <= |slots.items|
      && ((forall item :: item in slots.items ==> Canonical(env.strip, item)) ==> back.items == slots.items)
    ensures state.pending.Some? && Canonical(env.strip, state.pending.value) ==> RecalledPending(env, state) == state.pending
    ensures state.pending.None? ==> RecalledPending(env, state).None?
  {
    hide Canonical;
    RecalledLength(env.strip, state.slots.items);
    RecalledIff(env.strip, state.slots.items);
    if state.pending.Some? {
      RecalledIff(env.strip, [state.pending.value]);
    }
  }

  // ---------------------------------------------------------------- which reply the next message answers

  const HALF_AN_HOUR: int := 1800000000   // microseconds

  /** The latest stored state decides: it is found while it is at most half an hour old and not a cancellation. */
  lemma LatestStateIsFound(history: seq<Message>, m: Message, affirms: bool, now: int)
    requires m.StateMessage?
    ensures FindState(history + [m], affirms, now)
         == if now - m.at <= HALF_AN_HOUR && m.state.status != OrderCancelled then Some(m) else None
  {
    assert (history + [m])[..|history|] == history;
  }

  lemma OnlyTenAreRead(history: seq<Message>)
    ensures |Recent(history)| <= 10 && |Recent(history)| <= |history|
    ensures |history| <= 10 ==> Recent(history) == history
    ensures 10 <= |history| ==> |Recent(history)| == 10
    ensures Recent(history) == history[|history| - |Recent(history)|..]
  {
  }

  /** A message within half an hour answers the question that was asked last. */
  lemma NextAnswersQuestion(history: seq<Message>, event: Event, next: Event)
    requires event.Heard? && next.Heard? && Reply(history, event).Ask?
    requires Reply(history, event).state.status != OrderCancelled && next.at - event.at <= HALF_AN_HOUR
    ensures FoundState(After(history, event), next) == Some(Reply(history, event).state)
  {
    hide ChatTurn;
    var reply := Reply(history, event);
    var asked := StateMessage(reply.state, reply.quoted, event.at);
    var after := After(history, event);
    assert after == history + [Chatter, asked];
    var recent := Recent(after);
    var front := recent[..|recent| - 1];
    assert recent == front + [asked];
    LatestStateIsFound(front, asked, next.turn.affirms, next.at);
  }

  /** While a recorded order is in sight, asking for a change is noted as such and is no order turn. */
  lemma ChangesAreNoted(history: seq<Message>, event: Event)
    requires event.Heard?
    ensures Reply(history, event) == ChangeRequested <==> event.turn.asksForChange && OrderMessage in Recent(history)
  {
    hide FindState;
    NeverChangeRequested(event.env, event.turn, FoundState(history, event));
  }

  lemma NeverChangeRequested(env: Env, turn: Turn, state: Option<Stored>)
    ensures ChatTurn(env, turn, state) != ChangeRequested
  {
    SummaryIsReady(env, turn, state);
  }

  /** After an order is created, or a change to one is noted, a message that does not affirm starts over. */
  lemma AfterOrderStartsOver(history: seq<Message>, event: Event, next: Event)
    requires event.Heard? && next.Heard? && !next.turn.affirms
    requires Reply(history, event) == ChangeRequested || (Reply(history, event).Place? && event.created)
    ensures FoundState(After(history, event), next).None?
  {
    hide ChatTurn;
    var after := After(history, event);
    assert after == history + [Chatter, OrderMessage];
    var recent := Recent(after);
    assert recent[|recent| - 1] == OrderMessage;
  }

  // ---------------------------------------------------------------- which line a question is about

  /** The line that a product choice is about: the stored one, else the first incomplete line. */
  lemma ChoiceIsAbout(env: Env, state: Stored)
    ensures
      var lines, stored, about := RecalledSlots(env, Some(state)).items, RecalledPending(env, state), ChoicePending(env, state);
      if stored.Some? then about == stored
      else if exists item :: item in lines && (item.product.None? || IsBareGas(env, item))
      then about.Some? && about.value in lines && (about.value.product.None? || IsBareGas(env, about.value))
      else about.None?
  {
    hide Recalled;
    var lines := RecalledSlots(env, Some(state)).items;
    assert forall item :: item in lines ==> exists k :: 0 <= k < |lines| && lines[k] == item;
  }

  /** The line that a proposed change is about, when it was not stored: a product that was not in the cart before, if there is one. */
  lemma ChangeIsAbout(env: Env, previous: seq<Item>, lines: seq<Item>)
    ensures
      var about := ChangePending(env, previous, lines);
      && (about.None? <==> lines == [])
      && (about.Some? ==> about.value in lines)
      && ((exists item :: item in lines && MatchingIndex(Named(env), previous, item).None?) ==>
            MatchingIndex(Named(env), previous, about.value).None?)
  {
    hide MatchingIndex;
    assert forall item :: item in lines ==> exists k :: 0 <= k < |lines| && lines[k] == item;
  }
}
