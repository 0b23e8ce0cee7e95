/**
 * One turn of a chat order: what the stored state and a new message lead to.
 *
 * Whatever is read out of the message text, and whatever is looked up for a text, is a
 * parameter. The state machine over those readings is what this module is about.
 */
module ChatOrder {
  import opened Sums
  import opened Pricing
  import opened Ledger
  import opened ChatCart

  // ---------------------------------------------------------------- data

  datatype Payment = Cod | BankTransfer

  datatype Slots = Slots(
    items: seq<Item>, name: Option<string>, phone: Option<string>, address: Option<string>,
    notes: Option<string>, payment: Option<string>, confirmed: bool)

  const NO_SLOTS := Slots([], None, None, None, None, None, false)

  /** Contact data that is already known: from the account, or from earlier in the conversation. */
  datatype Contact = Contact(name: Option<string>, phone: Option<string>, address: Option<string>, notes: Option<string>)
  {
    function AsSlots(): Slots { Slots([], name, phone, address, notes, None, false) }
  }

  /** What one turn can look up: the catalog offered to the chat, and how texts are read. */
  datatype Env = Env(
    catalog: map<Id, Product>,
    find: string -> Option<Id>,            // the best catalog match for a product text
    category: string -> Option<Category>,  // for a text that names a category and no more
    strip: string -> string,
    normal: string -> string,
    validPhone: string -> Option<string>,
    paymentMethod: string -> Option<Payment>,
    deliverable: string -> bool,           // the address lies in a delivery zone
    precise: string -> bool,               // and its neighbourhood number is given and exists
    account: Option<Contact>,
    earlier: Option<Contact>)

  /** What is read out of one message. */
  datatype Turn = Turn(
    affirms: bool, negates: bool, cancels: bool, vagueTime: bool, keepsPrevious: bool,
    addCue: bool, replaceCue: bool, removeCue: bool, cancelsAdd: bool, asksForChange: bool,
    payment: Option<string>, phone: Option<string>, time: Option<string>,
    nameGiven: Option<string> -> Option<string>,   // the name it states, given the payment method
    picked: Option<string>, sizeChosen: bool,
    incoming: Slots)

  datatype Status =
    | AwaitingProductChoice | AwaitingProductChange | AwaitingAddOrReplace | AwaitingMissingSlots
    | AwaitingReusedContact | AwaitingAccountContact | AwaitingConfirmation | OrderCancelled

  /** The state that a reply carries in its metadata. */
  datatype Stored = Stored(status: Status, slots: Slots, pending: Option<Item>, previous: seq<Item>)

  datatype ChatCheckout = ChatCheckout(lines: seq<CartLine>, slots: Slots, phone: string, payment: Payment)

  datatype Outcome =
    | ChangeRequested
    | Ask(state: Stored, quoted: Option<int>)   // a summary also quotes a total
    | Place(order: ChatCheckout)
    | Rejected                                  // the checkout schema refuses a quantity

  // ---------------------------------------------------------------- small helpers

  /** A match is a product of the catalog that was searched. */
  function Named(env: Env): Resolver
  {
    (text: string) =>
      var p := env.find(text);
      if p.Some? && p.value in env.catalog then p else None
  }

  function ProductFor(env: Env, item: Item): Option<Id>
  {
    ProductOf(Named(env), item)
  }

  predicate IsBare(env: Env, item: Item)
  {
    Truthy(item.product) && env.category(item.product.value).Some?
  }

  predicate IsBareGas(env: Env, item: Item)
  {
    Truthy(item.product) && env.category(item.product.value) == Some(Gas)
  }

  predicate Incomplete(env: Env, item: Item)
  {
    item.product.None? || IsBareGas(env, item)
  }

  function IndexWhere(items: seq<Item>, p: Item -> bool): (r: Option<nat>)
    ensures r.Some? ==> r.value < |items| && p(items[r.value]) && forall k :: 0 <= k < r.value ==> !p(items[k])
    ensures r.None? ==> forall k :: 0 <= k < |items| ==> !p(items[k])
  {
    if items == [] then None
    else
      var n := |items| - 1;
      var front := IndexWhere(items[..n], p);
      if front.Some? then front else if p(items[n]) then Some(n) else None
  }

  function FirstWhere(items: seq<Item>, p: Item -> bool): Option<Item>
  {
    var i := IndexWhere(items, p);
    if i.Some? then Some(items[i.value]) else None
  }

  function Filter(items: seq<Item>, p: Item -> bool): (r: seq<Item>)
    ensures forall item :: item in r <==> item in items && p(item)
  {
    if items == [] then []
    else
      var n := |items| - 1;
      assert items == items[..n] + [items[n]];
      Filter(items[..n], p) + if p(items[n]) then [items[n]] else []
  }

  function First(items: seq<Item>): Option<Item>
  {
    if items == [] then None else Some(items[0])
  }

  predicate HasContact(c: Slots)
  {
    Truthy(c.name) || Truthy(c.phone) || Truthy(c.address)
  }

  // ---------------------------------------------------------------- merging and storing slots

  predicate SameText(normal: string -> string, a: Item, b: Item)
  {
    var key := normal(Or(b.product, ""));
    key != "" && normal(Or(a.product, "")) == key
  }

  /** _merge_order_items: lines with the same text are overwritten, others appended. */
  function MergeItems(normal: string -> string, current: seq<Item>, incoming: seq<Item>): seq<Item>
  {
    if incoming == [] then current
    else if current == [] then incoming
    else
      var n := |incoming| - 1;
      var merged := MergeItems(normal, current, incoming[..n]);
      var at := IndexWhere(merged, (item: Item) => SameText(normal, item, incoming[n]));
      if at.None? then merged + [incoming[n]]
      else merged[at.value := Overwritten(merged[at.value], incoming[n])]
  }

  function MergeInto(normal: string -> string, merged: Slots, source: Slots): Slots
  {
    Slots(MergeItems(normal, merged.items, source.items),
          OrText(source.name, merged.name), OrText(source.phone, merged.phone),
          OrText(source.address, merged.address), OrText(source.notes, merged.notes),
          OrText(source.payment, merged.payment), merged.confirmed || source.confirmed)
  }

  /** _merge_order_slots: later sources win, blanks never overwrite. */
  function MergeSlots(normal: string -> string, a: Slots, b: Slots): Slots
  {
    MergeInto(normal, MergeInto(normal, NO_SLOTS, a), b)
  }

  function WithItems(slots: Slots, items: seq<Item>): Slots
  {
    slots.(items := items, confirmed := false)
  }

  /** The slots as they are read back from the metadata of a message. */
  function RecalledSlots(env: Env, state: Option<Stored>): Slots
  {
    if state.None? then NO_SLOTS
    else
      var s := state.value.slots;
      Slots(Recalled(env.strip, s.items), CleanText(env.strip, s.name), CleanText(env.strip, s.phone),
            CleanText(env.strip, s.address), CleanText(env.strip, s.notes), CleanText(env.strip, s.payment), false)
  }

  function RecalledPending(env: Env, state: Stored): Option<Item>
  {
    if state.pending.None? then None else First(Recalled(env.strip, [state.pending.value]))
  }

  // ---------------------------------------------------------------- reading the message in the light of the stored state

  /** Either the turn is answered at once, or it goes on with revised slots. */
  datatype Reading = Answer(state: Stored) | Continue(slots: Slots, resolved: bool)

  function ContactOf(turn: Turn): Slots
  {
    turn.incoming.(items := [])
  }

  function Merged(env: Env, turn: Turn, slots: Slots): Slots
  {
    MergeSlots(env.normal, slots, ContactOf(turn))
  }

  /** The incomplete line that a product choice is about. */
  function ChoicePending(env: Env, state: Stored): Option<Item>
  {
    var stored := RecalledPending(env, state);
    if stored.Some? then stored
    else FirstWhere(RecalledSlots(env, Some(state)).items, (item: Item) => Incomplete(env, item))
  }

  function DropIncomplete(env: Env, slots: Slots): Slots
  {
    WithItems(slots, Filter(slots.items, (item: Item) => !Incomplete(env, item)))
  }

  function ReadChoice(env: Env, turn: Turn, state: Stored): Reading
  {
    var base := RecalledSlots(env, Some(state));
    var pending := ChoicePending(env, state);
    if pending.None? || !Incomplete(env, pending.value) then ReadPlain(env, turn, base)
    else if turn.cancelsAdd then Continue(Merged(env, turn, DropIncomplete(env, base)), false)
    else if turn.affirms then Continue(Merged(env, turn, DropIncomplete(env, base)), true)
    else if turn.picked.Some? then
      var kept := DropIncomplete(env, base);
      var chosen := Item(turn.picked, pending.value.quantity);
      Continue(Merged(env, turn, WithItems(kept, AppendItems(Named(env), kept.items, [chosen]))), false)
    else if turn.sizeChosen then Answer(Stored(AwaitingProductChoice, base, pending, []))
    else ReadPlain(env, turn, base)
  }

  /** The first new line that was not there before. */
  function ChangePending(env: Env, previous: seq<Item>, lines: seq<Item>): Option<Item>
  {
    var added := FirstWhere(lines, (item: Item) => MatchingIndex(Named(env), previous, item).None?);
    if added.Some? then added else First(lines)
  }

  function PreviousItems(env: Env, state: Stored): seq<Item>
  {
    var stored := Recalled(env.strip, state.previous);
    if stored != [] then stored else RecalledSlots(env, Some(state)).items
  }

  function ReadChange(env: Env, turn: Turn, state: Stored): Reading
  {
    var base := RecalledSlots(env, Some(state));
    var previous := PreviousItems(env, state);
    var original := WithItems(base, previous);
    var stored := RecalledPending(env, state);
    var pending := if stored.Some? then stored else ChangePending(env, previous, base.items);
    var candidates := turn.incoming.items;
    if Truthy(turn.payment) then
      Continue(Merged(env, turn, original.(payment := turn.payment)), false)
    else if turn.negates && turn.addCue && pending.Some? then
      Continue(Merged(env, turn, WithItems(original, previous + [pending.value])), false)
    else if turn.affirms then
      Continue(Merged(env, turn, base), false)
    else if turn.negates || turn.keepsPrevious then
      Continue(Merged(env, turn, original), false)
    else if turn.addCue && (candidates != [] || pending.Some?) then
      var more := if candidates != [] then candidates else [pending.value];
      Continue(Merged(env, turn, WithItems(original, AppendItems(Named(env), previous, more))), false)
    else if candidates != [] && Truthy(candidates[0].product) then
      var changed := WithItems(original, ReplaceFirstMatching(Named(env), previous, candidates[0]));
      Answer(Stored(AwaitingProductChange, changed, Some(candidates[0]), previous))
    else
      Answer(Stored(AwaitingProductChange, base, pending, previous))
  }

  function ReadAddOrReplace(env: Env, turn: Turn, state: Stored): Reading
  {
    var base := RecalledSlots(env, Some(state));
    var candidate := First(turn.incoming.items);
    var stored := RecalledPending(env, state);
    var pending := if stored.Some? then stored else candidate;
    if Truthy(turn.payment) then
      Continue(Merged(env, turn, base.(payment := turn.payment)), false)
    else if pending.Some? && turn.addCue then
      Continue(Merged(env, turn, WithItems(base, AppendItems(Named(env), base.items, [pending.value]))), false)
    else if pending.Some? && (turn.replaceCue || turn.affirms) then
      Continue(Merged(env, turn, WithItems(base, ReplaceFirstMatching(Named(env), base.items, pending.value))), false)
    else if turn.negates then
      Continue(Merged(env, turn, base), false)
    else if candidate.Some? && Truthy(candidate.value.product) then
      Answer(Stored(AwaitingAddOrReplace, base, candidate, []))
    else
      Answer(Stored(AwaitingAddOrReplace, base, pending, []))
  }

  datatype Operation = SetLines | AddLines | ReplaceLine | RemoveLine | MergeLines | Unclear

  function DetectOperation(env: Env, turn: Turn, previous: seq<Item>): Operation
  {
    var named := Filter(turn.incoming.items, (item: Item) => Truthy(item.product));
    if named == [] then SetLines
    else if turn.removeCue then RemoveLine
    else if turn.addCue then AddLines
    else if turn.replaceCue then ReplaceLine
    else if previous == [] then SetLines
    else if forall item :: item in named ==> MatchingIndex(Named(env), previous, item).Some? then MergeLines
    else Unclear
  }

  function ReadPlain(env: Env, turn: Turn, previous: Slots): Reading
  {
    var slots := Merged(env, turn, previous);
    var candidates := turn.incoming.items;
    if candidates == [] then Continue(slots, false)
    else
      match DetectOperation(env, turn, previous.items)
      case SetLines =>
        var set_ := WithItems(slots, candidates);
        Continue(if previous.items == [] then set_.(confirmed := turn.incoming.confirmed) else set_, false)
      case AddLines =>
        Continue(WithItems(slots, AppendItems(Named(env), slots.items, candidates)), false)
      case ReplaceLine =>
        if slots.items == [] then Continue(WithItems(slots, candidates), false)
        else
          var changed := WithItems(slots, ReplaceFirstMatching(Named(env), slots.items, candidates[0]));
          Answer(Stored(AwaitingProductChange, changed, Some(candidates[0]), slots.items))
      case RemoveLine =>
        var left := RemoveItem(Named(env), slots.items, candidates[0]);
        Continue(if left == slots.items then slots else WithItems(slots, left), false)
      case MergeLines =>
        Continue(WithItems(slots, MergeAllExisting(Named(env), slots.items, candidates)), false)
      case Unclear =>
        Answer(Stored(AwaitingAddOrReplace, slots, Some(candidates[0]), []))
  }

  function Read(env: Env, turn: Turn, state: Option<Stored>): Reading
  {
    var base := RecalledSlots(env, state);
    if state.None? then ReadPlain(env, turn, base)
    else if turn.cancels then Answer(Stored(OrderCancelled, NO_SLOTS, None, []))
    else if turn.vagueTime then Answer(Stored(AwaitingMissingSlots, base, None, []))
    else
      match state.value.status
      case AwaitingProductChoice => ReadChoice(env, turn, state.value)
      case AwaitingProductChange => ReadChange(env, turn, state.value)
      case AwaitingAddOrReplace => ReadAddOrReplace(env, turn, state.value)
      case _ => ReadPlain(env, turn, base)
  }

  // ---------------------------------------------------------------- cues and the confirmation flag

  predicate PhoneIsGood(env: Env, slots: Slots)
  {
    Truthy(slots.phone) && env.validPhone(slots.phone.value).Some?
  }

  /** Phone, payment, name and delivery time that the message itself states. */
  function WithCues(env: Env, turn: Turn, slots: Slots): Slots
  {
    var phone := if Truthy(turn.phone) && !PhoneIsGood(env, slots) then turn.phone else slots.phone;
    var payment := OrText(slots.payment, turn.payment);
    slots.(phone := phone, payment := payment,
           name := OrText(turn.nameGiven(payment), slots.name),
           notes := OrText(slots.notes, turn.time))
  }

  predicate Confirms(turn: Turn, state: Option<Stored>, resolved: bool)
  {
    if state.None? then resolved
    else
      match state.value.status
      case AwaitingReusedContact => false
      case AwaitingAccountContact => false
      case AwaitingConfirmation => turn.affirms || resolved
      case _ => resolved
  }

  // ---------------------------------------------------------------- from complete slots to a summary or an order

  /** Every line names a product; some quantities may be missing. */
  predicate AllMatched(env: Env, items: seq<Item>)
  {
    forall k :: 0 <= k < |items| ==> ProductFor(env, items[k]).Some?
  }

  predicate AllCounted(items: seq<Item>)
  {
    forall k :: 0 <= k < |items| ==> items[k].quantity.Some?
  }

  /** No slot is missing. */
  predicate Filled(env: Env, slots: Slots)
  {
    && slots.items != [] && AllMatched(env, slots.items) && AllCounted(slots.items)
    && Truthy(slots.name) && Truthy(slots.phone) && Truthy(slots.address) && Truthy(slots.payment)
  }

  /** Each line on its own is covered by the stock. */
  predicate LinesInStock(env: Env, items: seq<Item>)
  {
    forall k :: 0 <= k < |items| && ProductFor(env, items[k]).Some? && items[k].quantity.Some? ==>
      items[k].quantity.value <= env.catalog[ProductFor(env, items[k]).value].stock
  }

  /** Everything a summary or an order needs. */
  predicate Ready(env: Env, slots: Slots)
  {
    && Filled(env, slots)
    && env.validPhone(slots.phone.value).Some?
    && env.deliverable(slots.address.value) && env.precise(slots.address.value)
    && LinesInStock(env, slots.items)
    && env.paymentMethod(slots.payment.value).Some?
  }

  predicate Orderable(item: Item)
  {
    item.quantity.Some? && 1 <= item.quantity.value <= 100
  }

  function LineOf(env: Env, item: Item): CartLine
    requires ProductFor(env, item).Some? && Orderable(item)
  {
    CartLine(ProductFor(env, item).value, item.quantity.value, false)
  }

  function LinesOf(env: Env, items: seq<Item>): (lines: seq<CartLine>)
    requires AllMatched(env, items) && forall k :: 0 <= k < |items| ==> Orderable(items[k])
    ensures |lines| == |items|
  {
    seq(|items|, k requires 0 <= k < |items| => LineOf(env, items[k]))
  }

  function Count(item: Item): int
  {
    Or(item.quantity, 0)
  }

  function ItemValue(env: Env): Item -> int
  {
    (item: Item) =>
      if ProductFor(env, item).Some? then env.catalog[ProductFor(env, item).value].UnitPrice() * Count(item) else 0
  }

  function WaterUnits(env: Env): Item -> int
  {
    (item: Item) =>
      if ProductFor(env, item).Some? && env.catalog[ProductFor(env, item).value].category == Water
      then Count(item) else 0
  }

  /** The total that a summary quotes: the lines one by one, plus the fee on all bottles of water together. */
  function SummaryTotal(env: Env, items: seq<Item>): int
  {
    Sum(items, ItemValue(env)) + WATER_FEE_PER_UNIT * Sum(items, WaterUnits(env))
  }

  predicate NothingOpen(env: Env, items: seq<Item>)
  {
    items != [] && AllMatched(env, items) && AllCounted(items)
  }

  function AccountSlots(env: Env): Slots
  {
    if env.account.Some? then env.account.value.AsSlots() else NO_SLOTS
  }

  function ReusedSlots(env: Env): Slots
  {
    if env.earlier.Some? then env.earlier.value.(notes := None).AsSlots() else NO_SLOTS
  }

  function Missing(slots: Slots): Outcome
  {
    Ask(Stored(AwaitingMissingSlots, slots, None, []), None)
  }

  function FirstBare(env: Env, items: seq<Item>): Option<Item>
  {
    FirstWhere(items, (item: Item) => IsBare(env, item))
  }

  function Finish(env: Env, state: Option<Stored>, slots: Slots): Outcome
  {
    var bare := FirstBare(env, slots.items);
    if bare.Some? then
      Ask(Stored(AwaitingProductChoice, slots, bare, []), None)
    else if exists item :: item in slots.items && Truthy(item.product) && ProductFor(env, item).None? then
      Ask(Stored(AwaitingProductChoice, slots, None, []), None)
    else if state.None? && NothingOpen(env, slots.items) && HasContact(ReusedSlots(env)) && !HasContact(slots) then
      Ask(Stored(AwaitingReusedContact, MergeSlots(env.normal, slots, ReusedSlots(env)), None, []), None)
    else if state.None? && NothingOpen(env, slots.items) && HasContact(AccountSlots(env))
            && !Truthy(slots.name) && !Truthy(slots.phone) then
      Ask(Stored(AwaitingAccountContact, MergeSlots(env.normal, AccountSlots(env), slots), None, []), None)
    else
      Conclude(env, MergeSlots(env.normal, AccountSlots(env), slots))
  }

  function Conclude(env: Env, slots: Slots): Outcome
  {
    if !Ready(env, slots) then Missing(slots)
    else if !slots.confirmed then
      Ask(Stored(AwaitingConfirmation, slots, None, []), Some(SummaryTotal(env, slots.items)))
    else if exists k :: 0 <= k < |slots.items| && !Orderable(slots.items[k]) then Rejected
    else
      Place(ChatCheckout(LinesOf(env, slots.items), slots, env.validPhone(slots.phone.value).value,
                         env.paymentMethod(slots.payment.value).value))
  }

  /** The slots that the turn arrives at before anything is asked about them. */
  function Settled(env: Env, turn: Turn, state: Option<Stored>, reading: Reading): Slots
    requires reading.Continue?
  {
    WithCues(env, turn, reading.slots).(confirmed := Confirms(turn, state, reading.resolved))
  }

  function ChatTurn(env: Env, turn: Turn, state: Option<Stored>): Outcome
  {
    match Read(env, turn, state)
    case Answer(answer) => Ask(answer, None)
    case Continue(slots, resolved) => Finish(env, state, Settled(env, turn, state, Continue(slots, resolved)))
  }
}
