/** A chat order keeps at most one line per product from turn to turn, with one exception. */
module ChatUnique {
  import opened Sums
  import opened ChatCart
  import opened ChatOrder
  import opened ChatLaws
  import opened ChatAnswers
  import opened ChatRuns

  /** Each line of `part` is a line of `whole` with the same product. */
  lemma {:induction false} RecalledProducts(env: Env, items: seq<Item>, k: nat)
    requires Trims(env) && k < |Recalled(env.strip, items)|
    ensures
      ProductFor(env, Recalled(env.strip, items)[k]).Some? ==>
        exists j :: 0 <= j < |items| && ProductFor(env, items[j]) == ProductFor(env, Recalled(env.strip, items)[k])
  {
    hide Trims, Named;
    var n := |items| - 1;
    var front := items[..n];
    var before := Recalled(env.strip, front);
    if k < |before| {
      RecalledProducts(env, front, k);
      if ProductFor(env, before[k]).Some? {
        var j :| 0 <= j < |front| && ProductFor(env, front[j]) == ProductFor(env, before[k]);
        assert items[j] == front[j];
      }
    } else {
      CleanSameProduct(env, items[n]);
    }
  }

  lemma CleanSameProduct(env: Env, item: Item)
    requires Trims(env)
    ensures ProductFor(env, CleanItem(env.strip, item)) == ProductFor(env, item)
  {
    if Truthy(item.product) {
      var t := item.product.value;
      assert Named(env)(env.strip(t)) == Named(env)(t);
    }
  }

  lemma {:induction false} RecalledUnique(env: Env, items: seq<Item>)
    requires Trims(env) && UniqueLines(Named(env), items)
    ensures UniqueLines(Named(env), Recalled(env.strip, items))
  {
    hide Trims, Named, ProductOf;
    if items != [] {
      var n := |items| - 1;
      var front := items[..n];
      var before, last := Recalled(env.strip, front), CleanItem(env.strip, items[n]);
      RecalledUnique(env, front);
      CleanSameProduct(env, items[n]);
      forall k | 0 <= k < |before|
        ensures !SameProduct(Named(env), before[k], last)
      {
        RecalledProducts(env, front, k);
      }
    }
  }

  lemma {:induction false} FilterUnique(resolve: Resolver, items: seq<Item>, p: Item -> bool)
    requires UniqueLines(resolve, items)
    ensures UniqueLines(resolve, Filter(items, p))
  {
    hide SameProduct;
    if items != [] {
      var n := |items| - 1;
      var kept := Filter(items[..n], p);
      FilterUnique(resolve, items[..n], p);
      forall k | 0 <= k < |kept|
        ensures !SameProduct(resolve, kept[k], items[n])
      {
        assert kept[k] in items[..n];
        var j :| 0 <= j < n && items[j] == kept[k];
        assert !SameProduct(resolve, items[j], items[n]);
      }
    }
  }

  lemma {:induction false} MergeAllUnique(resolve: Resolver, items: seq<Item>, candidates: seq<Item>)
    requires UniqueLines(resolve, items)
    ensures UniqueLines(resolve, MergeAllExisting(resolve, items, candidates))
  {
    if candidates != [] {
      var n := |candidates| - 1;
      MergeAllUnique(resolve, items, candidates[..n]);
      MergeExistingUnique(resolve, MergeAllExisting(resolve, items, candidates[..n]), candidates[n]);
    }
  }

  // ---------------------------------------------------------------- one turn

  /** The lines a reading leads to. */
  function ItemsAfter(reading: Reading): seq<Item>
  {
    match reading
    case Answer(state) => state.slots.items
    case Continue(slots, _) => slots.items
  }

  /** "No, add it": the answer to a proposed change that appends the pending line as it is. */
  predicate AppendsPending(env: Env, turn: Turn, state: Option<Stored>)
  {
    && state.Some? && state.value.status == AwaitingProductChange
    && !turn.cancels && !turn.vagueTime && !Truthy(turn.payment) && turn.negates && turn.addCue
    && ProposedItem(env, state.value).Some?
  }

  /** Whatever the message appends as it is, is of a product that has no line yet. */
  predicate AppendsNoSecondLine(env: Env, turn: Turn, state: Option<Stored>)
  {
    AppendsPending(env, turn, state) ==>
      MatchingIndex(Named(env), PreviousItems(env, state.value), ProposedItem(env, state.value).value).None?
  }

  ghost predicate UniqueState(env: Env, state: Option<Stored>)
  {
    state.Some? ==>
      && UniqueLines(Named(env), state.value.slots.items)
      && UniqueLines(Named(env), state.value.previous)
  }

  lemma PlainUnique(env: Env, turn: Turn, previous: Slots)
    requires UniqueLines(Named(env), previous.items) && UniqueLines(Named(env), turn.incoming.items)
    ensures UniqueLines(Named(env), ItemsAfter(ReadPlain(env, turn, previous)))
    ensures ReadPlain(env, turn, previous).Answer? ==>
              UniqueState(env, Some(ReadPlain(env, turn, previous).state))
  {
    hide UniqueLines, SameProduct, DetectOperation, Merged, MatchingIndex, MergeCandidate, AppendItems, ReplaceFirstMatching,
         MergeAllExisting, RemoveItem;
    ItemsMerge(env, turn, previous);
    var resolve, items, candidates := Named(env), previous.items, turn.incoming.items;
    AppendItemsUnique(resolve, items, candidates);
    MergeAllUnique(resolve, items, candidates);
    NothingUnique(resolve);
    if candidates != [] {
      ReplaceFirstUnique(resolve, items, candidates[0]);
      RemoveUnique(resolve, items, candidates[0]);
    }
  }

  lemma NothingUnique(resolve: Resolver)
    ensures UniqueLines(resolve, [])
  {
  }

  lemma ChoiceUnique(env: Env, turn: Turn, state: Stored)
    requires Trims(env) && UniqueState(env, Some(state)) && UniqueLines(Named(env), turn.incoming.items)
    ensures UniqueLines(Named(env), ItemsAfter(ReadChoice(env, turn, state)))
    ensures ReadChoice(env, turn, state).Answer? ==> UniqueState(env, Some(ReadChoice(env, turn, state).state))
  {
    hide UniqueLines, SameProduct, Merged, AppendItems, ReadPlain, Recalled, Filter, Trims, ChoicePending;
    var resolve, base := Named(env), RecalledSlots(env, Some(state));
    RecalledUnique(env, state.slots.items);
    PlainUnique(env, turn, base);
    NothingUnique(resolve);
    FilterUnique(resolve, base.items, (item: Item) => !Incomplete(env, item));
    var kept := DropIncomplete(env, base);
    ItemsMerge(env, turn, kept);
    var pending := ChoicePending(env, state);
    if pending.Some? {
      var chosen := Item(turn.picked, pending.value.quantity);
      AppendItemsUnique(resolve, kept.items, [chosen]);
      ItemsMerge(env, turn, WithItems(kept, AppendItems(resolve, kept.items, [chosen])));
    }
  }

  lemma ChangeUnique(env: Env, turn: Turn, state: Stored)
    requires Trims(env) && UniqueState(env, Some(state)) && UniqueLines(Named(env), turn.incoming.items)
    requires !(!Truthy(turn.payment) && turn.negates && turn.addCue && ProposedItem(env, state).Some?)
    ensures UniqueLines(Named(env), ItemsAfter(ReadChange(env, turn, state)))
    ensures ReadChange(env, turn, state).Answer? ==> UniqueState(env, Some(ReadChange(env, turn, state).state))
  {
    hide UniqueLines, SameProduct, MergeSlots, AppendItems, ReplaceFirstMatching, Recalled, Trims, ChangePending, RecalledPending, Truthy;
    var resolve, base, previous := Named(env), RecalledSlots(env, Some(state)), PreviousItems(env, state);
    RecalledUnique(env, state.slots.items);
    RecalledUnique(env, state.previous);
    AnyItemsMerge(env, turn);
    var candidates := turn.incoming.items;
    AppendItemsUnique(resolve, previous, candidates);
    if ProposedItem(env, state).Some? {
      AppendItemsUnique(resolve, previous, [ProposedItem(env, state).value]);
    }
    if candidates != [] {
      ReplaceFirstUnique(resolve, previous, candidates[0]);
    }
  }

  lemma AddOrReplaceUnique(env: Env, turn: Turn, state: Stored)
    requires Trims(env) && UniqueState(env, Some(state))
    ensures UniqueLines(Named(env), ItemsAfter(ReadAddOrReplace(env, turn, state)))
    ensures ReadAddOrReplace(env, turn, state).Answer? ==> UniqueState(env, Some(ReadAddOrReplace(env, turn, state).state))
  {
    hide UniqueLines, SameProduct, MergeSlots, AppendItems, ReplaceFirstMatching, Recalled, Trims, RecalledPending, Truthy;
    var resolve, base := Named(env), RecalledSlots(env, Some(state));
    RecalledUnique(env, state.slots.items);
    AnyItemsMerge(env, turn);
    NothingUnique(resolve);
    var stored := RecalledPending(env, state);
    var pending := if stored.Some? then stored else First(turn.incoming.items);
    if pending.Some? {
      AppendItemsUnique(resolve, base.items, [pending.value]);
      ReplaceFirstUnique(resolve, base.items, pending.value);
    }
  }

  /** The exception: appending the pending line keeps the lines distinct exactly when no line has its product yet. */
  lemma AppendedPendingUniqueIff(env: Env, turn: Turn, state: Stored)
    requires Trims(env) && UniqueState(env, Some(state)) && AppendsPending(env, turn, Some(state))
    ensures UniqueLines(Named(env), ItemsAfter(Read(env, turn, Some(state))))
       <==> MatchingIndex(Named(env), PreviousItems(env, state), ProposedItem(env, state).value).None?
  {
    hide UniqueLines, SameProduct, Recalled, Trims, ChangePending, RecalledPending, Truthy, MergeSlots;
    RecalledUnique(env, state.slots.items);
    RecalledUnique(env, state.previous);
    AnyItemsMerge(env, turn);
    AppendUnmatched(Named(env), PreviousItems(env, state), ProposedItem(env, state).value);
  }

  lemma PendingIsAppended(env: Env, turn: Turn, state: Stored)
    requires AppendsPending(env, turn, Some(state))
    ensures Read(env, turn, Some(state)).Continue?
  {
    hide Recalled, ChangePending, RecalledPending, Truthy, MergeSlots;
  }

  /** Reading a message keeps the lines of the cart distinct, unless it appends a second line of a product. */
  lemma ReadUnique(env: Env, turn: Turn, state: Option<Stored>)
    requires Trims(env) && UniqueState(env, state) && UniqueLines(Named(env), turn.incoming.items)
    requires AppendsNoSecondLine(env, turn, state)
    ensures UniqueLines(Named(env), ItemsAfter(Read(env, turn, state)))
    ensures Read(env, turn, state).Answer? ==> UniqueState(env, Some(Read(env, turn, state).state))
  {
    hide UniqueLines, ReadPlain, ReadChoice, ReadChange, ReadAddOrReplace, Recalled, Trims, ProposedItem, Truthy;
    NothingUnique(Named(env));
    if state.None? {
      PlainUnique(env, turn, NO_SLOTS);
    } else {
      RecalledUnique(env, state.value.slots.items);
      if !turn.cancels && !turn.vagueTime {
        match state.value.status
        case AwaitingProductChoice => ChoiceUnique(env, turn, state.value);
        case AwaitingProductChange =>
          if AppendsPending(env, turn, state) {
            AppendedPendingUniqueIff(env, turn, state.value);
            PendingIsAppended(env, turn, state.value);
          } else {
            ChangeUnique(env, turn, state.value);
          }
        case AwaitingAddOrReplace => AddOrReplaceUnique(env, turn, state.value);
        case _ => PlainUnique(env, turn, RecalledSlots(env, state));
      }
    }
  }

  /** What a turn stores or orders has at most one line per product, unless it appends a second one. */
  lemma TurnKeepsUnique(env: Env, turn: Turn, state: Option<Stored>)
    requires Trims(env) && UniqueState(env, state) && UniqueLines(Named(env), turn.incoming.items)
    requires AppendsNoSecondLine(env, turn, state)
    ensures
      match ChatTurn(env, turn, state)
      case Ask(next, _) => UniqueState(env, Some(next))
      case Place(order) => UniqueLines(Named(env), order.slots.items)
      case _ => true
  {
    hide UniqueLines, AppendsNoSecondLine, Read, Ready, LinesOf, FirstBare, NothingOpen, SummaryTotal, Trims, Named, WithCues;
    ReadUnique(env, turn, state);
    NothingUnique(Named(env));
    var reading := Read(env, turn, state);
    if reading.Continue? {
      CuesKeepItems(env, turn, reading.slots);
    }
  }

  lemma CuesKeepItems(env: Env, turn: Turn, slots: Slots)
    ensures WithCues(env, turn, slots).items == slots.items
  {
  }

  // ---------------------------------------------------------------- whole conversations

  /** The catalog answers to the same names throughout. */
  ghost predicate Names(env: Env, resolve: Resolver)
  {
    Trims(env) && forall t: string :: Named(env)(t) == resolve(t)
  }

  /** Every message offers distinct items, and none appends a second line of a product. */
  ghost predicate Orderly(events: seq<Event>, resolve: Resolver)
  {
    forall k :: 0 <= k < |events| && events[k].Heard? ==>
      && Names(events[k].env, resolve)
      && UniqueLines(resolve, events[k].turn.incoming.items)
      && AppendsNoSecondLine(events[k].env, events[k].turn, FoundState(Conversation(events[..k]), events[k]))
  }

  lemma SameNamesSameUnique(env: Env, resolve: Resolver, items: seq<Item>)
    requires Names(env, resolve)
    ensures UniqueLines(Named(env), items) <==> UniqueLines(resolve, items)
  {
    assert forall item :: ProductOf(Named(env), item) == ProductOf(resolve, item);
    assert forall a, b :: SameProduct(Named(env), a, b) <==> SameProduct(resolve, a, b);
  }

  ghost predicate UniqueMessages(history: seq<Message>, resolve: Resolver)
  {
    forall m :: m in history && m.StateMessage? ==>
      UniqueLines(resolve, m.state.slots.items) && UniqueLines(resolve, m.state.previous)
  }

  /** In an orderly conversation every stored cart has at most one line per product. */
  lemma {:induction false} ConversationKeepsUnique(events: seq<Event>, resolve: Resolver)
    requires Orderly(events, resolve)
    ensures UniqueMessages(Conversation(events), resolve)
  {
    hide UniqueLines, AppendsNoSecondLine, Names, After;
    if events != [] {
      var n := |events| - 1;
      var front := events[..n];
      assert forall k :: 0 <= k < n ==> front[..k] == events[..k] && front[k] == events[k];
      ConversationKeepsUnique(front, resolve);
      EventKeepsUnique(Conversation(front), events[n], resolve);
    }
  }

  lemma EventKeepsUnique(history: seq<Message>, event: Event, resolve: Resolver)
    requires UniqueMessages(history, resolve)
    requires event.Heard? ==>
               && Names(event.env, resolve) && UniqueLines(resolve, event.turn.incoming.items)
               && AppendsNoSecondLine(event.env, event.turn, FoundState(history, event))
    ensures UniqueMessages(After(history, event), resolve)
  {
    hide UniqueLines, AppendsNoSecondLine, Names, ChatTurn, FindState;
    if event.Heard? {
      ReplyIsUnique(history, event, resolve);
    }
  }

  lemma ReplyIsUnique(history: seq<Message>, event: Event, resolve: Resolver)
    requires UniqueMessages(history, resolve) && event.Heard?
    requires Names(event.env, resolve) && UniqueLines(resolve, event.turn.incoming.items)
    requires AppendsNoSecondLine(event.env, event.turn, FoundState(history, event))
    ensures
      match Reply(history, event)
      case Ask(next, _) => UniqueLines(resolve, next.slots.items) && UniqueLines(resolve, next.previous)
      case Place(order) => UniqueLines(resolve, order.slots.items)
      case _ => true
  {
    hide UniqueLines, AppendsNoSecondLine, ChatTurn, FindState;
    var state := FoundState(history, event);
    SameNamesSameUnique(event.env, resolve, event.turn.incoming.items);
    if state.Some? {
      RecentIsPart(history, Found(history, event).value);
      SameNamesSameUnique(event.env, resolve, state.value.slots.items);
      SameNamesSameUnique(event.env, resolve, state.value.previous);
    }
    TurnKeepsUnique(event.env, event.turn, state);
    match Reply(history, event)
    case Ask(next, _) =>
      SameNamesSameUnique(event.env, resolve, next.slots.items);
      SameNamesSameUnique(event.env, resolve, next.previous);
    case Place(order) => SameNamesSameUnique(event.env, resolve, order.slots.items);
    case _ =>
  }

  /** And every order it places has at most one line per product. */
  lemma OrdersAreUnique(events: seq<Event>, event: Event, resolve: Resolver)
    requires Orderly(events + [event], resolve) && event.Heard? && Reply(Conversation(events), event).Place?
    ensures UniqueLines(resolve, Reply(Conversation(events), event).order.slots.items)
  {
    hide UniqueLines, AppendsNoSecondLine, Names, Reply, Conversation, FindState;
    var all, n := events + [event], |events|;
    assert all[..n] == events && all[n] == event;
    assert forall k :: 0 <= k < n ==> all[..k] == events[..k] && all[k] == events[k];
    ConversationKeepsUnique(events, resolve);
    ReplyIsUnique(Conversation(events), event, resolve);
  }
}
