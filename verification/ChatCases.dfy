/**
 * Concrete conversations in a shop with one product: the ordinary course, and the inputs on
 * which a law of the chat order fails.
 */
module ChatCases {
  import opened Sums
  import opened Pricing
  import opened Ledger
  import opened ChatCart
  import opened ChatOrder
  import opened ChatLaws
  import opened ChatAnswers
  import opened ChatRuns
  import opened OneLineSale

  // ---------------------------------------------------------------- an order without a quote

  const BOTTLE := Product("Vinh Hao", "VH", 2000, Water, 6000000, None, 10, true)

  function ShopEnv(): Env
  {
    Env(map[0 := BOTTLE], (t: string) => if t == "vinh hao" then Some(0) else None,
        (t: string) => if t == "gas" then Some(Gas) else None,
        (t: string) => t, (t: string) => t, (t: string) => Some(t), (t: string) => Some(Cod),
        (t: string) => true, (t: string) => true, None, None)
  }

  function Says(affirms: bool, incoming: Slots): Turn
  {
    Turn(affirms, false, false, false, false, false, false, false, false, false,
         None, None, None, (p: Option<string>) => None, None, false, incoming)
  }

  const BOTTLES := Item(Some("vinh hao"), Some(2))
  const SOME_GAS := Item(Some("gas"), Some(1))
  const WISHES := Slots([BOTTLES, SOME_GAS], Some("An"), Some("0901"), Some("5 Le Loi"), None, Some("cod"), false)
  const WHICH_GAS := Stored(AwaitingProductChoice, WISHES, Some(SOME_GAS), [])

  /** "Two bottles and some gas, for An at ...": everything is there except which gas. */
  lemma AsksWhichGas()
    ensures ChatTurn(ShopEnv(), Says(false, WISHES), None) == Ask(WHICH_GAS, None)
  {
    var env := ShopEnv();
    assert WISHES.items[..1] == [BOTTLES];
    assert IndexWhere([BOTTLES], (item: Item) => IsBare(env, item)).None?;
    assert FirstBare(env, WISHES.items) == Some(SOME_GAS);
    var named := Filter(WISHES.items, (item: Item) => Truthy(item.product));
    assert Read(env, Says(false, WISHES), None) == Continue(WISHES, false);
  }

  lemma LinesReadBack()
    ensures Recalled(ShopEnv().strip, WISHES.items) == WISHES.items
    ensures Recalled(ShopEnv().strip, [SOME_GAS]) == [SOME_GAS]
  {
    hide Recalled;
    var strip := ShopEnv().strip;
    assert Canonical(strip, BOTTLES) && Canonical(strip, SOME_GAS);
    RecalledIff(strip, WISHES.items);
    RecalledIff(strip, [SOME_GAS]);
  }

  lemma WishesReadBack()
    ensures RecalledSlots(ShopEnv(), Some(WHICH_GAS)) == WISHES
    ensures RecalledPending(ShopEnv(), WHICH_GAS) == Some(SOME_GAS)
  {
    hide Recalled;
    LinesReadBack();
  }

  lemma GasIsDropped()
    ensures DropIncomplete(ShopEnv(), WISHES) == WISHES.(items := [BOTTLES])
  {
    var complete := (item: Item) => !Incomplete(ShopEnv(), item);
    assert WISHES.items[..1] == [BOTTLES];
    assert Filter([BOTTLES], complete) == [BOTTLES];
  }

  /** "ok" to that question affirms: the open line is dropped and the rest is ordered. */
  lemma OkOrdersTheRest()
    ensures
      var outcome := ChatTurn(ShopEnv(), Says(true, NO_SLOTS), Some(WHICH_GAS));
      outcome.Place? && outcome.order.lines == [CartLine(0, 2, false)]
  {
    hide DropIncomplete, RecalledSlots, RecalledPending;
    var env, ok := ShopEnv(), Says(true, NO_SLOTS);
    WishesReadBack();
    GasIsDropped();
    var rest := WISHES.(items := [BOTTLES]);
    assert Read(env, ok, Some(WHICH_GAS)) == Continue(rest, true);
    var agreed := rest.(confirmed := true);
    assert Settled(env, ok, Some(WHICH_GAS), Continue(rest, true)) == agreed;
    assert ProductFor(env, BOTTLES) == Some(0);
    assert FirstBare(env, [BOTTLES]).None?;
    assert Ready(env, agreed);
    assert LinesOf(env, [BOTTLES]) == [CartLine(0, 2, false)];
    assert MergeSlots(env.normal, AccountSlots(env), agreed) == agreed;
  }

  /** Not every chat order was quoted: here one is placed in a conversation without any summary. */
  lemma OrderWithoutQuote()
    ensures
      var history := Conversation([Heard(ShopEnv(), Says(false, WISHES), 0, true)]);
      var ok := Heard(ShopEnv(), Says(true, NO_SLOTS), 1, true);
      && Reply(history, ok).Place?
      && Reply(history, ok).order.lines == [CartLine(0, 2, false)]
      && forall m :: m in history && m.StateMessage? ==> m.quoted.None?
  {
    hide ChatTurn;
    var opening := Heard(ShopEnv(), Says(false, WISHES), 0, true);
    AsksWhichGas();
    OkOrdersTheRest();
    assert [opening][..0] == [];
    assert FoundState([], opening).None?;
    var history := [Chatter, StateMessage(WHICH_GAS, None, 0)];
    assert Conversation([opening]) == history;
    assert FoundState(history, Heard(ShopEnv(), Says(true, NO_SLOTS), 1, true)) == Some(WHICH_GAS);
  }

  // ---------------------------------------------------------------- an order with a quote

  const PLAIN_WISHES := WISHES.(items := [BOTTLES])
  const SUMMARY := Stored(AwaitingConfirmation, PLAIN_WISHES, None, [])

  lemma ShopEnvTrims()
    ensures Trims(ShopEnv())
  {
  }

  lemma BottlesAreReady(confirmed: bool)
    ensures Ready(ShopEnv(), PLAIN_WISHES.(confirmed := confirmed)) && FirstBare(ShopEnv(), [BOTTLES]).None?
    ensures MergeSlots(ShopEnv().normal, AccountSlots(ShopEnv()), PLAIN_WISHES.(confirmed := confirmed))
         == PLAIN_WISHES.(confirmed := confirmed)
  {
    assert ProductFor(ShopEnv(), BOTTLES) == Some(0);
  }

  /** Two bottles at 60 000 dong, and 5 000 for bringing each. */
  lemma BottlesQuoted()
    ensures ChatTurn(ShopEnv(), Says(false, PLAIN_WISHES), None) == Ask(SUMMARY, Some(13000000))
  {
    hide Ready, MergeSlots, FirstBare, SummaryTotal;
    var env, turn := ShopEnv(), Says(false, PLAIN_WISHES);
    BottlesAreReady(false);
    assert Read(env, turn, None) == Continue(PLAIN_WISHES, false) by {
      ItemsSet(env, turn);
    }
    assert Settled(env, turn, None, Continue(PLAIN_WISHES, false)) == PLAIN_WISHES;
    assert ProductFor(env, BOTTLES) == Some(0);
    BottlesTotal();
  }

  lemma ItemsSet(env: Env, turn: Turn)
    requires turn == Says(false, PLAIN_WISHES)
    ensures ReadPlain(env, turn, NO_SLOTS) == Continue(PLAIN_WISHES, false)
  {
    hide Filter;
  }

  lemma BottlesTotal()
    ensures SummaryTotal(ShopEnv(), [BOTTLES]) == 13000000
  {
    var env := ShopEnv();
    assert ProductFor(env, BOTTLES) == Some(0);
    SumAppend([], BOTTLES, ItemValue(env));
    SumAppend([], BOTTLES, WaterUnits(env));
    assert [] + [BOTTLES] == [BOTTLES];
  }

  lemma OkOrdersTheBottles()
    ensures
      var outcome := ChatTurn(ShopEnv(), Says(true, NO_SLOTS), Some(SUMMARY));
      outcome.Place? && outcome.order.lines == [CartLine(0, 2, false)]
  {
    hide Ready, MergeSlots, FirstBare, RecalledSlots;
    var env, ok := ShopEnv(), Says(true, NO_SLOTS);
    BottlesAreReady(true);
    SummaryReadBack();
    assert MergeSlots(env.normal, PLAIN_WISHES, NO_SLOTS) == PLAIN_WISHES by {
      NothingMerged();
    }
    assert Read(env, ok, Some(SUMMARY)) == Continue(PLAIN_WISHES, false);
    assert Settled(env, ok, Some(SUMMARY), Continue(PLAIN_WISHES, false)) == PLAIN_WISHES.(confirmed := true);
    assert ProductFor(env, BOTTLES) == Some(0);
    assert LinesOf(env, [BOTTLES]) == [CartLine(0, 2, false)];
  }

  lemma NothingMerged()
    ensures MergeSlots(ShopEnv().normal, PLAIN_WISHES, NO_SLOTS) == PLAIN_WISHES
  {
  }

  lemma SummaryReadBack()
    ensures RecalledSlots(ShopEnv(), Some(SUMMARY)) == PLAIN_WISHES
  {
    hide Recalled;
    var strip := ShopEnv().strip;
    assert Canonical(strip, BOTTLES);
    RecalledIff(strip, [BOTTLES]);
  }

  /** After the opening words, the next message meets the summary. */
  lemma SummaryIsFound(turn: Turn)
    ensures
      var history := Conversation([Heard(ShopEnv(), Says(false, PLAIN_WISHES), 0, true)]);
      && OrderMessage !in Recent(history)
      && Found(history, Heard(ShopEnv(), turn, 1, true)) == Some(StateMessage(SUMMARY, Some(13000000), 0))
  {
    hide ChatTurn;
    var opening := Heard(ShopEnv(), Says(false, PLAIN_WISHES), 0, true);
    BottlesQuoted();
    assert [opening][..0] == [];
    assert FoundState([], opening).None?;
    assert Conversation([opening]) == [Chatter, StateMessage(SUMMARY, Some(13000000), 0)];
  }

  /** The ordinary course of a conversation: a summary with its total, a bare confirmation, and the order. */
  lemma QuotedThenOrdered()
    ensures
      var history := Conversation([Heard(ShopEnv(), Says(false, PLAIN_WISHES), 0, true)]);
      var ok := Heard(ShopEnv(), Says(true, NO_SLOTS), 1, true);
      && Found(history, ok) == Some(StateMessage(SUMMARY, Some(13000000), 0))
      && Reply(history, ok).Place?
      && Reply(history, ok).order.lines == [CartLine(0, 2, false)]
  {
    hide ChatTurn, Conversation;
    OkOrdersTheBottles();
    SummaryIsFound(Says(true, NO_SLOTS));
  }

  lemma SummaryOrigin()
    ensures Origin([Heard(ShopEnv(), Says(false, PLAIN_WISHES), 0, true)], 0, StateMessage(SUMMARY, Some(13000000), 0))
  {
    hide ChatTurn;
    BottlesQuoted();
    var opening := Heard(ShopEnv(), Says(false, PLAIN_WISHES), 0, true);
    assert [opening][..0] == [];
    assert FoundState([], opening).None?;
  }

  /** And the row that the checkout stores for it carries the 130 000 dong of the summary. */
  lemma QuotedThenCharged(request: CheckoutRequest)
    requires request.items == [CartLine(0, 2, false)] && request.couponCode.None?
    ensures
      var db := DB(map[0 := BOTTLE], [], map[], []);
      |Checkout(db, request).orders| == 1 && Checkout(db, request).orders[0].total == 13000000
  {
    hide Conversation, Reply, Found, Trims, Checkout, CheckoutAnswer, Origin, LeavesLines;
    var db := DB(map[0 := BOTTLE], [], map[], []);
    var env := ShopEnv();
    var opening, ok := Heard(env, Says(false, PLAIN_WISHES), 0, true), Heard(env, Says(true, NO_SLOTS), 1, true);
    QuotedThenOrdered();
    SummaryOrigin();
    ShopEnvTrims();
    NothingNewLeavesLines(env, ok.turn, SUMMARY);
    LineSold(db, request, CartLine(0, 2, false));
    ChargedAsQuoted([opening], ok, 0, db, request);
  }

  // ---------------------------------------------------------------- a confirmation that changes the order

  const FIVE_BOTTLES := Item(Some("vinh hao"), Some(5))

  /** "I confirm five bottles", said to the summary of two. */
  lemma ReadsFive()
    ensures ReadPlain(ShopEnv(), Says(true, NO_SLOTS.(items := [FIVE_BOTTLES])), PLAIN_WISHES)
         == Continue(PLAIN_WISHES.(items := [FIVE_BOTTLES]), false)
  {
    hide MergeItems;
    var env, turn := ShopEnv(), Says(true, NO_SLOTS.(items := [FIVE_BOTTLES]));
    var resolve := Named(env);
    assert MergeItems(env.normal, [BOTTLES], []) == [BOTTLES] && MergeItems(env.normal, [], [BOTTLES]) == [BOTTLES] by {
      BothMerges(env);
    }
    assert ProductFor(env, BOTTLES) == Some(0) && ProductFor(env, FIVE_BOTTLES) == Some(0);
    assert [FIVE_BOTTLES][..0] == [] && [BOTTLES][..0] == [];
    assert MatchingIndex(resolve, [BOTTLES], FIVE_BOTTLES) == Some(0);
    assert MergeAllExisting(resolve, [BOTTLES], [FIVE_BOTTLES]) == [FIVE_BOTTLES];
    assert Filter([FIVE_BOTTLES], (item: Item) => Truthy(item.product)) == [FIVE_BOTTLES];
    assert DetectOperation(env, turn, [BOTTLES]) == MergeLines;
  }

  lemma BothMerges(env: Env)
    ensures MergeItems(env.normal, [BOTTLES], []) == [BOTTLES] && MergeItems(env.normal, [], [BOTTLES]) == [BOTTLES]
  {
  }

  lemma FiveAreReady()
    ensures
      var slots := PLAIN_WISHES.(items := [FIVE_BOTTLES], confirmed := true);
      && Ready(ShopEnv(), slots) && FirstBare(ShopEnv(), [FIVE_BOTTLES]).None?
      && MergeSlots(ShopEnv().normal, AccountSlots(ShopEnv()), slots) == slots
  {
    assert ProductFor(ShopEnv(), FIVE_BOTTLES) == Some(0);
  }

  lemma OrdersFive()
    ensures
      var outcome := ChatTurn(ShopEnv(), Says(true, NO_SLOTS.(items := [FIVE_BOTTLES])), Some(SUMMARY));
      outcome.Place? && outcome.order.lines == [CartLine(0, 5, false)]
  {
    hide Ready, MergeSlots, FirstBare, RecalledSlots, ReadPlain;
    var env, turn := ShopEnv(), Says(true, NO_SLOTS.(items := [FIVE_BOTTLES]));
    SummaryReadBack();
    ReadsFive();
    FiveAreReady();
    var slots := PLAIN_WISHES.(items := [FIVE_BOTTLES]);
    assert Read(env, turn, Some(SUMMARY)) == Continue(slots, false);
    assert Settled(env, turn, Some(SUMMARY), Continue(slots, false)) == slots.(confirmed := true);
    assert ProductFor(env, FIVE_BOTTLES) == Some(0);
    assert LinesOf(env, [FIVE_BOTTLES]) == [CartLine(0, 5, false)];
  }

  /** A confirming message may itself change a quantity: two bottles are summarised, five are ordered. */
  lemma ConfirmedWithNewLines()
    ensures
      var history := Conversation([Heard(ShopEnv(), Says(false, PLAIN_WISHES), 0, true)]);
      var five := Heard(ShopEnv(), Says(true, NO_SLOTS.(items := [FIVE_BOTTLES])), 1, true);
      && Found(history, five) == Some(StateMessage(SUMMARY, Some(13000000), 0))
      && Reply(history, five).Place?
      && Reply(history, five).order.lines == [CartLine(0, 5, false)]
      && !AsQuoted(ShopEnv(), SUMMARY, Some(13000000), ShopEnv(), Reply(history, five).order)
  {
    hide ChatTurn, CartValue, CartFee, Conversation;
    OrdersFive();
    SummaryIsFound(Says(true, NO_SLOTS.(items := [FIVE_BOTTLES])));
    assert [CartLine(0, 5, false)][0].quantity == 5 && SUMMARY.slots.items[0].quantity == Some(2);
  }

  // ---------------------------------------------------------------- two lines of one product

  function AsksToReplace(): Turn { Says(false, NO_SLOTS.(items := [FIVE_BOTTLES])).(replaceCue := true) }
  function NoAddIt(): Turn { Says(false, NO_SLOTS).(negates := true, addCue := true) }

  const PROPOSAL := Stored(AwaitingProductChange, PLAIN_WISHES.(items := [FIVE_BOTTLES]), Some(FIVE_BOTTLES), [BOTTLES])

  /** "Change it to five bottles", said of the product that the cart already has. */
  lemma ProposesFive()
    ensures ReadPlain(ShopEnv(), AsksToReplace(), PLAIN_WISHES) == Answer(PROPOSAL)
  {
    hide MergeItems;
    var env, turn := ShopEnv(), AsksToReplace();
    BothMerges(env);
    assert ProductFor(env, BOTTLES) == Some(0) && ProductFor(env, FIVE_BOTTLES) == Some(0);
    assert [FIVE_BOTTLES][..0] == [] && [BOTTLES][..0] == [];
    assert MatchingIndex(Named(env), [BOTTLES], FIVE_BOTTLES) == Some(0);
    assert Filter([FIVE_BOTTLES], (item: Item) => Truthy(item.product)) == [FIVE_BOTTLES];
  }

  /**
   * "Change it to five bottles", and to the question whether to change it: "no, add it".
   * The cart then has two lines of one product, from a summary that had one.
   */
  lemma SecondLineOfAProduct()
    ensures
      var asked := ChatTurn(ShopEnv(), AsksToReplace(), Some(SUMMARY));
      && asked == Ask(PROPOSAL, None)
      && LinesGoneOnWith(ShopEnv(), NoAddIt(), PROPOSAL) == Some([BOTTLES, FIVE_BOTTLES])
      && !UniqueLines(Named(ShopEnv()), [BOTTLES, FIVE_BOTTLES])
      && UniqueLines(Named(ShopEnv()), SUMMARY.slots.items)
  {
    hide Recalled, Canonical, ReadPlain, ReadChange, MergeItems, ReplaceFirstMatching;
    var env := ShopEnv();
    SummaryReadBack();
    ProposesFive();
    CanonicalBottles();
    ProposalAnswers(env, AsksToReplace(), PLAIN_WISHES, env, NoAddIt());
    assert ProductFor(env, BOTTLES) == Some(0) && ProductFor(env, FIVE_BOTTLES) == Some(0);
    assert [BOTTLES] + [FIVE_BOTTLES] == [BOTTLES, FIVE_BOTTLES];
    assert SameProduct(Named(env), [BOTTLES, FIVE_BOTTLES][0], [BOTTLES, FIVE_BOTTLES][1]);
  }

  lemma CanonicalBottles()
    ensures AllCanonical(ShopEnv(), [BOTTLES]) && AllCanonical(ShopEnv(), [FIVE_BOTTLES])
  {
  }
}
