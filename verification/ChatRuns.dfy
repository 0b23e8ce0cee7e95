/** Whole conversations: which stored state a message meets, and what that makes of the orders placed. */
module ChatRuns {
  import opened Sums
  import opened Ledger
  import opened LedgerInvariants
  import opened LedgerRuns
  import opened ChatCart
  import opened ChatOrder
  import opened ChatKeys
  import opened ChatLaws

  // ---------------------------------------------------------------- histories

  /** A message, as far as its metadata matters. Times are in microseconds. */
  datatype Message =
    | Chatter
    | StateMessage(state: Stored, quoted: Option<int>, at: int)
    | OrderMessage   // an order was recorded, or a change to it was requested

  const WINDOW: nat := 10
  const STATE_TTL: int := 30 * 60 * 1000000

  function Recent(history: seq<Message>): seq<Message>
  {
    if |history| <= WINDOW then history else history[|history| - WINDOW..]
  }

  /**
   * _find_order_state: the latest stored state, if it is fresh and not cancelled. Only an
   * affirmation looks past a recorded order.
   */
  function FindState(history: seq<Message>, affirms: bool, now: int): (r: Option<Message>)
    ensures r.Some? ==>
              && r.value in history && r.value.StateMessage?
              && r.value.state.status != OrderCancelled && now - r.value.at <= STATE_TTL
  {
    if history == [] then None
    else
      var n := |history| - 1;
      match history[n]
      case Chatter => FindState(history[..n], affirms, now)
      case OrderMessage => if affirms then FindState(history[..n], affirms, now) else None
      case StateMessage(state, quoted, at) =>
        if STATE_TTL < now - at || state.status == OrderCancelled then None else Some(history[n])
  }

  /** The loop over the messages, latest first. */
  method FindOrderState(history: seq<Message>, affirms: bool, now: int) returns (found: Option<Message>)
    ensures found == FindState(history, affirms, now)
  {
    var i := |history|;
    assert history[..i] == history;
    while 0 < i
      invariant i <= |history|
      invariant FindState(history, affirms, now) == FindState(history[..i], affirms, now)
    {
      i := i - 1;
      assert history[..i + 1][..i] == history[..i];
      match history[i]
      case Chatter =>
      case OrderMessage =>
        if !affirms {
          return None;
        }
      case StateMessage(state, quoted, at) =>
        return if STATE_TTL < now - at || state.status == OrderCancelled then None else Some(history[i]);
    }
    found := None;
  }

  /** Messages after the last stored state: chatter never matters, a recorded order only to a message that does not affirm. */
  lemma {:induction false} WhatFollowsAState(history: seq<Message>, tail: seq<Message>, affirms: bool, now: int)
    requires forall m :: m in tail ==> !m.StateMessage?
    ensures FindState(history + tail, affirms, now)
         == if affirms || OrderMessage !in tail then FindState(history, affirms, now) else None
  {
    if tail == [] {
      assert history + tail == history;
    } else {
      var n := |tail| - 1;
      assert tail == tail[..n] + [tail[n]];
      assert (history + tail)[..|history + tail| - 1] == history + tail[..n];
      WhatFollowsAState(history, tail[..n], affirms, now);
    }
  }

  // ---------------------------------------------------------------- conversations

  datatype Event =
    | Heard(env: Env, turn: Turn, at: int, created: bool)   // an order turn; `created`: checkout succeeded, if it came to that
    | Other(reply: bool)                                    // a message outside the order flow

  function Found(history: seq<Message>, event: Event): Option<Message>
    requires event.Heard?
  {
    FindState(Recent(history), event.turn.affirms, event.at)
  }

  function FoundState(history: seq<Message>, event: Event): Option<Stored>
    requires event.Heard?
  {
    var found := Found(history, event);
    if found.Some? then Some(found.value.state) else None
  }

  function Reply(history: seq<Message>, event: Event): Outcome
    requires event.Heard?
  {
    if OrderMessage in Recent(history) && event.turn.asksForChange then ChangeRequested
    else ChatTurn(event.env, event.turn, FoundState(history, event))
  }

  function After(history: seq<Message>, event: Event): seq<Message>
  {
    if event.Other? then history + (if event.reply then [Chatter, Chatter] else [Chatter])
    else
      match Reply(history, event)
      case ChangeRequested => history + [Chatter, OrderMessage]
      case Ask(state, quoted) => history + [Chatter, StateMessage(state, quoted, event.at)]
      case Place(_) => if event.created then history + [Chatter, OrderMessage] else history + [Chatter]
      case Rejected => history
  }

  function Conversation(events: seq<Event>): seq<Message>
  {
    if events == [] then [] else After(Conversation(events[..|events| - 1]), events[|events| - 1])
  }

  /** Event k of the conversation is the one whose reply carries the message. */
  predicate Origin(events: seq<Event>, k: nat, m: Message)
    requires m.StateMessage?
  {
    && k < |events| && events[k].Heard? && events[k].at == m.at
    && Reply(Conversation(events[..k]), events[k]) == Ask(m.state, m.quoted)
  }

  lemma {:induction false} MessagesHaveOrigins(events: seq<Event>, m: Message)
    requires m in Conversation(events) && m.StateMessage?
    ensures exists k: nat :: Origin(events, k, m)
  {
    hide Reply;
    if events != [] {
      var n := |events| - 1;
      var front := events[..n];
      if m in Conversation(front) {
        MessagesHaveOrigins(front, m);
        var k: nat :| Origin(front, k, m);
        assert front[..k] == events[..k];
        assert Origin(events, k, m);
      } else {
        assert Origin(events, n, m);
      }
    }
  }

  /** Whatever the conversation, the summaries are the messages that carry a quote. */
  lemma QuotedIffSummary(events: seq<Event>, m: Message)
    requires m in Conversation(events) && m.StateMessage?
    ensures m.quoted.Some? <==> m.state.status == AwaitingConfirmation
  {
    hide ChatTurn, Conversation;
    MessagesHaveOrigins(events, m);
    var k: nat :| Origin(events, k, m);
    SummaryIsReady(events[k].env, events[k].turn, FoundState(Conversation(events[..k]), events[k]));
  }

  /**
   * The order gate over every conversation: an order is placed only by an affirmation
   * that meets a fresh state. That state quoted a total exactly when it was a summary;
   * otherwise it was a product choice with an incomplete line.
   */
  lemma GateInEveryConversation(events: seq<Event>, event: Event)
    requires event.Heard? && Reply(Conversation(events), event).Place?
    ensures event.turn.affirms
    ensures
      var found := Found(Conversation(events), event);
      && found.Some? && event.at - found.value.at <= STATE_TTL
      && (found.value.quoted.Some? <==> found.value.state.status == AwaitingConfirmation)
      && (found.value.quoted.None? ==> ChoiceIsOpen(event.env, found.value.state))
  {
    hide ChatTurn, Conversation, ChoiceIsOpen;
    var history := Conversation(events);
    OrderGate(event.env, event.turn, FoundState(history, event));
    RecentIsPart(history, Found(history, event).value);
    QuotedIffSummary(events, Found(history, event).value);
  }

  lemma RecentIsPart(history: seq<Message>, m: Message)
    requires m in Recent(history)
    ensures m in history
  {
  }

  /** A cancelled order is forgotten: the next message finds no state, whatever it says. */
  lemma CancelForgets(history: seq<Message>, event: Event, next: Event)
    requires event.Heard? && event.turn.cancels && FoundState(history, event).Some?
    requires Reply(history, event) != ChangeRequested && next.Heard?
    ensures FoundState(After(history, event), next).None?
  {
    hide FindState;
    var after := After(history, event);
    var recent := Recent(after);
    assert after == history + [Chatter, StateMessage(Stored(OrderCancelled, NO_SLOTS, None, []), None, event.at)];
    assert recent[|recent| - 1] == after[|after| - 1];
    LatestStateDecides(recent, next.turn.affirms, next.at);
  }

  lemma LatestStateDecides(history: seq<Message>, affirms: bool, now: int)
    requires history != [] && history[|history| - 1].StateMessage?
    requires history[|history| - 1].state.status == OrderCancelled
    ensures FindState(history, affirms, now).None?
  {
  }

  // ---------------------------------------------------------------- charged as quoted

  lemma OriginReply(events: seq<Event>, k: nat, event: Event)
    requires event.Heard? && FoundState(Conversation(events), event).Some?
    requires Origin(events, k, Found(Conversation(events), event).value)
    ensures
      var found := Found(Conversation(events), event).value;
      ChatTurn(events[k].env, events[k].turn, FoundState(Conversation(events[..k]), events[k])) == Ask(found.state, found.quoted)
  {
    hide ChatTurn, Conversation;
  }

  /**
   * In every conversation, while the products and prices of the stored lines have not
   * changed since event k stored them: the order placed is the quoted one, line by line
   * and in its total, if and only if the stored state is a summary and the message leaves
   * its lines. An order that comes from a product choice never is.
   */
  lemma OrderIsAsQuotedIff(events: seq<Event>, event: Event, k: nat)
    requires event.Heard? && Reply(Conversation(events), event).Place?
    requires Found(Conversation(events), event).Some? && Origin(events, k, Found(Conversation(events), event).value)
    requires Trims(event.env)
    requires SameOffer(events[k].env, event.env, Found(Conversation(events), event).value.state.slots.items)
    ensures
      var found := Found(Conversation(events), event).value;
      var order := Reply(Conversation(events), event).order;
      AsQuoted(events[k].env, found.state, found.quoted, event.env, order)
      <==> found.state.status == AwaitingConfirmation && LeavesLines(event.env, event.turn, found.state)
  {
    hide ChatTurn, Conversation, Trims, SameOffer, AsQuoted, LeavesLines;
    OriginReply(events, k, event);
    PlacedAsQuotedIff(events[k].env, events[k].turn, FoundState(Conversation(events[..k]), events[k]), event.env, event.turn);
  }

  /**
   * In every conversation: when a message confirms the summary that event k gave, leaves
   * its lines, and the order is created, the total of the order row is the total quoted,
   * provided the products and prices of the lines did not change in between.
   */
  lemma ChargedAsQuoted(events: seq<Event>, event: Event, k: nat, db: DB, request: CheckoutRequest)
    requires event.Heard? && Reply(Conversation(events), event).Place?
    requires Found(Conversation(events), event).Some? && Origin(events, k, Found(Conversation(events), event).value)
    requires Found(Conversation(events), event).value.state.status == AwaitingConfirmation
    requires LeavesLines(event.env, event.turn, Found(Conversation(events), event).value.state)
    requires Trims(event.env)
    requires SameOffer(events[k].env, event.env, Found(Conversation(events), event).value.state.slots.items)
    requires request.items == Reply(Conversation(events), event).order.lines && request.couponCode.None?
    requires CatalogOk(db.products) && SamePrices(event.env.catalog, db.products, request.items)
    requires FindKey(db.orders, request.key).None? && CheckoutAnswer(db, request).Some?
    ensures |Checkout(db, request).orders| == |db.orders| + 1
    ensures Found(Conversation(events), event).value.quoted == Some(Checkout(db, request).orders[|db.orders|].total)
  {
    hide ChatTurn, Conversation, SamePrices, CatalogOk, Trims, SameOffer, Checkout, CheckoutAnswer, SummaryTotal, LinesOf,
         Origin, CartValue, CartFee, LeavesLines;
    OrderIsAsQuotedIff(events, event, k);
    var order := Reply(Conversation(events), event).order;
    PlacedLines(event.env, event.turn, FoundState(Conversation(events), event));
    ChargeIsQuote(event.env, order.slots.items, db, request);
    SummaryIsCartTotal(event.env, order.slots.items);
  }

  // ---------------------------------------------------------------- confirming twice

  /** Two bare confirmations of one summary use the same idempotency key, whatever happened to the catalog in between. */
  lemma SameKeyTwice(digest: string -> Id, conversation: string, env: Env, later: Env, first: Turn, second: Turn, state: Stored)
    requires state.status == AwaitingConfirmation && BareConfirmation(first) && BareConfirmation(second)
    requires later == env.(catalog := later.catalog, find := later.find)
    requires ChatTurn(env, first, Some(state)).Place? && ChatTurn(later, second, Some(state)).Place?
    ensures KeyOf(digest, conversation, ChatTurn(env, first, Some(state)).order.slots)
         == KeyOf(digest, conversation, ChatTurn(later, second, Some(state)).order.slots)
  {
    hide KeyOf, Fingerprint, Ready, LinesOf, FirstBare, Recalled;
    BareOrderSlots(env, first, state);
    BareOrderSlots(later, second, state);
    KeyIgnoresLineOrder(digest, conversation, ChatTurn(env, first, Some(state)).order.slots,
                        ChatTurn(later, second, Some(state)).order.slots);
  }

  lemma BareOrderSlots(env: Env, turn: Turn, state: Stored)
    requires state.status == AwaitingConfirmation && BareConfirmation(turn)
    requires ChatTurn(env, turn, Some(state)).Place?
    ensures
      var slots := ChatTurn(env, turn, Some(state)).order.slots;
      && slots.items == Recalled(env.strip, state.slots.items)
      && slots.phone == OrText(CleanText(env.strip, state.slots.phone), OrText(AccountSlots(env).phone, None))
      && slots.address == OrText(CleanText(env.strip, state.slots.address), OrText(AccountSlots(env).address, None))
  {
    hide Ready, LinesOf, FirstBare, Recalled, PhoneIsGood;
  }

  /**
   * Confirming twice orders once: after the first confirmation was turned into an order,
   * and after any other requests, a second confirmation that gets as far as checkout
   * receives the same order and changes nothing.
   */
  lemma ConfirmedTwiceOrderedOnce(
      digest: string -> Id, conversation: string, env: Env, later: Env, first: Turn, second: Turn, state: Stored,
      db: DB, request: CheckoutRequest, between: seq<Request>, again: CheckoutRequest)
    requires state.status == AwaitingConfirmation && BareConfirmation(first) && BareConfirmation(second)
    requires later == env.(catalog := later.catalog, find := later.find)
    requires ChatTurn(env, first, Some(state)).Place? && ChatTurn(later, second, Some(state)).Place?
    requires request.key == KeyOf(digest, conversation, ChatTurn(env, first, Some(state)).order.slots)
    requires again.key == KeyOf(digest, conversation, ChatTurn(later, second, Some(state)).order.slots)
    requires CheckoutAnswer(db, request).Some?
    ensures
      var now := Run(Checkout(db, request), between);
      CheckoutAnswer(now, again) == CheckoutAnswer(db, request) && Checkout(now, again) == now
  {
    hide ChatTurn, Checkout, CheckoutAnswer, Run, KeyOf;
    SameKeyTwice(digest, conversation, env, later, first, second, state);
    ExactlyOnce(db, request, between, again);
  }
}
