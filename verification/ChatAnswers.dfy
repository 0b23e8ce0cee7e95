/** What a message does to the cart, question by question. */
module ChatAnswers {
  import opened Sums
  import opened Ledger
  import opened ChatCart
  import opened ChatOrder
  import opened ChatLaws

  // ---------------------------------------------------------------- questions about the cart and their answers

  predicate AllCanonical(env: Env, items: seq<Item>)
  {
    forall k :: 0 <= k < |items| ==> Canonical(env.strip, items[k])
  }

  /** Not an answer that ends or suspends the order, and not one about payment. */
  predicate AboutTheCart(turn: Turn)
  {
    !turn.cancels && !turn.vagueTime && !Truthy(turn.payment)
  }

  /**
   * A proposal to change a line, and the answers to it: yes replaces the line, no restores
   * the cart as it was, "no, add it" keeps the cart and appends the proposed line.
   */
  lemma ProposalAnswers(env: Env, proposing: Turn, previous: Slots, later: Env, answer: Turn)
    requires ReadPlain(env, proposing, previous).Answer?
    requires ReadPlain(env, proposing, previous).state.status == AwaitingProductChange
    requires AllCanonical(later, previous.items) && AllCanonical(later, proposing.incoming.items)
    requires AboutTheCart(answer)
    ensures
      var state := ReadPlain(env, proposing, previous).state;
      var lines, proposed := LinesGoneOnWith(later, answer, state), proposing.incoming.items[0];
      && (answer.negates && answer.addCue ==> lines == Some(previous.items + [proposed]))
      && (answer.affirms && !(answer.negates && answer.addCue) ==>
            lines == Some(ReplaceFirstMatching(Named(env), previous.items, proposed)))
      && (!answer.affirms && (answer.negates || answer.keepsPrevious) && !(answer.negates && answer.addCue) ==>
            lines == Some(previous.items))
  {
    hide MergeSlots, MergeItems, ReplaceFirstMatching, Recalled, Canonical, DetectOperation;
    var items, proposed := previous.items, proposing.incoming.items[0];
    ItemsMerge(env, proposing, previous);
    ReplacedCanonical(later, Named(env), items, proposed);
    RecalledIff(later.strip, items);
    RecalledIff(later.strip, [proposed]);
    RecalledIff(later.strip, ReplaceFirstMatching(Named(env), items, proposed));
    AnyItemsMerge(later, answer);
  }

  lemma ItemsMerge(env: Env, turn: Turn, slots: Slots)
    ensures Merged(env, turn, slots).items == slots.items
  {
  }

  lemma AnyItemsMerge(env: Env, turn: Turn)
    ensures forall slots :: Merged(env, turn, slots).items == slots.items
  {
    forall slots
      ensures Merged(env, turn, slots).items == slots.items
    {
      ItemsMerge(env, turn, slots);
    }
  }

  lemma ReplacedCanonical(env: Env, resolve: Resolver, items: seq<Item>, candidate: Item)
    requires AllCanonical(env, items) && Canonical(env.strip, candidate)
    ensures AllCanonical(env, ReplaceFirstMatching(resolve, items, candidate))
  {
  }

  /** The question whether to add or to replace, and its answers. */
  lemma AddOrReplaceAnswers(env: Env, asking: Turn, previous: Slots, later: Env, answer: Turn)
    requires ReadPlain(env, asking, previous).Answer?
    requires ReadPlain(env, asking, previous).state.status == AwaitingAddOrReplace
    requires AllCanonical(later, previous.items) && AllCanonical(later, asking.incoming.items)
    requires AboutTheCart(answer)
    ensures
      var state := ReadPlain(env, asking, previous).state;
      var lines, wanted := LinesGoneOnWith(later, answer, state), asking.incoming.items[0];
      && (answer.addCue ==> lines == Some(MergeCandidate(Named(later), previous.items, wanted)))
      && (!answer.addCue && (answer.replaceCue || answer.affirms) ==>
            lines == Some(ReplaceFirstMatching(Named(later), previous.items, wanted)))
      && (!answer.addCue && !answer.replaceCue && !answer.affirms && answer.negates ==> lines == Some(previous.items))
  {
    hide MergeSlots, MergeItems, MergeCandidate, ReplaceFirstMatching, Recalled, Canonical, DetectOperation;
    var items, wanted := previous.items, asking.incoming.items[0];
    ItemsMerge(env, asking, previous);
    RecalledIff(later.strip, items);
    RecalledIff(later.strip, [wanted]);
    AnyItemsMerge(later, answer);
    assert [wanted][..0] == [];
    assert AppendItems(Named(later), items, [wanted]) == MergeCandidate(Named(later), items, wanted);
  }

  // ---------------------------------------------------------------- the same, for any stored state

  function LinesOn(reading: Reading): Option<seq<Item>>
  {
    if reading.Continue? then Some(reading.slots.items) else None
  }

  /** The item that a proposed change is about. */
  function ProposedItem(env: Env, state: Stored): Option<Item>
  {
    var stored := RecalledPending(env, state);
    if stored.Some? then stored
    else ChangePending(env, PreviousItems(env, state), RecalledSlots(env, Some(state)).items)
  }

  /**
   * After a proposed change: yes adopts the changed cart; no, a wish to keep, or a word
   * about payment restores the cart as it was; "no, add it" keeps that cart and appends
   * the proposed item. A question asked again still knows the cart as it was.
   */
  ghost predicate ChangeAnswered(env: Env, turn: Turn, state: Stored, reading: Reading)
  {
    var changed, was, proposed := RecalledSlots(env, Some(state)).items, PreviousItems(env, state), ProposedItem(env, state);
    var addsIt := turn.negates && turn.addCue && proposed.Some?;
    && (Truthy(turn.payment) ==> LinesOn(reading) == Some(was))
    && (!Truthy(turn.payment) && addsIt ==> LinesOn(reading) == Some(was + [proposed.value]))
    && (!Truthy(turn.payment) && !addsIt && turn.affirms ==> LinesOn(reading) == Some(changed))
    && (!Truthy(turn.payment) && !addsIt && !turn.affirms && (turn.negates || turn.keepsPrevious) ==>
          LinesOn(reading) == Some(was))
    && (reading.Answer? ==>
          && reading.state.status == AwaitingProductChange && reading.state.previous == was
          && if turn.incoming.items != [] && Truthy(turn.incoming.items[0].product)
             then reading.state.pending == Some(turn.incoming.items[0])
                  && OneLineSays(was, reading.state.slots.items, turn.incoming.items[0])
             else reading.state.pending == proposed && reading.state.slots == RecalledSlots(env, Some(state)))
    && (reading.Continue? ==> !reading.resolved)
  }

  lemma ChangeLaw(env: Env, turn: Turn, state: Stored)
    ensures ChangeAnswered(env, turn, state, ReadChange(env, turn, state))
  {
    hide MergeSlots, MergeItems, RecalledSlots, RecalledPending, ChangePending, PreviousItems, AppendItems, ReplaceFirstMatching,
         OneLineSays;
    AnyItemsMerge(env, turn);
    if turn.incoming.items != [] {
      ReplaceSays(Named(env), PreviousItems(env, state), turn.incoming.items[0]);
    }
  }

  /**
   * While an incomplete line waits for its product: giving it up, or affirming the rest,
   * drops exactly the incomplete lines, and only an affirmation resolves the order; a
   * choice gives the chosen product a line; a size leaves the cart alone.
   */
  ghost predicate ChoiceAnswered(env: Env, turn: Turn, state: Stored, reading: Reading)
  {
    var base := RecalledSlots(env, Some(state));
    ChoiceIsOpen(env, state) ==>
      && (turn.cancelsAdd || turn.affirms ==>
            && reading.Continue? && (reading.resolved <==> !turn.cancelsAdd)
            && forall item :: item in reading.slots.items <==> item in base.items && !Incomplete(env, item))
      && (!turn.cancelsAdd && !turn.affirms && turn.picked.Some? ==>
            && reading.Continue? && !reading.resolved
            && (ProductFor(env, Item(turn.picked, None)).Some? ==>
                  MatchingIndex(Named(env), reading.slots.items, Item(turn.picked, None)).Some?))
      && (!turn.cancelsAdd && !turn.affirms && turn.picked.None? && turn.sizeChosen ==>
            && reading.Answer? && reading.state.status == AwaitingProductChoice
            && reading.state.slots == base && reading.state.pending == ChoicePending(env, state))
  }

  lemma ChoiceLaw(env: Env, turn: Turn, state: Stored)
    ensures ChoiceAnswered(env, turn, state, ReadChoice(env, turn, state))
  {
    hide MergeSlots, MergeItems, Recalled, ReadPlain, MergeCandidate, MatchingIndex;
    if ChoiceIsOpen(env, state) {
      AnyItemsMerge(env, turn);
      var kept := DropIncomplete(env, RecalledSlots(env, Some(state)));
      var chosen := Item(turn.picked, ChoicePending(env, state).value.quantity);
      assert [chosen][..0] == [];
      assert AppendItems(Named(env), kept.items, [chosen]) == MergeCandidate(Named(env), kept.items, chosen);
      MergedHasLine(Named(env), kept.items, chosen);
      SameNameSameIndex(env, MergeCandidate(Named(env), kept.items, chosen), chosen, Item(turn.picked, None));
    }
  }

  lemma {:induction false} SameNameSameIndex(env: Env, items: seq<Item>, a: Item, b: Item)
    requires a.product == b.product
    ensures MatchingIndex(Named(env), items, a) == MatchingIndex(Named(env), items, b)
    ensures ProductFor(env, a) == ProductFor(env, b)
  {
    if items != [] {
      SameNameSameIndex(env, items[..|items| - 1], a, b);
    }
  }

  /**
   * After "add or replace?": adding keeps all that the cart says and gives the product a
   * line, replacing rewrites one line, no leaves the cart, and so does asking again.
   */
  ghost predicate AddOrReplaceAnswered(env: Env, turn: Turn, state: Stored, reading: Reading)
  {
    var base, stored := RecalledSlots(env, Some(state)), RecalledPending(env, state);
    var wanted := if stored.Some? then stored else First(turn.incoming.items);
    && (Truthy(turn.payment) ==> LinesOn(reading) == Some(base.items))
    && (!Truthy(turn.payment) && wanted.Some? && turn.addCue ==>
          && reading.Continue? && |base.items| <= |reading.slots.items|
          && forall k :: 0 <= k < |base.items| ==> FillsGaps(base.items[k], reading.slots.items[k], wanted.value))
    && (!Truthy(turn.payment) && wanted.Some? && !turn.addCue && (turn.replaceCue || turn.affirms) ==>
          reading.Continue? && OneLineSays(base.items, reading.slots.items, wanted.value))
    && (!Truthy(turn.payment) && wanted.None? && turn.negates ==> LinesOn(reading) == Some(base.items))
    && (!Truthy(turn.payment) && !turn.addCue && !turn.replaceCue && !turn.affirms && turn.negates ==>
          LinesOn(reading) == Some(base.items))
    && (reading.Answer? ==>
          && reading.state.status == AwaitingAddOrReplace && reading.state.slots == base
          && reading.state.pending
             == if turn.incoming.items != [] && Truthy(turn.incoming.items[0].product) then Some(turn.incoming.items[0]) else wanted)
    && (reading.Continue? ==> !reading.resolved)
  }

  lemma AddOrReplaceLaw(env: Env, turn: Turn, state: Stored)
    ensures AddOrReplaceAnswered(env, turn, state, ReadAddOrReplace(env, turn, state))
  {
    hide MergeSlots, MergeItems, Recalled, RecalledPending, MergeCandidate, MatchingIndex, ReplaceFirstMatching, FillsGaps, OneLineSays;
    AnyItemsMerge(env, turn);
    var base, stored := RecalledSlots(env, Some(state)), RecalledPending(env, state);
    var wanted := if stored.Some? then stored else First(turn.incoming.items);
    if wanted.Some? {
      assert [wanted.value][..0] == [];
      assert AppendItems(Named(env), base.items, [wanted.value]) == MergeCandidate(Named(env), base.items, wanted.value);
      MergeFillsGaps(Named(env), base.items, wanted.value);
      ReplaceSays(Named(env), base.items, wanted.value);
      var reading := ReadAddOrReplace(env, turn, state);
      if !Truthy(turn.payment) && turn.addCue {
        assert reading.slots.items == MergeCandidate(Named(env), base.items, wanted.value);
      } else if !Truthy(turn.payment) && (turn.replaceCue || turn.affirms) {
        assert reading.slots.items == ReplaceFirstMatching(Named(env), base.items, wanted.value);
      }
    }
  }

  lemma MergeFillsGaps(resolve: Resolver, items: seq<Item>, candidate: Item)
    ensures
      var after := MergeCandidate(resolve, items, candidate);
      |items| <= |after| && forall k :: 0 <= k < |items| ==> FillsGaps(items[k], after[k], candidate)
  {
  }

  lemma ReplaceSays(resolve: Resolver, items: seq<Item>, candidate: Item)
    ensures OneLineSays(items, ReplaceFirstMatching(resolve, items, candidate), candidate)
  {
    var i := MatchingIndex(resolve, items, candidate);
    assert OnlyLineSays(items, ReplaceFirstMatching(resolve, items, candidate),
                        if items != [] && i.Some? then i.value else 0, candidate);
  }

  // ---------------------------------------------------------------- messages outside those questions

  predicate NamesProduct(candidates: seq<Item>)
  {
    exists c :: c in candidates && Truthy(c.product)
  }

  predicate NoneNames(resolve: Resolver, candidates: seq<Item>, line: Item)
  {
    forall c :: c in candidates ==> !SameProduct(resolve, line, c)
  }

  /**
   * A message without items leaves the lines; one that names a product leaves every line
   * whose product it does not name, whether it adds, merges or removes; a question does
   * not touch the cart it asks about, and the order is never resolved.
   */
  predicate PlainAnswered(env: Env, turn: Turn, previous: Slots, reading: Reading)
  {
    var candidates := turn.incoming.items;
    && (candidates == [] ==> LinesOn(reading) == Some(previous.items))
    && (reading.Continue? && NamesProduct(candidates) ==>
          forall line :: line in previous.items && NoneNames(Named(env), candidates, line) ==> line in reading.slots.items)
    && (reading.Answer? ==>
          || (reading.state.status == AwaitingAddOrReplace && reading.state.slots.items == previous.items)
          || (reading.state.status == AwaitingProductChange && reading.state.previous == previous.items))
    && (reading.Continue? ==> !reading.resolved)
  }

  lemma {:induction false} UnnamedLinesMerge(resolve: Resolver, items: seq<Item>, candidates: seq<Item>, k: nat)
    requires k < |items| && NoneNames(resolve, candidates, items[k])
    ensures |items| <= |MergeAllExisting(resolve, items, candidates)|
    ensures MergeAllExisting(resolve, items, candidates)[k] == items[k]
  {
    hide SameProduct;
    if candidates != [] {
      UnnamedLinesMerge(resolve, items, candidates[..|candidates| - 1], k);
    }
  }

  lemma UnnamedLineNotRemoved(resolve: Resolver, items: seq<Item>, candidate: Item, k: nat)
    requires k < |items| && !SameProduct(resolve, items[k], candidate)
    ensures items[k] in RemoveItem(resolve, items, candidate)
  {
    hide SameProduct;
    var i, left := MatchingIndex(resolve, items, candidate), RemoveItem(resolve, items, candidate);
    if i.Some? {
      assert i.value != k;
      assert left[if k < i.value then k else k - 1] == items[k];
    }
  }

  lemma UnnamedLineStays(resolve: Resolver, items: seq<Item>, candidates: seq<Item>, line: Item)
    requires line in items && candidates != [] && NoneNames(resolve, candidates, line)
    ensures line in AppendItems(resolve, items, candidates)
    ensures line in MergeAllExisting(resolve, items, candidates)
    ensures line in RemoveItem(resolve, items, candidates[0])
  {
    hide SameProduct, AppendItems, MergeAllExisting, RemoveItem;
    var k :| 0 <= k < |items| && items[k] == line;
    UnnamedLinesStand(resolve, items, candidates, k);
    UnnamedLinesMerge(resolve, items, candidates, k);
    UnnamedLineNotRemoved(resolve, items, candidates[0], k);
  }

  lemma NamedIsDetected(env: Env, turn: Turn, previous: seq<Item>)
    requires NamesProduct(turn.incoming.items)
    ensures DetectOperation(env, turn, previous) == SetLines ==> previous == []
  {
    var named := Filter(turn.incoming.items, (item: Item) => Truthy(item.product));
    var c :| c in turn.incoming.items && Truthy(c.product);
    assert c in named;
  }

  lemma PlainLaw(env: Env, turn: Turn, previous: Slots)
    ensures PlainAnswered(env, turn, previous, ReadPlain(env, turn, previous))
  {
    hide MergeSlots, MergeItems, AppendItems, MergeAllExisting, RemoveItem, ReplaceFirstMatching, MatchingIndex, DetectOperation,
         NoneNames, NamesProduct;
    ItemsMerge(env, turn, previous);
    var candidates, reading := turn.incoming.items, ReadPlain(env, turn, previous);
    if reading.Continue? && NamesProduct(candidates) {
      NamedIsDetected(env, turn, previous.items);
      forall line | line in previous.items && NoneNames(Named(env), candidates, line)
        ensures line in reading.slots.items
      {
        if candidates != [] {
          UnnamedLineStays(Named(env), previous.items, candidates, line);
        }
      }
    }
  }

  // ---------------------------------------------------------------- what the cues of a message do

  /** A line still says what it said. */
  predicate SaysStill(before: Item, after: Item)
  {
    && (Truthy(before.product) ==> after.product == before.product)
    && (before.quantity.Some? ==> after.quantity == before.quantity)
  }

  /** A line after a candidate spoke of its product: the candidate's words, and its quantity if it gives one. */
  predicate SaysWhat(candidate: Item, before: Item, after: Item)
  {
    && after.product == candidate.product
    && after.quantity == if candidate.quantity.Some? && candidate.quantity.value != 0 then candidate.quantity else before.quantity
  }

  /** Each product that is named has a line already. */
  predicate AllHaveLines(resolve: Resolver, lines: seq<Item>, candidates: seq<Item>)
  {
    forall c :: c in candidates && Truthy(c.product) ==> exists line :: line in lines && SameProduct(resolve, line, c)
  }

  /**
   * What a message that names products does to the lines, cue by cue. Removing takes the
   * line of the first product away and leaves the others. Adding keeps all that was said
   * and gives each known product a line. Replacing asks first, and shows the changed cart.
   * Without a cue the first products make up the cart; later ones bring their quantities
   * to their lines; and one that has no line yet is asked about.
   */
  ghost predicate CuesFollowed(env: Env, turn: Turn, previous: seq<Item>, reading: Reading)
  {
    var resolve, candidates := Named(env), turn.incoming.items;
    NamesProduct(candidates) ==>
      if turn.removeCue then
        && reading.Continue?
        && (forall line :: line in reading.slots.items ==> line in previous)
        && (forall line :: line in previous && !SameProduct(resolve, line, candidates[0]) ==> line in reading.slots.items)
        && (UniqueLines(resolve, previous) ==>
              forall line :: line in reading.slots.items ==> !SameProduct(resolve, line, candidates[0]))
      else if turn.addCue then
        && reading.Continue? && |previous| <= |reading.slots.items|
        && (forall k :: 0 <= k < |previous| ==> SaysStill(previous[k], reading.slots.items[k]))
        && (forall c :: c in candidates && ProductOf(resolve, c).Some? ==>
              exists line :: line in reading.slots.items && SameProduct(resolve, line, c))
      else if previous == [] then
        reading.Continue? && reading.slots.items == candidates
      else if turn.replaceCue then
        && reading.Answer? && reading.state.status == AwaitingProductChange
        && reading.state.previous == previous && reading.state.pending == Some(candidates[0])
        && OneLineSays(previous, reading.state.slots.items, candidates[0])
      else if AllHaveLines(resolve, previous, candidates) then
        && reading.Continue? && |previous| <= |reading.slots.items|
        && (UniqueLines(resolve, candidates) ==>
              forall k, c :: 0 <= k < |previous| && c in candidates && IsFirstLineOf(resolve, previous, k, c) ==>
                SaysWhat(c, previous[k], reading.slots.items[k]))
      else
        && reading.Answer? && reading.state.status == AwaitingAddOrReplace
        && reading.state.slots.items == previous && reading.state.pending == Some(candidates[0])
  }

  predicate IsFirstLineOf(resolve: Resolver, lines: seq<Item>, k: nat, c: Item)
  {
    k < |lines| && SameProduct(resolve, lines[k], c) && forall j :: 0 <= j < k ==> !SameProduct(resolve, lines[j], c)
  }

  lemma {:induction false} AppendedSaysStill(resolve: Resolver, items: seq<Item>, candidates: seq<Item>, k: nat)
    requires k < |items|
    ensures |items| <= |AppendItems(resolve, items, candidates)|
    ensures SaysStill(items[k], AppendItems(resolve, items, candidates)[k])
  {
    if candidates != [] {
      AppendedSaysStill(resolve, items, candidates[..|candidates| - 1], k);
    }
  }

  /** A product that has a line keeps one when more is merged in. */
  lemma MergeKeepsLine(resolve: Resolver, items: seq<Item>, candidate: Item, c: Item)
    requires MatchingIndex(resolve, items, c).Some?
    ensures MatchingIndex(resolve, MergeCandidate(resolve, items, candidate), c).Some?
  {
    var k, after := MatchingIndex(resolve, items, c).value, MergeCandidate(resolve, items, candidate);
    assert ProductOf(resolve, after[k]) == ProductOf(resolve, items[k]);
    assert SameProduct(resolve, after[k], c);
  }

  lemma {:induction false} AppendedHasLine(resolve: Resolver, items: seq<Item>, candidates: seq<Item>, c: Item)
    requires c in candidates && ProductOf(resolve, c).Some?
    ensures MatchingIndex(resolve, AppendItems(resolve, items, candidates), c).Some?
  {
    hide MatchingIndex, MergeCandidate, SameProduct;
    var n := |candidates| - 1;
    var before := AppendItems(resolve, items, candidates[..n]);
    if c == candidates[n] {
      MergedHasLine(resolve, before, c);
    } else {
      assert c in candidates[..n];
      AppendedHasLine(resolve, items, candidates[..n], c);
      MergeKeepsLine(resolve, before, candidates[n], c);
    }
  }

  /** Overwriting lines of products that have lines: positions and products stay. */
  lemma {:induction false} OverwrittenProducts(resolve: Resolver, items: seq<Item>, candidates: seq<Item>)
    requires AllHaveLines(resolve, items, candidates)
    ensures
      var after := MergeAllExisting(resolve, items, candidates);
      |items| <= |after| && forall k :: 0 <= k < |items| ==> ProductOf(resolve, after[k]) == ProductOf(resolve, items[k])
  {
    hide MatchingIndex, SaysWhat, SameProduct, ProductOf, IsFirstLineOf, MergeExisting;
    if candidates != [] {
      var n := |candidates| - 1;
      OverwrittenProducts(resolve, items, candidates[..n]);
      MergeExistingEffect(resolve, items, MergeAllExisting(resolve, items, candidates[..n]), candidates[n]);
    }
  }

  /** And the line of a product says what its candidate says. */
  lemma {:induction false} OverwrittenSays(resolve: Resolver, items: seq<Item>, candidates: seq<Item>, k: nat, c: Item)
    requires AllHaveLines(resolve, items, candidates) && UniqueLines(resolve, candidates)
    requires c in candidates && IsFirstLineOf(resolve, items, k, c)
    ensures k < |MergeAllExisting(resolve, items, candidates)|
    ensures SaysWhat(c, items[k], MergeAllExisting(resolve, items, candidates)[k])
  {
    hide MatchingIndex, SaysWhat, SameProduct, ProductOf, IsFirstLineOf, MergeExisting;
    var n := |candidates| - 1;
    var front, last := candidates[..n], candidates[n];
    var before := MergeAllExisting(resolve, items, front);
    OverwrittenProducts(resolve, items, front);
    MergeExistingEffect(resolve, items, before, last);
    FirstLineIs(resolve, items, k, c);
    if c == last {
      NotYetSpokenOf(resolve, items, candidates, k);
    } else {
      var i :| 0 <= i < n && candidates[i] == c;
      assert front[i] == c;
      assert !SameProduct(resolve, candidates[i], candidates[n]);
      OtherProduct(resolve, items[k], c, last);
      OverwrittenSays(resolve, items, front, k, c);
    }
  }

  lemma FirstLineIs(resolve: Resolver, lines: seq<Item>, k: nat, c: Item)
    requires IsFirstLineOf(resolve, lines, k, c)
    ensures k < |lines| && SameProduct(resolve, lines[k], c)
  {
  }

  lemma OtherProduct(resolve: Resolver, line: Item, c: Item, d: Item)
    requires SameProduct(resolve, line, c) && !SameProduct(resolve, c, d)
    ensures !SameProduct(resolve, line, d)
  {
  }

  /** One step of the overwriting, on lines whose products are those of `items`. */
  lemma MergeExistingEffect(resolve: Resolver, items: seq<Item>, lines: seq<Item>, c: Item)
    requires |items| <= |lines| && forall k :: 0 <= k < |items| ==> ProductOf(resolve, lines[k]) == ProductOf(resolve, items[k])
    requires Truthy(c.product) ==> exists line :: line in items && SameProduct(resolve, line, c)
    ensures
      var after := MergeExisting(resolve, lines, c);
      && |items| <= |after|
      && (forall k :: 0 <= k < |items| ==> ProductOf(resolve, after[k]) == ProductOf(resolve, items[k]))
      && (forall k :: 0 <= k < |items| && !SameProduct(resolve, items[k], c) ==> after[k] == lines[k])
      && (forall k :: 0 <= k < |items| && IsFirstLineOf(resolve, items, k, c) ==> SaysWhat(c, lines[k], after[k]))
  {
    var i, after := MatchingIndex(resolve, lines, c), MergeExisting(resolve, lines, c);
    if Truthy(c.product) {
      var line :| line in items && SameProduct(resolve, line, c);
      var j :| 0 <= j < |items| && items[j] == line;
      assert SameProduct(resolve, lines[j], c);
      assert i.Some? && i.value <= j;
      assert forall k :: 0 <= k < |items| ==> (SameProduct(resolve, items[k], c) <==> SameProduct(resolve, lines[k], c));
    }
  }

  /** No earlier candidate speaks of the product of the last one, so its line is untouched until then. */
  lemma NotYetSpokenOf(resolve: Resolver, items: seq<Item>, candidates: seq<Item>, k: nat)
    requires candidates != [] && k < |items| && UniqueLines(resolve, candidates)
    requires SameProduct(resolve, items[k], candidates[|candidates| - 1])
    ensures |items| <= |MergeAllExisting(resolve, items, candidates[..|candidates| - 1])|
    ensures MergeAllExisting(resolve, items, candidates[..|candidates| - 1])[k] == items[k]
  {
    var n := |candidates| - 1;
    forall c | c in candidates[..n]
      ensures !SameProduct(resolve, items[k], c)
    {
      var i :| 0 <= i < n && candidates[i] == c;
      assert !SameProduct(resolve, candidates[i], candidates[n]);
    }
    UnnamedLinesMerge(resolve, items, candidates[..n], k);
  }

  lemma AllMatchIffLines(env: Env, previous: seq<Item>, candidates: seq<Item>)
    ensures AllHaveLines(Named(env), previous, candidates) <==>
              forall c :: c in candidates && Truthy(c.product) ==> MatchingIndex(Named(env), previous, c).Some?
  {
    hide SameProduct;
    forall c | c in candidates && Truthy(c.product)
      ensures (exists line :: line in previous && SameProduct(Named(env), line, c)) <==> MatchingIndex(Named(env), previous, c).Some?
    {
      if MatchingIndex(Named(env), previous, c).Some? {
        assert previous[MatchingIndex(Named(env), previous, c).value] in previous;
      }
    }
  }

  /** Which operation a message asks for: its cues decide, and without one the cart does. */
  predicate AsksFor(env: Env, turn: Turn, previous: seq<Item>, operation: Operation)
  {
    if !NamesProduct(turn.incoming.items) then operation == SetLines
    else if turn.removeCue then operation == RemoveLine
    else if turn.addCue then operation == AddLines
    else if turn.replaceCue then operation == ReplaceLine
    else if previous == [] then operation == SetLines
    else operation == if AllHaveLines(Named(env), previous, turn.incoming.items) then MergeLines else Unclear
  }

  lemma DetectedIsAsked(env: Env, turn: Turn, previous: seq<Item>)
    ensures AsksFor(env, turn, previous, DetectOperation(env, turn, previous))
  {
    hide MatchingIndex, AllHaveLines;
    var candidates := turn.incoming.items;
    var named := Filter(candidates, (item: Item) => Truthy(item.product));
    AllMatchIffLines(env, previous, candidates);
    assert named != [] ==> named[0] in named;
    if NamesProduct(candidates) {
      var c :| c in candidates && Truthy(c.product);
      assert c in named;
    }
  }

  lemma RemovalLaw(resolve: Resolver, items: seq<Item>, c: Item)
    ensures
      var after := RemoveItem(resolve, items, c);
      && (forall line :: line in after ==> line in items)
      && (forall line :: line in items && !SameProduct(resolve, line, c) ==> line in after)
      && (UniqueLines(resolve, items) ==> forall line :: line in after ==> !SameProduct(resolve, line, c))
  {
    hide SameProduct, RemoveItem;
    RemovedLinesAreOld(resolve, items, c);
    forall line | line in items && !SameProduct(resolve, line, c)
      ensures line in RemoveItem(resolve, items, c)
    {
      var k :| 0 <= k < |items| && items[k] == line;
      UnnamedLineNotRemoved(resolve, items, c, k);
    }
    if UniqueLines(resolve, items) {
      RemoveUnique(resolve, items, c);
    }
  }

  lemma RemovedLinesAreOld(resolve: Resolver, items: seq<Item>, c: Item)
    ensures forall line :: line in RemoveItem(resolve, items, c) ==> line in items
  {
  }

  lemma AddingLaw(resolve: Resolver, items: seq<Item>, candidates: seq<Item>)
    ensures
      var after := AppendItems(resolve, items, candidates);
      && |items| <= |after|
      && (forall k :: 0 <= k < |items| ==> SaysStill(items[k], after[k]))
      && (forall c :: c in candidates && ProductOf(resolve, c).Some? ==> exists line :: line in after && SameProduct(resolve, line, c))
  {
    hide SaysStill, SameProduct, AppendItems, MatchingIndex;
    var after := AppendItems(resolve, items, candidates);
    if items != [] {
      AppendedSaysStill(resolve, items, candidates, 0);
    }
    forall k | 0 <= k < |items|
      ensures SaysStill(items[k], after[k])
    {
      AppendedSaysStill(resolve, items, candidates, k);
    }
    forall c | c in candidates && ProductOf(resolve, c).Some?
      ensures exists line :: line in after && SameProduct(resolve, line, c)
    {
      AppendedHasLine(resolve, items, candidates, c);
      assert after[MatchingIndex(resolve, after, c).value] in after;
    }
  }

  lemma CuesLaw(env: Env, turn: Turn, previous: Slots)
    ensures CuesFollowed(env, turn, previous.items, ReadPlain(env, turn, previous))
  {
    hide MergeSlots, MergeItems, AppendItems, MergeAllExisting, RemoveItem, ReplaceFirstMatching, MatchingIndex, DetectOperation,
         AllHaveLines, SaysStill, SaysWhat, SameProduct, UniqueLines, OneLineSays, IsFirstLineOf;
    var resolve, items, candidates := Named(env), previous.items, turn.incoming.items;
    if NamesProduct(candidates) {
      ItemsMerge(env, turn, previous);
      DetectedIsAsked(env, turn, items);
      RemovalLaw(resolve, items, candidates[0]);
      AddingLaw(resolve, items, candidates);
      ReplaceSays(resolve, items, candidates[0]);
      if AllHaveLines(resolve, items, candidates) {
        OverwrittenProducts(resolve, items, candidates);
        if UniqueLines(resolve, candidates) {
          forall k, c | 0 <= k < |items| && c in candidates && IsFirstLineOf(resolve, items, k, c)
            ensures SaysWhat(c, items[k], MergeAllExisting(resolve, items, candidates)[k])
          {
            OverwrittenSays(resolve, items, candidates, k, c);
          }
        }
      }
    }
  }
}
