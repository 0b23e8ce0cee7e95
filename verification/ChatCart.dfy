/** The cart of a chat order: a list of lines that name products in free text. */
module ChatCart {
  import opened Sums

  /** One line. The text is resolved against the catalog each time it is needed. */
  datatype Item = Item(product: Option<string>, quantity: Option<int>)

  /** _match_product on a non-empty text: the catalog product it names, if any. */
  type Resolver = string -> Option<Id>

  predicate Truthy(s: Option<string>)
  {
    s.Some? && s.value != ""
  }

  /** Python's `a or b` on optional texts and counts. */
  function OrText(a: Option<string>, b: Option<string>): Option<string>
  {
    if Truthy(a) then a else b
  }

  function OrCount(a: Option<int>, b: Option<int>): Option<int>
  {
    if a.Some? && a.value != 0 then a else b
  }

  function ProductOf(resolve: Resolver, item: Item): Option<Id>
  {
    if Truthy(item.product) then resolve(item.product.value) else None
  }

  predicate SameProduct(resolve: Resolver, a: Item, b: Item)
  {
    ProductOf(resolve, a).Some? && ProductOf(resolve, a) == ProductOf(resolve, b)
  }

  /** The first line of the candidate's product. */
  function MatchingIndex(resolve: Resolver, items: seq<Item>, candidate: Item): (r: Option<nat>)
    ensures r.Some? ==>
              && r.value < |items| && SameProduct(resolve, items[r.value], candidate)
              && forall k :: 0 <= k < r.value ==> !SameProduct(resolve, items[k], candidate)
    ensures r.None? ==> forall k :: 0 <= k < |items| ==> !SameProduct(resolve, items[k], candidate)
  {
    if items == [] then None
    else
      var n := |items| - 1;
      var front := MatchingIndex(resolve, items[..n], candidate);
      if front.Some? then front
      else if SameProduct(resolve, items[n], candidate) then Some(n) else None
  }

  method FindMatchingItemIndex(resolve: Resolver, items: seq<Item>, candidate: Item) returns (index: Option<nat>)
    ensures index == MatchingIndex(resolve, items, candidate)
  {
    var wanted := ProductOf(resolve, candidate);
    if wanted.None? {
      return None;
    }
    for i := 0 to |items|
      invariant forall k :: 0 <= k < i ==> !SameProduct(resolve, items[k], candidate)
    {
      var found := ProductOf(resolve, items[i]);
      if found.Some? && found == wanted {
        return Some(i);
      }
    }
    index := None;
  }

  // ---------------------------------------------------------------- cart operations

  /** _merge_candidate_items: fill the gaps of the matching line, or add a line. */
  function MergeCandidate(resolve: Resolver, items: seq<Item>, candidate: Item): seq<Item>
  {
    var i := MatchingIndex(resolve, items, candidate);
    if items == [] then [candidate]
    else if i.None? then items + [candidate]
    else
      var current := items[i.value];
      items[i.value := Item(OrText(current.product, candidate.product),
                            if current.quantity.Some? then current.quantity else candidate.quantity)]
  }

  /** _append_order_items */
  function AppendItems(resolve: Resolver, items: seq<Item>, candidates: seq<Item>): seq<Item>
  {
    if candidates == [] then items
    else MergeCandidate(resolve, AppendItems(resolve, items, candidates[..|candidates| - 1]), candidates[|candidates| - 1])
  }

  /** A line overwritten by what the candidate says. */
  function Overwritten(existing: Item, candidate: Item): Item
  {
    Item(OrText(candidate.product, existing.product), OrCount(candidate.quantity, existing.quantity))
  }

  /** _replace_first_matching_item: without a matching line the first one is replaced. */
  function ReplaceFirstMatching(resolve: Resolver, items: seq<Item>, candidate: Item): seq<Item>
  {
    if items == [] then [candidate]
    else
      var i := MatchingIndex(resolve, items, candidate);
      var at := if i.Some? then i.value else 0;
      items[at := Overwritten(items[at], candidate)]
  }

  /** _merge_existing_item */
  function MergeExisting(resolve: Resolver, items: seq<Item>, candidate: Item): seq<Item>
  {
    var i := MatchingIndex(resolve, items, candidate);
    if i.None? then items + [candidate] else items[i.value := Overwritten(items[i.value], candidate)]
  }

  function MergeAllExisting(resolve: Resolver, items: seq<Item>, candidates: seq<Item>): seq<Item>
  {
    if candidates == [] then items
    else MergeExisting(resolve, MergeAllExisting(resolve, items, candidates[..|candidates| - 1]), candidates[|candidates| - 1])
  }

  /** _remove_order_item */
  function RemoveItem(resolve: Resolver, items: seq<Item>, candidate: Item): seq<Item>
  {
    var i := MatchingIndex(resolve, items, candidate);
    if i.None? then items else items[..i.value] + items[i.value + 1..]
  }

  /** A line afterwards: what it said before still stands, and only the candidate may have filled a gap. */
  predicate FillsGaps(before: Item, after: Item, candidate: Item)
  {
    && (Truthy(before.product) ==> after.product == before.product)
    && (before.quantity.Some? ==> after.quantity == before.quantity)
    && after.product in {before.product, candidate.product}
    && after.quantity in {before.quantity, candidate.quantity}
  }

  lemma MergedHasLine(resolve: Resolver, items: seq<Item>, candidate: Item)
    ensures ProductOf(resolve, candidate).Some? ==>
              MatchingIndex(resolve, MergeCandidate(resolve, items, candidate), candidate).Some?
  {
    var i, after := MatchingIndex(resolve, items, candidate), MergeCandidate(resolve, items, candidate);
    if ProductOf(resolve, candidate).Some? {
      assert SameProduct(resolve, after[if i.Some? then i.value else |items|], candidate);
    }
  }

  lemma ReplacedHasLine(resolve: Resolver, items: seq<Item>, candidate: Item)
    ensures ProductOf(resolve, candidate).Some? ==>
              MatchingIndex(resolve, ReplaceFirstMatching(resolve, items, candidate), candidate).Some?
  {
    var i, after := MatchingIndex(resolve, items, candidate), ReplaceFirstMatching(resolve, items, candidate);
    if ProductOf(resolve, candidate).Some? {
      assert SameProduct(resolve, after[if i.Some? then i.value else 0], candidate);
    }
  }

  method MergeCandidateItems(resolve: Resolver, current: seq<Item>, incoming: Item) returns (items: seq<Item>)
    ensures items == MergeCandidate(resolve, current, incoming)
    // What the cart already says of a line stands.
    ensures |current| <= |items| && forall k :: 0 <= k < |current| ==> FillsGaps(current[k], items[k], incoming)
    // The candidate's product, if it is known, has a line afterwards; a new line only if it had none.
    ensures ProductOf(resolve, incoming).Some? ==> MatchingIndex(resolve, items, incoming).Some?
    ensures |items| == |current| + if MatchingIndex(resolve, current, incoming).Some? then 0 else 1
    ensures UniqueLines(resolve, current) ==> UniqueLines(resolve, items)
  {
    if UniqueLines(resolve, current) {
      MergeCandidateUnique(resolve, current, incoming);
    }
    MergedHasLine(resolve, current, incoming);
    if current == [] {
      return [incoming];
    }
    var index := FindMatchingItemIndex(resolve, current, incoming);
    items := current;
    if index.None? {
      items := items + [incoming];
    } else {
      var line := items[index.value];
      items := items[index.value := Item(OrText(line.product, incoming.product),
                                         if line.quantity.Some? then line.quantity else incoming.quantity)];
    }
  }

  method AppendOrderItems(resolve: Resolver, current: seq<Item>, candidates: seq<Item>) returns (items: seq<Item>)
    ensures items == AppendItems(resolve, current, candidates)
  {
    items := current;
    for i := 0 to |candidates|
      invariant items == AppendItems(resolve, current, candidates[..i])
    {
      assert candidates[..i + 1][..i] == candidates[..i];
      items := MergeCandidateItems(resolve, items, candidates[i]);
    }
    assert candidates[..|candidates|] == candidates;
  }

  /** Line `at` says whatever the candidate says, and every other line stands. */
  predicate OnlyLineSays(before: seq<Item>, after: seq<Item>, at: nat, candidate: Item)
  {
    && at < |after|
    && (forall k :: 0 <= k < |before| && k < |after| && k != at ==> after[k] == before[k])
    && (Truthy(candidate.product) ==> after[at].product == candidate.product)
    && (candidate.quantity.Some? && candidate.quantity.value != 0 ==> after[at].quantity == candidate.quantity)
  }

  ghost predicate OneLineSays(before: seq<Item>, after: seq<Item>, candidate: Item)
  {
    exists at: nat :: OnlyLineSays(before, after, at, candidate)
  }

  method ReplaceFirstMatchingItem(resolve: Resolver, current: seq<Item>, candidate: Item) returns (items: seq<Item>)
    ensures items == ReplaceFirstMatching(resolve, current, candidate)
    // No line is lost or, in a cart with lines, added; one line at most differs, and it says what the candidate says.
    ensures current != [] ==> |items| == |current|
    ensures OneLineSays(current, items, candidate)
    // The candidate's product, if it is known, has a line afterwards.
    ensures ProductOf(resolve, candidate).Some? ==> MatchingIndex(resolve, items, candidate).Some?
    ensures UniqueLines(resolve, current) ==> UniqueLines(resolve, items)
  {
    if UniqueLines(resolve, current) {
      ReplaceFirstUnique(resolve, current, candidate);
    }
    ReplacedHasLine(resolve, current, candidate);
    assert OnlyLineSays(current, ReplaceFirstMatching(resolve, current, candidate),
                        if current != [] && MatchingIndex(resolve, current, candidate).Some?
                        then MatchingIndex(resolve, current, candidate).value else 0, candidate);
    items := current;
    if items == [] {
      return [candidate];
    }
    var index := FindMatchingItemIndex(resolve, items, candidate);
    var at := if index.Some? then index.value else 0;
    var existing := items[at];
    items := items[at := Item(OrText(candidate.product, existing.product),
                              OrCount(candidate.quantity, existing.quantity))];
  }

  method MergeExistingItems(resolve: Resolver, current: seq<Item>, candidates: seq<Item>) returns (items: seq<Item>)
    ensures items == MergeAllExisting(resolve, current, candidates)
  {
    items := current;
    for i := 0 to |candidates|
      invariant items == MergeAllExisting(resolve, current, candidates[..i])
    {
      assert candidates[..i + 1][..i] == candidates[..i];
      var index := FindMatchingItemIndex(resolve, items, candidates[i]);
      if index.None? {
        items := items + [candidates[i]];
      } else {
        items := items[index.value := Overwritten(items[index.value], candidates[i])];
      }
    }
    assert candidates[..|candidates|] == candidates;
  }

  method RemoveOrderItem(resolve: Resolver, current: seq<Item>, candidate: Item) returns (items: seq<Item>)
    ensures items == RemoveItem(resolve, current, candidate)
  {
    var index := FindMatchingItemIndex(resolve, current, candidate);
    if index.None? {
      return current;
    }
    items := [];
    for i := 0 to |current|
      invariant items == if i <= index.value then current[..i] else current[..index.value] + current[index.value + 1..i]
    {
      if i != index.value {
        items := items + [current[i]];
      }
    }
  }

  // ---------------------------------------------------------------- at most one line per product

  predicate UniqueLines(resolve: Resolver, items: seq<Item>)
  {
    forall i, j :: 0 <= i < j < |items| ==> !SameProduct(resolve, items[i], items[j])
  }

  lemma AppendUnmatched(resolve: Resolver, items: seq<Item>, candidate: Item)
    requires UniqueLines(resolve, items)
    ensures UniqueLines(resolve, items + [candidate]) <==> MatchingIndex(resolve, items, candidate).None?
  {
    var i := MatchingIndex(resolve, items, candidate);
    var all := items + [candidate];
    if i.Some? {
      assert SameProduct(resolve, all[i.value], all[|items|]);
    }
  }

  /** Line k rewritten for the same product, or for a product no other line has. */
  lemma RewriteKeepsUnique(resolve: Resolver, items: seq<Item>, k: nat, line: Item)
    requires UniqueLines(resolve, items) && k < |items|
    requires forall j :: 0 <= j < |items| && j != k ==> !SameProduct(resolve, line, items[j])
    ensures UniqueLines(resolve, items[k := line])
  {
  }

  lemma NoOtherLine(resolve: Resolver, items: seq<Item>, k: nat, line: Item)
    requires UniqueLines(resolve, items) && k < |items|
    requires ProductOf(resolve, line) == ProductOf(resolve, items[k])
    ensures forall j :: 0 <= j < |items| && j != k ==> !SameProduct(resolve, line, items[j])
  {
    forall j | 0 <= j < |items| && j != k
      ensures !SameProduct(resolve, line, items[j])
    {
      assert if j < k then !SameProduct(resolve, items[j], items[k]) else !SameProduct(resolve, items[k], items[j]);
    }
  }

  lemma MergeCandidateUnique(resolve: Resolver, items: seq<Item>, candidate: Item)
    requires UniqueLines(resolve, items)
    ensures UniqueLines(resolve, MergeCandidate(resolve, items, candidate))
  {
    var i := MatchingIndex(resolve, items, candidate);
    AppendUnmatched(resolve, items, candidate);
    if i.Some? {
      var line := MergeCandidate(resolve, items, candidate)[i.value];
      NoOtherLine(resolve, items, i.value, line);
      RewriteKeepsUnique(resolve, items, i.value, line);
    }
  }

  lemma {:induction false} AppendItemsUnique(resolve: Resolver, items: seq<Item>, candidates: seq<Item>)
    requires UniqueLines(resolve, items)
    ensures UniqueLines(resolve, AppendItems(resolve, items, candidates))
  {
    if candidates != [] {
      var n := |candidates| - 1;
      AppendItemsUnique(resolve, items, candidates[..n]);
      MergeCandidateUnique(resolve, AppendItems(resolve, items, candidates[..n]), candidates[n]);
    }
  }

  lemma OverwriteUnique(resolve: Resolver, items: seq<Item>, k: nat, candidate: Item)
    requires UniqueLines(resolve, items) && k < |items|
    requires MatchingIndex(resolve, items, candidate) in {None, Some(k)}
    ensures UniqueLines(resolve, items[k := Overwritten(items[k], candidate)])
  {
    var line := Overwritten(items[k], candidate);
    if ProductOf(resolve, line) == ProductOf(resolve, items[k]) {
      NoOtherLine(resolve, items, k, line);
    } else {
      assert ProductOf(resolve, line) == ProductOf(resolve, candidate);
      assert MatchingIndex(resolve, items, candidate).None?;
    }
    RewriteKeepsUnique(resolve, items, k, line);
  }

  lemma ReplaceFirstUnique(resolve: Resolver, items: seq<Item>, candidate: Item)
    requires UniqueLines(resolve, items)
    ensures UniqueLines(resolve, ReplaceFirstMatching(resolve, items, candidate))
  {
    var i := MatchingIndex(resolve, items, candidate);
    if items != [] {
      var at := if i.Some? then i.value else 0;
      OverwriteUnique(resolve, items, at, candidate);
    }
  }

  lemma MergeExistingUnique(resolve: Resolver, items: seq<Item>, candidate: Item)
    requires UniqueLines(resolve, items)
    ensures UniqueLines(resolve, MergeExisting(resolve, items, candidate))
  {
    var i := MatchingIndex(resolve, items, candidate);
    AppendUnmatched(resolve, items, candidate);
    if i.Some? {
      OverwriteUnique(resolve, items, i.value, candidate);
    }
  }

  lemma RemoveUnique(resolve: Resolver, items: seq<Item>, candidate: Item)
    requires UniqueLines(resolve, items)
    ensures UniqueLines(resolve, RemoveItem(resolve, items, candidate))
    // The product is gone for good: there was only one line of it.
    ensures MatchingIndex(resolve, RemoveItem(resolve, items, candidate), candidate).None?
  {
    var i := MatchingIndex(resolve, items, candidate);
    if i.Some? {
      var k, rest := i.value, RemoveItem(resolve, items, candidate);
      forall j | 0 <= j < |rest|
        ensures !SameProduct(resolve, rest[j], candidate)
      {
        var at := if j < k then j else j + 1;
        assert rest[j] == items[at];
        NoOtherLine(resolve, items, k, items[k]);
      }
      forall a, b | 0 <= a < b < |rest|
        ensures !SameProduct(resolve, rest[a], rest[b])
      {
        var x, y := if a < k then a else a + 1, if b < k then b else b + 1;
        assert rest[a] == items[x] && rest[b] == items[y] && x < y;
      }
    }
  }

  datatype CartOp = Merge(item: Item) | Append(items: seq<Item>) | Replace(item: Item) | MergeInto(item: Item) | Remove(item: Item)

  function Apply(resolve: Resolver, items: seq<Item>, op: CartOp): seq<Item>
  {
    match op
    case Merge(c) => MergeCandidate(resolve, items, c)
    case Append(cs) => AppendItems(resolve, items, cs)
    case Replace(c) => ReplaceFirstMatching(resolve, items, c)
    case MergeInto(c) => MergeExisting(resolve, items, c)
    case Remove(c) => RemoveItem(resolve, items, c)
  }

  function ApplyAll(resolve: Resolver, items: seq<Item>, ops: seq<CartOp>): seq<Item>
  {
    if ops == [] then items else Apply(resolve, ApplyAll(resolve, items, ops[..|ops| - 1]), ops[|ops| - 1])
  }

  /** Any sequence of cart operations keeps at most one line per product. */
  lemma {:induction false} CartStaysUnique(resolve: Resolver, items: seq<Item>, ops: seq<CartOp>)
    requires UniqueLines(resolve, items)
    ensures UniqueLines(resolve, ApplyAll(resolve, items, ops))
  {
    if ops != [] {
      var front, op := ops[..|ops| - 1], ops[|ops| - 1];
      CartStaysUnique(resolve, items, front);
      var now := ApplyAll(resolve, items, front);
      match op
      case Merge(c) => MergeCandidateUnique(resolve, now, c);
      case Append(cs) => AppendItemsUnique(resolve, now, cs);
      case Replace(c) => ReplaceFirstUnique(resolve, now, c);
      case MergeInto(c) => MergeExistingUnique(resolve, now, c);
      case Remove(c) => RemoveUnique(resolve, now, c);
    }
  }

  predicate RewritesLine(items: seq<Item>, after: seq<Item>, k: nat)
  {
    k < |items| && |after| == |items| && after == items[k := after[k]]
  }

  predicate DropsLine(items: seq<Item>, after: seq<Item>, k: nat)
  {
    k < |items| && after == items[..k] + items[k + 1..]
  }

  /** An operation with one candidate rewrites one line, adds one, or removes one; all other lines stand as they were. */
  lemma OtherLinesStand(resolve: Resolver, items: seq<Item>, op: CartOp)
    requires !op.Append?
    ensures
      var after := Apply(resolve, items, op);
      || after == items
      || after == items + [op.item]
      || (exists k: nat :: RewritesLine(items, after, k)
                           && (SameProduct(resolve, items[k], op.item) || (op.Replace? && k == 0)))
      || (op.Remove? && exists k: nat :: DropsLine(items, after, k) && SameProduct(resolve, items[k], op.item))
  {
    var i := MatchingIndex(resolve, items, op.item);
    var after := Apply(resolve, items, op);
    if i.Some? {
      var k := i.value;
      if op.Remove? {
        assert DropsLine(items, after, k);
      } else {
        assert RewritesLine(items, after, k);
      }
    } else if op.Replace? && items != [] {
      assert RewritesLine(items, after, 0);
    } else if items == [] {
      assert after == items || after == items + [op.item];
    }
  }

  /** append_items leaves every line in place whose product no candidate names, and never drops a line. */
  lemma {:induction false} UnnamedLinesStand(resolve: Resolver, items: seq<Item>, candidates: seq<Item>, k: nat)
    requires k < |items|
    requires forall c :: c in candidates ==> !SameProduct(resolve, items[k], c)
    ensures |items| <= |AppendItems(resolve, items, candidates)|
    ensures AppendItems(resolve, items, candidates)[k] == items[k]
  {
    hide SameProduct;
    if candidates != [] {
      UnnamedLinesStand(resolve, items, candidates[..|candidates| - 1], k);
    }
  }

  // ---------------------------------------------------------------- storing and reading back

  /** _optional_str and _optional_int, applied to what was stored. */
  function CleanText(strip: string -> string, s: Option<string>): Option<string>
  {
    if Truthy(s) && strip(s.value) != "" then Some(strip(s.value)) else None
  }

  function CleanCount(n: Option<int>): Option<int>
  {
    if n.Some? && 0 < n.value then n else None
  }

  function CleanItem(strip: string -> string, item: Item): Item
  {
    Item(CleanText(strip, item.product), CleanCount(item.quantity))
  }

  predicate Blank(item: Item)
  {
    item.product.None? && item.quantity.None?
  }

  /** _items_from_metadata after _items_to_metadata: blank lines vanish, the others come back cleaned. */
  function Recalled(strip: string -> string, items: seq<Item>): seq<Item>
  {
    if items == [] then []
    else
      var before := Recalled(strip, items[..|items| - 1]);
      var last := CleanItem(strip, items[|items| - 1]);
      if Blank(last) then before else before + [last]
  }

  /** A line that storage does not alter. */
  predicate Canonical(strip: string -> string, item: Item)
  {
    !Blank(item) && CleanItem(strip, item) == item
  }

  lemma {:induction false} RecalledLength(strip: string -> string, items: seq<Item>)
    ensures |Recalled(strip, items)| <= |items|
  {
    if items != [] {
      RecalledLength(strip, items[..|items| - 1]);
    }
  }

  /** A cart survives being stored and read back exactly when each of its lines is canonical. */
  lemma {:induction false} RecalledIff(strip: string -> string, items: seq<Item>)
    ensures Recalled(strip, items) == items <==> forall k :: 0 <= k < |items| ==> Canonical(strip, items[k])
  {
    if items != [] {
      var n := |items| - 1;
      var front, last := items[..n], items[n];
      RecalledIff(strip, front);
      RecalledLength(strip, front);
      assert items == front + [last];
      if Recalled(strip, items) == items {
        assert !Blank(CleanItem(strip, last));
        assert Recalled(strip, items)[..n] == Recalled(strip, front);
      }
      if Recalled(strip, front) == front && Canonical(strip, last) {
        forall k | 0 <= k < |items|
          ensures Canonical(strip, items[k])
        {
          assert k < n ==> front[k] == items[k];
        }
      }
    }
  }
}
