/**
 * Product questions: an in-memory filter, and a service that pushes most of the filter
 * into a database query with a limit and filters the page it gets back.
 */
module ProductQuery {
  import opened Sums
  import opened Pricing
  import opened Ledger

  datatype PriceKind = Cheapest | MostExpensive | Around | Under | Over

  /** A parsed question. Amounts are in hundredths of a dong, but need not be whole ones. */
  datatype Query = Query(
    brand: Option<string>, sizeKg: Option<int>, category: Option<Category>,
    colour: Option<string>, priceKind: Option<PriceKind>, priceValue: Option<real>)

  /**
   * The text comparisons: ILIKE '%...%' in the database; containment after accents are
   * stripped, and whole-word search, in memory.
   */
  datatype Text = Text(like: (string, string) -> bool, contains: (string, string) -> bool, hasWord: (string, string) -> bool)

  /** A row of the product table. */
  datatype Row = Row(id: Id, product: Product)
  {
    function Price(): int { product.price }
  }

  datatype Bounds = Bounds(min: Option<real>, max: Option<real>)

  function PriceBounds(query: Query): Bounds
  {
    if query.priceValue.None? || query.priceKind.None? then Bounds(None, None)
    else
      var value := query.priceValue.value;
      match query.priceKind.value
      case Around => var window := value * 0.06; Bounds(Some(value - window), Some(value + window))
      case Under => Bounds(None, Some(value))
      case Over => Bounds(Some(value), None)
      case _ => Bounds(None, None)
  }

  predicate WithinBounds(bounds: Bounds, price: int)
  {
    && (bounds.min.Some? ==> bounds.min.value <= price as real)
    && (bounds.max.Some? ==> price as real <= bounds.max.value)
  }

  // ---------------------------------------------------------------- the in-memory filter

  /** A colour counts only beside a brand or a size. */
  predicate Matches(text: Text, query: Query, p: Product)
  {
    && (query.brand.Some? ==> text.contains(query.brand.value, p.brand))
    && (query.sizeKg.Some? ==> p.sizeKg == query.sizeKg.value)
    && (query.category.Some? ==> p.category == query.category.value)
    && (query.colour.Some? && (query.brand.Some? || query.sizeKg.Some?) ==> text.hasWord(p.name, query.colour.value))
    && WithinBounds(PriceBounds(query), p.price)
  }

  predicate Ascending(rows: seq<Row>)
  {
    forall i, j :: 0 <= i < j < |rows| ==> rows[i].Price() <= rows[j].Price()
  }

  /** Insert behind all rows that cost no more: the step of a stable sort. */
  function Insert(sorted: seq<Row>, row: Row): seq<Row>
  {
    if sorted != [] && row.Price() < sorted[|sorted| - 1].Price()
    then Insert(sorted[..|sorted| - 1], row) + [sorted[|sorted| - 1]]
    else sorted + [row]
  }

  /** list.sort(key=price) */
  function SortedByPrice(rows: seq<Row>): seq<Row>
  {
    if rows == [] then [] else Insert(SortedByPrice(rows[..|rows| - 1]), rows[|rows| - 1])
  }

  lemma {:induction false} InsertCorrect(sorted: seq<Row>, row: Row)
    requires Ascending(sorted)
    ensures Ascending(Insert(sorted, row))
    ensures multiset(Insert(sorted, row)) == multiset(sorted) + multiset{row}
  {
    if sorted != [] && row.Price() < sorted[|sorted| - 1].Price() {
      var n := |sorted| - 1;
      var front := sorted[..n];
      InsertCorrect(front, row);
      assert sorted == front + [sorted[n]];
      AppendHighest(Insert(front, row), front, row, sorted[n]);
    }
  }

  /** Closing an insertion into all but the last row with that last row. */
  lemma AppendHighest(inserted: seq<Row>, front: seq<Row>, row: Row, last: Row)
    requires Ascending(inserted) && Ascending(front + [last]) && row.Price() < last.Price()
    requires multiset(inserted) == multiset(front) + multiset{row}
    ensures Ascending(inserted + [last])
    ensures multiset(inserted + [last]) == multiset(front + [last]) + multiset{row}
  {
    hide Row.Price;
    forall i | 0 <= i < |inserted|
      ensures inserted[i].Price() <= last.Price()
    {
      assert inserted[i] in multiset(inserted);
      if inserted[i] != row {
        var j :| 0 <= j < |front| && front[j] == inserted[i];
        assert (front + [last])[j] == inserted[i] && (front + [last])[|front|] == last;
      }
    }
  }

  lemma {:induction false} SortCorrect(rows: seq<Row>)
    ensures Ascending(SortedByPrice(rows))
    ensures multiset(SortedByPrice(rows)) == multiset(rows)
  {
    if rows != [] {
      var n := |rows| - 1;
      SortCorrect(rows[..n]);
      InsertCorrect(SortedByPrice(rows[..n]), rows[n]);
      assert rows == rows[..n] + [rows[n]];
    }
  }

  /** The rows with one price, in their order: what a stable sort must not disturb. */
  function OfPrice(rows: seq<Row>, price: int): seq<Row>
  {
    if rows == [] then []
    else
      var before := OfPrice(rows[..|rows| - 1], price);
      if rows[|rows| - 1].Price() == price then before + [rows[|rows| - 1]] else before
  }

  lemma OfPriceSnoc(rows: seq<Row>, row: Row, price: int)
    ensures OfPrice(rows + [row], price) == OfPrice(rows, price) + if row.Price() == price then [row] else []
  {
    assert (rows + [row])[..|rows|] == rows;
  }

  lemma {:induction false} InsertStable(sorted: seq<Row>, row: Row, price: int)
    requires Ascending(sorted)
    ensures OfPrice(Insert(sorted, row), price) == OfPrice(sorted + [row], price)
  {
    OfPriceSnoc(sorted, row, price);
    if sorted != [] && row.Price() < sorted[|sorted| - 1].Price() {
      var n := |sorted| - 1;
      InsertStable(sorted[..n], row, price);
      OfPriceSnoc(sorted[..n], row, price);
      OfPriceSnoc(Insert(sorted[..n], row), sorted[n], price);
    }
  }

  /** Rows of equal price keep their order. */
  lemma {:induction false} SortStable(rows: seq<Row>, price: int)
    ensures OfPrice(SortedByPrice(rows), price) == OfPrice(rows, price)
  {
    if rows != [] {
      var n := |rows| - 1;
      SortStable(rows[..n], price);
      SortCorrect(rows[..n]);
      InsertStable(SortedByPrice(rows[..n]), rows[n], price);
      OfPriceSnoc(SortedByPrice(rows[..n]), rows[n], price);
    }
  }

  function Matching(text: Text, rows: seq<Row>, query: Query): seq<Row>
  {
    if rows == [] then []
    else
      var before := Matching(text, rows[..|rows| - 1], query);
      if Matches(text, query, rows[|rows| - 1].product) then before + [rows[|rows| - 1]] else before
  }

  lemma {:induction false} MatchingRows(text: Text, rows: seq<Row>, query: Query)
    ensures forall r :: r in Matching(text, rows, query) <==> r in rows && Matches(text, query, r.product)
    ensures multiset(Matching(text, rows, query)) <= multiset(rows)
  {
    if rows != [] {
      var n := |rows| - 1;
      MatchingRows(text, rows[..n], query);
      assert rows == rows[..n] + [rows[n]];
    }
  }

  /** filter_products: skip what does not match, collect the rest, sort by price. */
  method FilterProducts(text: Text, rows: seq<Row>, query: Query) returns (matched: seq<Row>)
    ensures matched == SortedByPrice(Matching(text, rows, query))
    ensures Ascending(matched)
    ensures forall r :: r in matched <==> r in rows && Matches(text, query, r.product)
  {
    hide SortedByPrice, Ascending;
    var bounds := PriceBounds(query);
    var applyColour := query.colour.Some? && (query.brand.Some? || query.sizeKg.Some?);
    matched := [];
    for i := 0 to |rows|
      invariant matched == Matching(text, rows[..i], query)
    {
      var p := rows[i].product;
      assert rows[..i + 1][..i] == rows[..i];
      if query.brand.Some? && !text.contains(query.brand.value, p.brand) {
        continue;
      }
      if query.sizeKg.Some? && p.sizeKg != query.sizeKg.value {
        continue;
      }
      if query.category.Some? && p.category != query.category.value {
        continue;
      }
      if applyColour && !text.hasWord(p.name, query.colour.value) {
        continue;
      }
      if bounds.min.Some? && (p.price as real) < bounds.min.value {
        continue;
      }
      if bounds.max.Some? && p.price as real > bounds.max.value {
        continue;
      }
      matched := matched + [rows[i]];
    }
    assert rows[..|rows|] == rows;
    MatchingRows(text, rows, query);
    SortCorrect(matched);
    SameElements(SortedByPrice(matched), matched);
    matched := SortedByPrice(matched);
  }

  lemma SameElements<T>(xs: seq<T>, ys: seq<T>)
    requires multiset(xs) == multiset(ys)
    ensures forall x :: x in xs <==> x in ys
  {
    forall x
      ensures x in xs <==> x in ys
    {
      assert x in multiset(xs) <==> x in multiset(ys);
    }
  }

  // ---------------------------------------------------------------- the database query

  datatype SearchParams = SearchParams(
    brand: Option<string>, category: Option<Category>, sizeKg: Option<int>, min: Option<real>, max: Option<real>)

  /** A gas size the catalog cannot hold is left to the in-memory filter. */
  function Params(query: Query): SearchParams
  {
    var bounds := PriceBounds(query);
    var sizeKg :=
      if query.sizeKg.Some? && query.category != Some(Water) && query.sizeKg.value !in ALLOWED_SIZES then None
      else query.sizeKg;
    SearchParams(query.brand, query.category, sizeKg, bounds.min, bounds.max)
  }

  /** The validator of the search parameters; an absent category counts as gas. */
  predicate ValidParams(params: SearchParams)
  {
    && (Or(params.category, Gas) == Gas && params.sizeKg.Some? ==> params.sizeKg.value in ALLOWED_SIZES)
    && (params.min.Some? && params.max.Some? ==> params.min.value <= params.max.value)
  }

  /** The validator accepts every question, except one about prices around a negative amount. */
  lemma ValidatorAcceptsIff(query: Query)
    ensures ValidParams(Params(query)) <==>
              !(query.priceKind == Some(Around) && query.priceValue.Some? && query.priceValue.value < 0.0)
  {
    if query.priceKind == Some(Around) && query.priceValue.Some? {
      var value := query.priceValue.value;
      var bounds := PriceBounds(query);
      assert bounds.max.value - bounds.min.value == value * 0.12;
    }
  }

  /** An amount read from a text is written in digits alone, so it is never negative. */
  predicate Readable(query: Query)
  {
    query.priceValue.Some? ==> 0.0 <= query.priceValue.value
  }

  /** No question that can be asked trips the validator, whatever gas size it names. */
  lemma ReadQuestionsAreAccepted(query: Query)
    requires Readable(query)
    ensures ValidParams(Params(query))
  {
    ValidatorAcceptsIff(query);
  }

  predicate SqlBrand(text: Text, brand: Option<string>, p: Product)
  {
    brand.Some? ==> text.like(brand.value, p.brand)
  }

  predicate SqlMatches(text: Text, params: SearchParams, p: Product)
  {
    && p.active
    && SqlBrand(text, params.brand, p)
    && (params.category.Some? ==> p.category == params.category.value)
    && (params.sizeKg.Some? ==> p.sizeKg == params.sizeKg.value)
    && WithinBounds(Bounds(params.min, params.max), p.price)
  }

  /**
   * What the query may return: matching rows in ascending price, at most `limit` of them,
   * and none left out that is cheaper than one returned. Rows of equal price come in any order.
   */
  ghost predicate IsPage(text: Text, table: set<Row>, params: SearchParams, limit: nat, page: seq<Row>)
  {
    && Distinct(page) && Ascending(page) && |page| <= limit
    && (forall r :: r in page ==> r in table && SqlMatches(text, params, r.product))
    && (forall r :: r in table && SqlMatches(text, params, r.product) && r !in page ==>
          |page| == limit && forall s :: s in page ==> s.Price() <= r.Price())
  }

  /** What the question asks for: the active rows that match in memory and by brand in the database. */
  predicate Wanted(text: Text, query: Query, p: Product)
  {
    p.active && SqlBrand(text, query.brand, p) && Matches(text, query, p)
  }

  /** The price a question asks for: at most, at least, or within six percent of the amount it names. */
  predicate PriceAsked(kind: Option<PriceKind>, value: Option<real>, price: int)
  {
    value.Some? ==>
      && (kind == Some(Under) ==> price as real <= value.value)
      && (kind == Some(Over) ==> price as real >= value.value)
      && (kind == Some(Around) ==> 0.94 * value.value <= price as real && price as real <= 1.06 * value.value)
  }

  /** A colour is only asked for together with a brand or a size. */
  predicate ColourAsked(text: Text, query: Query, p: Product)
  {
    query.colour.Some? && (query.brand.Some? || query.sizeKg.Some?) ==> text.hasWord(p.name, query.colour.value)
  }

  /** Each part of a question must hold of a product, and nothing else. */
  lemma MatchesMeans(text: Text, query: Query, p: Product)
    ensures Matches(text, query, p) <==>
              && (query.brand.Some? ==> text.contains(query.brand.value, p.brand))
              && query.sizeKg in {None, Some(p.sizeKg)} && query.category in {None, Some(p.category)}
              && ColourAsked(text, query, p) && PriceAsked(query.priceKind, query.priceValue, p.price)
    ensures Wanted(text, query, p) <==>
              p.active && (query.brand.Some? ==> text.like(query.brand.value, p.brand)) && Matches(text, query, p)
  {
    if query.priceValue.Some? {
      var v := query.priceValue.value;
      assert v - v * 0.06 == 0.94 * v && v + v * 0.06 == 1.06 * v;
    }
  }

  /** The pushed-down conditions never lose a wanted row, and the residual filter removes every other one. */
  lemma PushDown(text: Text, query: Query, p: Product)
    ensures Wanted(text, query, p) <==> SqlMatches(text, Params(query), p) && Matches(text, query, p)
  {
  }

  /** find_products: the page of the query, filtered again in memory. */
  method FindProducts(text: Text, query: Query, ghost table: set<Row>, limit: nat, page: seq<Row>) returns (found: seq<Row>)
    requires IsPage(text, table, Params(query), limit, page)
    ensures Ascending(found) && Distinct(found)
    // Only wanted rows.
    ensures forall r :: r in found ==> r in table && Wanted(text, query, r.product)
    // A prefix of all wanted rows in ascending price: whatever is missing costs at least as much as all that was found.
    ensures forall r :: r in table && Wanted(text, query, r.product) && r !in found ==>
              |page| == limit && forall s :: s in found ==> s.Price() <= r.Price()
    // All of them when the matches of the query fit into the limit.
    ensures |set r | r in table && SqlMatches(text, Params(query), r.product)| <= limit ==>
              forall r :: r in table && Wanted(text, query, r.product) ==> r in found
    // The first one is the cheapest by list price.
    ensures found != [] ==> forall r :: r in table && Wanted(text, query, r.product) ==> found[0].Price() <= r.Price()
  {
    found := FilterProducts(text, page, query);
    FoundDistinct(text, page, query);
    forall r: Row ensures Wanted(text, query, r.product)
                     <==> SqlMatches(text, Params(query), r.product) && Matches(text, query, r.product) {
      PushDown(text, query, r.product);
    }
    hide Matches, SqlMatches, Wanted, SortedByPrice, Params;
    if |set r | r in table && SqlMatches(text, Params(query), r.product)| <= limit {
      WholePage(text, table, Params(query), limit, page);
    }
  }

  lemma FoundDistinct(text: Text, page: seq<Row>, query: Query)
    requires Distinct(page)
    ensures Distinct(SortedByPrice(Matching(text, page, query)))
  {
    hide Matches, SortedByPrice;
    SortCorrect(Matching(text, page, query));
    MatchingRows(text, page, query);
    DistinctMultiset(page);
    MultisetDistinct(SortedByPrice(Matching(text, page, query)), page);
  }

  lemma {:induction false} DistinctMultiset<T>(xs: seq<T>)
    requires Distinct(xs)
    ensures forall x :: multiset(xs)[x] <= 1
  {
    if xs != [] {
      var n := |xs| - 1;
      DistinctMultiset(xs[..n]);
      assert xs == xs[..n] + [xs[n]];
      assert xs[n] !in xs[..n];
    }
  }

  lemma MultisetDistinct<T>(xs: seq<T>, ys: seq<T>)
    requires multiset(xs) <= multiset(ys) && forall x :: multiset(ys)[x] <= 1
    ensures Distinct(xs)
  {
    forall i, j | 0 <= i < j < |xs|
      ensures xs[i] != xs[j]
    {
      var front, back := xs[..j], xs[j + 1..];
      assert xs == front + [xs[j]] + back;
      assert xs[i] in front;
      assert multiset(xs)[xs[j]] >= multiset(front)[xs[j]] + 1;
    }
  }

  lemma {:induction false} DistinctCount<T>(xs: seq<T>)
    requires Distinct(xs)
    ensures |set x | x in xs| == |xs|
  {
    if xs == [] {
      assert (set x | x in xs) == {};
    } else {
      var n := |xs| - 1;
      DistinctCount(xs[..n]);
      assert (set x | x in xs) == (set x | x in xs[..n]) + {xs[n]};
      assert xs[n] !in xs[..n];
    }
  }

  /** When the matches fit into the limit, the page holds all of them. */
  lemma WholePage(text: Text, table: set<Row>, params: SearchParams, limit: nat, page: seq<Row>)
    requires IsPage(text, table, params, limit, page)
    requires |set r | r in table && SqlMatches(text, params, r.product)| <= limit
    ensures forall r :: r in table && SqlMatches(text, params, r.product) ==> r in page
  {
    var all := set r | r in table && SqlMatches(text, params, r.product);
    var got := set r | r in page;
    DistinctCount(page);
    forall r | r in all
      ensures r in page
    {
      if r !in page {
        assert got <= all - {r};
        CardinalityMonotone(got, all - {r});
      }
    }
  }

  lemma {:induction false} CardinalityMonotone<T>(a: set<T>, b: set<T>)
    requires a <= b
    ensures |a| <= |b|
  {
    if a != {} {
      var x :| x in a;
      CardinalityMonotone(a - {x}, b - {x});
    }
  }
}
