/** The idempotency key of a chat order: a fingerprint of the cart and the contact. */
module ChatKeys {
  import opened Sums
  import opened OrderNumbers
  import opened Ledger
  import opened ChatCart
  import opened ChatOrder

  /** What the fingerprint sees of a line: a missing text counts as empty, a missing quantity as zero. */
  datatype Print = Print(text: string, count: int)

  function PrintOf(item: Item): Print
  {
    Print(Or(item.product, ""), Or(item.quantity, 0))
  }

  function Mapped<T, U>(f: T -> U, xs: seq<T>): seq<U>
  {
    seq(|xs|, k requires 0 <= k < |xs| => f(xs[k]))
  }

  function Prints(items: seq<Item>): seq<Print>
  {
    Mapped(PrintOf, items)
  }

  // ---------------------------------------------------------------- the order of Python tuples (text, count)

  /** Texts compare character by character; a proper prefix comes first. */
  predicate TextAtMost(a: string, b: string)
  {
    if a == [] then true
    else if b == [] then false
    else a[0] < b[0] || (a[0] == b[0] && TextAtMost(a[1..], b[1..]))
  }

  predicate AtMost(a: Print, b: Print)
  {
    if a.text == b.text then a.count <= b.count else TextAtMost(a.text, b.text)
  }

  lemma {:induction false} TextOrder(a: string, b: string)
    ensures TextAtMost(a, b) || TextAtMost(b, a)
    ensures TextAtMost(a, b) && TextAtMost(b, a) ==> a == b
  {
    if a != [] && b != [] && a[0] == b[0] {
      TextOrder(a[1..], b[1..]);
      assert a == [a[0]] + a[1..] && b == [b[0]] + b[1..];
    }
  }

  lemma {:induction false} TextTransitive(a: string, b: string, c: string)
    requires TextAtMost(a, b) && TextAtMost(b, c)
    ensures TextAtMost(a, c)
  {
    if a != [] && a[0] == b[0] == c[0] {
      TextTransitive(a[1..], b[1..], c[1..]);
    }
  }

  lemma AtMostTotal(a: Print, b: Print)
    ensures AtMost(a, b) || AtMost(b, a)
    ensures AtMost(a, b) && AtMost(b, a) ==> a == b
  {
    TextOrder(a.text, b.text);
  }

  lemma AtMostTransitive(a: Print, b: Print, c: Print)
    requires AtMost(a, b) && AtMost(b, c)
    ensures AtMost(a, c)
  {
    TextOrder(a.text, b.text);
    TextOrder(b.text, c.text);
    if a.text != b.text && b.text != c.text {
      TextTransitive(a.text, b.text, c.text);
    }
  }

  // ---------------------------------------------------------------- sorting

  predicate Ascending(prints: seq<Print>)
  {
    forall i, j :: 0 <= i <= j < |prints| ==> AtMost(prints[i], prints[j])
  }

  function Insert(prints: seq<Print>, p: Print): seq<Print>
  {
    if prints == [] || AtMost(prints[|prints| - 1], p) then prints + [p]
    else Insert(prints[..|prints| - 1], p) + [prints[|prints| - 1]]
  }

  function Sorted(prints: seq<Print>): seq<Print>
  {
    if prints == [] then [] else Insert(Sorted(prints[..|prints| - 1]), prints[|prints| - 1])
  }

  lemma {:induction false} InsertSorts(prints: seq<Print>, p: Print)
    requires Ascending(prints)
    ensures Ascending(Insert(prints, p))
    ensures multiset(Insert(prints, p)) == multiset(prints) + multiset{p}
  {
    hide AtMost;
    if prints == [] || AtMost(prints[|prints| - 1], p) {
      AtMostTotal(p, p);
      forall i | 0 <= i < |prints|
        ensures AtMost(prints[i], p)
      {
        AtMostTransitive(prints[i], prints[|prints| - 1], p);
      }
    } else {
      var n := |prints| - 1;
      var front, last := prints[..n], prints[n];
      assert prints == front + [last];
      InsertSorts(front, p);
      AtMostTotal(p, last);
      var inserted := Insert(front, p);
      forall i | 0 <= i < |inserted|
        ensures AtMost(inserted[i], last)
      {
        assert inserted[i] in multiset(inserted);
      }
    }
  }

  lemma {:induction false} SortedSorts(prints: seq<Print>)
    ensures Ascending(Sorted(prints)) && multiset(Sorted(prints)) == multiset(prints)
  {
    if prints != [] {
      var n := |prints| - 1;
      assert prints == prints[..n] + [prints[n]];
      SortedSorts(prints[..n]);
      InsertSorts(Sorted(prints[..n]), prints[n]);
    }
  }

  lemma LastIsGreatest(a: seq<Print>, p: Print)
    requires Ascending(a) && p in multiset(a)
    ensures a != [] && AtMost(p, a[|a| - 1])
  {
    var i :| 0 <= i < |a| && a[i] == p;
  }

  lemma FrontAscending(a: seq<Print>)
    requires Ascending(a) && a != []
    ensures Ascending(a[..|a| - 1])
  {
  }

  lemma Cancel<T>(a: multiset<T>, b: multiset<T>, x: T)
    requires a + multiset{x} == b + multiset{x}
    ensures a == b
  {
    assert (a + multiset{x}) - multiset{x} == a && (b + multiset{x}) - multiset{x} == b;
  }

  /** There is one ascending arrangement of a bag of prints. */
  lemma {:induction false} AscendingUnique(a: seq<Print>, b: seq<Print>)
    requires Ascending(a) && Ascending(b) && multiset(a) == multiset(b)
    ensures a == b
  {
    hide AtMost, Ascending;
    assert |a| == |multiset(a)| == |multiset(b)| == |b|;
    if a != [] {
      var n := |a| - 1;
      WithoutAt(a, n);
      WithoutAt(b, n);
      assert a[..n] + a[n + 1..] == a[..n] && b[..n] + b[n + 1..] == b[..n];
      LastIsGreatest(a, b[n]);
      LastIsGreatest(b, a[n]);
      AtMostTotal(a[n], b[n]);
      Cancel(multiset(a[..n]), multiset(b[..n]), a[n]);
      FrontAscending(a);
      FrontAscending(b);
      AscendingUnique(a[..n], b[..n]);
      assert a == a[..n] + [a[n]] && b == b[..n] + [b[n]];
    }
  }

  // ---------------------------------------------------------------- the key

  /** An empty quantity, and also zero, prints as nothing. */
  function PrintText(p: Print): string
  {
    p.text + ":" + if p.count == 0 then "" else Signed(p.count)
  }

  function Signed(n: int): string
  {
    if n < 0 then "-" + Decimal(-n) else Decimal(n)
  }

  function Joined(prints: seq<Print>): string
  {
    if prints == [] then ""
    else if |prints| == 1 then PrintText(prints[0])
    else Joined(prints[..|prints| - 1]) + "|" + PrintText(prints[|prints| - 1])
  }

  function Fingerprint(conversation: string, slots: Slots): string
  {
    conversation + "|" + Joined(Sorted(Prints(slots.items))) + "|" + Or(slots.phone, "") + "|" + Or(slots.address, "")
  }

  /** _chat_order_idempotency_key; `digest` stands for uuid5. */
  function KeyOf(digest: string -> Id, conversation: string, slots: Slots): Id
  {
    digest("chat-order:" + Fingerprint(conversation, slots))
  }

  lemma WithoutAt<T>(xs: seq<T>, i: nat)
    requires i < |xs|
    ensures multiset(xs) == multiset(xs[..i] + xs[i + 1..]) + multiset{xs[i]}
  {
    assert xs == xs[..i] + [xs[i]] + xs[i + 1..];
  }

  lemma MappedWithout<T, U>(f: T -> U, xs: seq<T>, i: nat)
    requires i < |xs|
    ensures multiset(Mapped(f, xs)) == multiset(Mapped(f, xs[..i] + xs[i + 1..])) + multiset{f(xs[i])}
  {
    WithoutAt(Mapped(f, xs), i);
    assert Mapped(f, xs)[..i] + Mapped(f, xs)[i + 1..] == Mapped(f, xs[..i] + xs[i + 1..]);
  }

  /** Equal bags are mapped to equal bags. */
  lemma {:induction false} MappedBag<T, U>(f: T -> U, xs: seq<T>, ys: seq<T>)
    requires multiset(xs) == multiset(ys)
    ensures multiset(Mapped(f, xs)) == multiset(Mapped(f, ys))
  {
    hide Mapped;
    assert |xs| == |multiset(xs)| == |multiset(ys)| == |ys|;
    if xs == [] {
      assert ys == [];
    } else {
      var n := |xs| - 1;
      assert xs[n] in multiset(ys);
      var i :| 0 <= i < |ys| && ys[i] == xs[n];
      WithoutAt(xs, n);
      WithoutAt(ys, i);
      Cancel(multiset(xs[..n] + xs[n + 1..]), multiset(ys[..i] + ys[i + 1..]), xs[n]);
      MappedBag(f, xs[..n] + xs[n + 1..], ys[..i] + ys[i + 1..]);
      MappedWithout(f, xs, n);
      MappedWithout(f, ys, i);
    }
  }

  /** The key does not depend on the order in which the cart lists its lines. */
  lemma KeyIgnoresLineOrder(digest: string -> Id, conversation: string, a: Slots, b: Slots)
    requires multiset(a.items) == multiset(b.items) && a.phone == b.phone && a.address == b.address
    ensures KeyOf(digest, conversation, a) == KeyOf(digest, conversation, b)
  {
    MappedBag(PrintOf, a.items, b.items);
    SortedSorts(Prints(a.items));
    SortedSorts(Prints(b.items));
    AscendingUnique(Sorted(Prints(a.items)), Sorted(Prints(b.items)));
  }

  // ---------------------------------------------------------------- what a key tells apart

  /** A line as the customer would say it: a missing text is empty, a missing quantity is nothing. */
  function Said(item: Item): (string, int)
  {
    (if item.product.Some? then item.product.value else "", if item.quantity.Some? then item.quantity.value else 0)
  }

  function SaidLines(items: seq<Item>): seq<(string, int)>
  {
    Mapped(Said, items)
  }

  function TextOf(s: Option<string>): string
  {
    if s.Some? then s.value else ""
  }

  /** No text contains the separator. */
  predicate Plain(conversation: string, slots: Slots)
  {
    && '|' !in conversation && '|' !in TextOf(slots.phone) && '|' !in TextOf(slots.address)
    && forall item :: item in slots.items ==> '|' !in TextOf(item.product)
  }

  function Barred(fields: seq<string>): string
    requires fields != []
  {
    if |fields| == 1 then fields[0] else Barred(fields[..|fields| - 1]) + "|" + fields[|fields| - 1]
  }

  predicate NoBars(fields: seq<string>)
  {
    forall f :: f in fields ==> '|' !in f
  }

  /** What stands before the last mark, and what behind it. */
  lemma LastMark(mark: char, x: string, a: string, y: string, b: string)
    requires mark !in a && mark !in b && x + [mark] + a == y + [mark] + b
    ensures x == y && a == b
  {
    var s := x + [mark] + a;
    assert s[|x|] == mark && s[|y|] == mark;
    assert forall i :: |x| < i < |s| ==> s[i] == a[i - |x| - 1];
    assert forall i :: |y| < i < |s| ==> s[i] == b[i - |y| - 1];
    assert |x| == |y|;
    assert x == s[..|x|] && y == s[..|y|];
    assert a == s[|x| + 1..] && b == s[|y| + 1..];
  }

  lemma BarredHasBar(fields: seq<string>)
    requires 1 < |fields|
    ensures '|' in Barred(fields)
  {
    var front := Barred(fields[..|fields| - 1]);
    assert Barred(fields)[|front|] == '|';
  }

  lemma {:induction false} BarredInjective(a: seq<string>, b: seq<string>)
    requires a != [] && b != [] && NoBars(a) && NoBars(b) && Barred(a) == Barred(b)
    ensures a == b
  {
    assert a[0] in a && b[0] in b;
    if |a| == 1 || |b| == 1 {
      if 1 < |a| { BarredHasBar(a); }
      if 1 < |b| { BarredHasBar(b); }
      assert a == [a[0]] && b == [b[0]];
    } else {
      var m, n := |a| - 1, |b| - 1;
      LastMark('|', Barred(a[..m]), a[m], Barred(b[..n]), b[n]);
      BarredInjective(a[..m], b[..n]);
      assert a == a[..m] + [a[m]] && b == b[..n] + [b[n]];
    }
  }

  lemma {:induction false} BarredCons(first: string, rest: seq<string>)
    requires rest != []
    ensures Barred([first] + rest) == first + "|" + Barred(rest)
  {
    var n := |rest| - 1;
    assert ([first] + rest)[..n + 1] == [first] + rest[..n];
    if n == 0 {
      assert [first] + rest[..0] == [first];
    } else {
      BarredCons(first, rest[..n]);
      assert first + "|" + Barred(rest[..n]) + "|" + rest[n] == first + "|" + (Barred(rest[..n]) + "|" + rest[n]);
    }
  }

  /** The fields between the conversation and the phone number. */
  function LineFields(prints: seq<Print>): (fields: seq<string>)
    ensures fields != []
  {
    if prints == [] then [""] else Mapped(PrintText, prints)
  }

  lemma {:induction false} JoinedIsBarred(prints: seq<Print>)
    ensures Joined(prints) == Barred(LineFields(prints))
  {
    if 1 < |prints| {
      var n := |prints| - 1;
      JoinedIsBarred(prints[..n]);
      assert LineFields(prints)[..n] == LineFields(prints[..n]);
    }
  }

  lemma FingerprintFields(conversation: string, slots: Slots)
    ensures Fingerprint(conversation, slots)
         == Barred([conversation] + LineFields(Sorted(Prints(slots.items))) + [TextOf(slots.phone), TextOf(slots.address)])
  {
    hide Prints, Sorted, LineFields, Joined;
    var prints := Sorted(Prints(slots.items));
    var lines, phone, address := LineFields(prints), TextOf(slots.phone), TextOf(slots.address);
    JoinedIsBarred(prints);
    BarredCons(conversation, lines);
    var head := [conversation] + lines;
    assert (head + [phone])[..|head|] == head;
    assert (head + [phone, address])[..|head| + 1] == head + [phone];
    assert Barred(head + [phone, address]) == Barred(head) + "|" + phone + "|" + address;
    assert (Or(slots.phone, ""), Or(slots.address, "")) == (phone, address);
  }

  lemma SignedHasNoMarks(n: int)
    ensures ':' !in Signed(n) && '|' !in Signed(n) && Signed(n) != ""
  {
  }

  lemma SignedInjective(m: int, n: int)
    requires Signed(m) == Signed(n)
    ensures m == n
  {
    assert (m < 0 <==> Signed(m)[0] == '-') && (n < 0 <==> Signed(n)[0] == '-');
    if m < 0 && n < 0 {
      assert Signed(m)[1..] == Decimal(-m) && Signed(n)[1..] == Decimal(-n);
      DecimalInjective(-m, -n);
    } else if 0 <= m && 0 <= n {
      DecimalInjective(m, n);
    }
  }

  function CountText(n: int): string
  {
    if n == 0 then "" else Signed(n)
  }

  lemma PrintTextInjective(a: Print, b: Print)
    requires PrintText(a) == PrintText(b)
    ensures a == b
  {
    hide Signed;
    SignedHasNoMarks(a.count);
    SignedHasNoMarks(b.count);
    assert PrintText(a) == a.text + ":" + CountText(a.count) && PrintText(b) == b.text + ":" + CountText(b.count);
    LastMark(':', a.text, CountText(a.count), b.text, CountText(b.count));
    if a.count != 0 && b.count != 0 {
      SignedInjective(a.count, b.count);
    }
  }

  lemma LineFieldsInjective(a: seq<Print>, b: seq<Print>)
    requires LineFields(a) == LineFields(b)
    ensures a == b
  {
    hide PrintText;
    if a == [] || b == [] {
      EmptyField(a);
      EmptyField(b);
    } else {
      assert |a| == |b|;
      forall k | 0 <= k < |a|
        ensures a[k] == b[k]
      {
        assert LineFields(a)[k] == PrintText(a[k]) && LineFields(b)[k] == PrintText(b[k]);
        PrintTextInjective(a[k], b[k]);
      }
    }
  }

  lemma EmptyField(prints: seq<Print>)
    ensures LineFields(prints) == [""] <==> prints == []
  {
    hide Signed;
    if prints != [] {
      var first := prints[0];
      assert PrintText(first) == first.text + ":" + CountText(first.count);
      assert 1 <= |PrintText(first)|;
      assert LineFields(prints)[0] == PrintText(first) != "";
    }
  }

  lemma PrintSays(item: Item)
    ensures PrintOf(item).text == TextOf(item.product)
  {
  }

  lemma LineFieldsHaveNoBars(conversation: string, slots: Slots)
    requires Plain(conversation, slots)
    ensures NoBars([conversation] + LineFields(Sorted(Prints(slots.items))) + [TextOf(slots.phone), TextOf(slots.address)])
  {
    hide Signed, Sorted, PrintOf;
    var prints := Sorted(Prints(slots.items));
    SortedSorts(Prints(slots.items));
    forall p | p in prints
      ensures '|' !in PrintText(p)
    {
      assert p in multiset(prints);
      assert p in Prints(slots.items);
      var k :| 0 <= k < |slots.items| && PrintOf(slots.items[k]) == p;
      assert slots.items[k] in slots.items;
      PrintSays(slots.items[k]);
      SignedHasNoMarks(p.count);
      assert PrintText(p) == p.text + ":" + CountText(p.count);
    }
  }

  /** Said lines and prints are two ways to write down the same. */
  lemma SaidIsPrinted(a: seq<Item>, b: seq<Item>)
    ensures multiset(Prints(a)) == multiset(Prints(b)) <==> multiset(SaidLines(a)) == multiset(SaidLines(b))
  {
    var pair, unpair := (p: Print) => (p.text, p.count), (t: (string, int)) => Print(t.0, t.1);
    forall items: seq<Item>
      ensures Mapped(pair, Prints(items)) == SaidLines(items) && Mapped(unpair, SaidLines(items)) == Prints(items)
    {
      assert forall item :: pair(PrintOf(item)) == Said(item) && unpair(Said(item)) == PrintOf(item);
    }
    if multiset(Prints(a)) == multiset(Prints(b)) {
      MappedBag(pair, Prints(a), Prints(b));
    }
    if multiset(SaidLines(a)) == multiset(SaidLines(b)) {
      MappedBag(unpair, SaidLines(a), SaidLines(b));
    }
  }

  ghost predicate Injective(digest: string -> Id)
  {
    forall s, t :: digest(s) == digest(t) ==> s == t
  }

  /**
   * Two chat orders get one key exactly when they come from one conversation, name the same
   * products in the same quantities, in any order, and go to the same phone and address.
   */
  lemma SameKeyIff(digest: string -> Id, here: string, a: Slots, there: string, b: Slots)
    requires Injective(digest) && Plain(here, a) && Plain(there, b)
    ensures KeyOf(digest, here, a) == KeyOf(digest, there, b) <==>
              && here == there && multiset(SaidLines(a.items)) == multiset(SaidLines(b.items))
              && TextOf(a.phone) == TextOf(b.phone) && TextOf(a.address) == TextOf(b.address)
  {
    hide Prints, SaidLines, Sorted, Fingerprint, LineFields, Injective, Ascending, Barred;
    var ps, qs := Prints(a.items), Prints(b.items);
    SortedSorts(ps);
    SortedSorts(qs);
    SaidIsPrinted(a.items, b.items);
    FingerprintFields(here, a);
    FingerprintFields(there, b);
    if KeyOf(digest, here, a) == KeyOf(digest, there, b) {
      SameDigest(digest, Fingerprint(here, a), Fingerprint(there, b));
      LineFieldsHaveNoBars(here, a);
      LineFieldsHaveNoBars(there, b);
      var x, y := LineFields(Sorted(ps)), LineFields(Sorted(qs));
      BarredInjective([here] + x + [TextOf(a.phone), TextOf(a.address)], [there] + y + [TextOf(b.phone), TextOf(b.address)]);
      SameParts(here, x, TextOf(a.phone), TextOf(a.address), there, y, TextOf(b.phone), TextOf(b.address));
      LineFieldsInjective(Sorted(ps), Sorted(qs));
    } else if multiset(ps) == multiset(qs) {
      AscendingUnique(Sorted(ps), Sorted(qs));
    }
  }

  lemma SameDigest(digest: string -> Id, s: string, t: string)
    requires Injective(digest) && digest("chat-order:" + s) == digest("chat-order:" + t)
    ensures s == t
  {
    assert s == ("chat-order:" + s)[11..] && t == ("chat-order:" + t)[11..];
  }

  lemma SameParts(a: string, x: seq<string>, p: string, q: string, b: string, y: seq<string>, r: string, s: string)
    requires [a] + x + [p, q] == [b] + y + [r, s]
    ensures a == b && x == y && p == r && q == s
  {
    var all := [a] + x + [p, q];
    assert all[0] == a == b && |x| == |y|;
    assert all[1..|all| - 2] == x && ([b] + y + [r, s])[1..|all| - 2] == y;
    assert all[|all| - 2] == p == r && all[|all| - 1] == q == s;
  }

  /** Ordering more or less of one line is a different order. */
  lemma OtherQuantityOtherKey(digest: string -> Id, conversation: string, slots: Slots, k: nat, quantity: int)
    requires Injective(digest) && Plain(conversation, slots) && k < |slots.items|
    requires quantity != if slots.items[k].quantity.Some? then slots.items[k].quantity.value else 0
    ensures KeyOf(digest, conversation, slots)
         != KeyOf(digest, conversation, slots.(items := slots.items[k := slots.items[k].(quantity := Some(quantity))]))
  {
    hide KeyOf;
    var items := slots.items;
    var line := items[k].(quantity := Some(quantity));
    var other := slots.(items := items[k := line]);
    assert Plain(conversation, other) by {
      assert items[k] in items;
    }
    SameKeyIff(digest, conversation, slots, conversation, other);
    MappedWithout(Said, items, k);
    MappedWithout(Said, other.items, k);
    assert other.items[..k] + other.items[k + 1..] == items[..k] + items[k + 1..];
    var rest := multiset(Mapped(Said, items[..k] + items[k + 1..]));
    assert (rest + multiset{Said(items[k])})[Said(line)] == rest[Said(line)];
    assert (rest + multiset{Said(line)})[Said(line)] == rest[Said(line)] + 1;
  }
}
