/**
 * Daily order numbers "GB-<day>-<counter>": printing and parsing of the zero-padded
 * counter, and the MAX + 1 query that issues the next one.
 */
module OrderNumbers {
  import opened Sums

  predicate AllDigits(s: string)
  {
    forall i :: 0 <= i < |s| ==> '0' <= s[i] <= '9'
  }

  /** A day printed as %Y%m%d. */
  type Day = s: string | |s| == 8 && AllDigits(s) witness "19700101"

  const COUNTER_WIDTH: nat := 3
  const PREFIX_LENGTH: nat := 12   // SUBSTRING(order_number FROM 13) starts after these

  function DigitOf(d: nat): (c: char)
    requires d < 10
  {
    '0' + (d as char)
  }

  function Decimal(n: nat): (s: string)
    ensures s != "" && AllDigits(s)
  {
    if n < 10 then [DigitOf(n)] else Decimal(n / 10) + [DigitOf(n % 10)]
  }

  function Zeros(k: nat): (s: string)
    ensures |s| == k && AllDigits(s)
  {
    if k == 0 then "" else "0" + Zeros(k - 1)
  }

  /** Python's f"{n:03d}". */
  function Padded(n: nat): (s: string)
    ensures s != "" && AllDigits(s)
  {
    var digits := Decimal(n);
    if |digits| < COUNTER_WIDTH then Zeros(COUNTER_WIDTH - |digits|) + digits else digits
  }

  /** CAST(... AS INTEGER) of a digit string. */
  function Parse(s: string): nat
    requires AllDigits(s)
  {
    if s == "" then 0 else 10 * Parse(s[..|s| - 1]) + (s[|s| - 1] - '0') as nat
  }

  function Prefix(day: Day): (s: string)
    ensures |s| == PREFIX_LENGTH
  {
    "GB-" + day + "-"
  }

  function OrderNumber(day: Day, counter: nat): string
  {
    Prefix(day) + Padded(counter)
  }

  /** order_number ~ '^GB-<day>-[0-9]+$' */
  predicate IssuedOn(day: Day, number: string)
  {
    && PREFIX_LENGTH < |number|
    && number[..PREFIX_LENGTH] == Prefix(day)
    && AllDigits(number[PREFIX_LENGTH..])
  }

  /** The counters already issued on a day, in order of issue. */
  function Counters(numbers: seq<string>, day: Day): seq<nat>
  {
    if numbers == [] then []
    else
      var last := numbers[|numbers| - 1];
      var before := Counters(numbers[..|numbers| - 1], day);
      if IssuedOn(day, last) then before + [Parse(last[PREFIX_LENGTH..])] else before
  }

  function Max(xs: seq<nat>): nat
  {
    if xs == [] then 0
    else
      var m := Max(xs[..|xs| - 1]);
      if m < xs[|xs| - 1] then xs[|xs| - 1] else m
  }

  /** COALESCE(MAX(counter), 0) + 1, printed. */
  function NextNumber(numbers: seq<string>, day: Day): string
  {
    OrderNumber(day, Max(Counters(numbers, day)) + 1)
  }

  function UpTo(n: nat): seq<nat>
  {
    seq(n, i requires 0 <= i < n => i + 1)
  }

  /** On every day the counters issued so far are 1, 2, ..., n, in this order; and no number repeats. */
  ghost predicate GapFree(numbers: seq<string>)
  {
    && Distinct(numbers)
    && forall day: Day :: Counters(numbers, day) == UpTo(|Counters(numbers, day)|)
  }

  lemma {:induction false} ParseDecimal(n: nat)
    ensures Parse(Decimal(n)) == n
  {
    var s := Decimal(n);
    if n >= 10 {
      ParseDecimal(n / 10);
      assert s[..|s| - 1] == Decimal(n / 10);
    } else {
      assert s[..|s| - 1] == "";
    }
  }

  lemma {:induction false} ParseIgnoresZeros(k: nat, s: string)
    requires AllDigits(s)
    ensures Parse(Zeros(k) + s) == Parse(s)
  {
    var t := Zeros(k) + s;
    if s == "" {
      if k == 0 {
        assert t == "";
      } else {
        ZerosSnoc(k - 1);
        ParseIgnoresZeros(k - 1, "");
        assert t[..|t| - 1] == Zeros(k - 1) == Zeros(k - 1) + "";
      }
    } else {
      ParseIgnoresZeros(k, s[..|s| - 1]);
      assert t[..|t| - 1] == Zeros(k) + s[..|s| - 1];
    }
  }

  lemma {:induction false} ZerosSnoc(k: nat)
    ensures Zeros(k + 1) == Zeros(k) + "0"
  {
    if k != 0 {
      ZerosSnoc(k - 1);
    }
  }

  /** The printed counter reads back as itself for every counter, also those wider than the padding. */
  lemma CounterRoundTrip(day: Day, n: nat)
    ensures IssuedOn(day, OrderNumber(day, n))
    ensures Parse(OrderNumber(day, n)[PREFIX_LENGTH..]) == n
  {
    var digits := Decimal(n);
    ParseDecimal(n);
    if |digits| < COUNTER_WIDTH {
      ParseIgnoresZeros(COUNTER_WIDTH - |digits|, digits);
    }
    assert OrderNumber(day, n)[PREFIX_LENGTH..] == Padded(n);
    assert OrderNumber(day, n)[..PREFIX_LENGTH] == Prefix(day);
  }

  lemma DecimalInjective(m: nat, n: nat)
    requires Decimal(m) == Decimal(n)
    ensures m == n
  {
    ParseDecimal(m);
    ParseDecimal(n);
  }

  /** A number belongs to one day only. */
  lemma OneDay(d: Day, e: Day, number: string)
    requires IssuedOn(d, number) && IssuedOn(e, number)
    ensures d == e
  {
    assert Prefix(d)[3..11] == d && Prefix(e)[3..11] == e;
  }

  lemma {:induction false} MaxUpTo(n: nat)
    ensures Max(UpTo(n)) == n
  {
    if n != 0 {
      MaxUpTo(n - 1);
      assert UpTo(n)[..n - 1] == UpTo(n - 1);
    }
  }

  lemma {:induction false} IssuedNumberIsCounted(numbers: seq<string>, day: Day, number: string)
    requires number in numbers && IssuedOn(day, number)
    ensures Parse(number[PREFIX_LENGTH..]) in Counters(numbers, day)
  {
    var n := |numbers| - 1;
    var c := Parse(number[PREFIX_LENGTH..]);
    if numbers[n] == number {
      assert Counters(numbers, day) == Counters(numbers[..n], day) + [c];
      assert Counters(numbers, day)[|Counters(numbers[..n], day)|] == c;
    } else {
      assert number in numbers[..n];
      IssuedNumberIsCounted(numbers[..n], day, number);
    }
  }

  lemma GapFreeEmpty()
    ensures GapFree([])
  {
  }

  lemma CountersSnoc(numbers: seq<string>, number: string, day: Day)
    ensures Counters(numbers + [number], day)
         == Counters(numbers, day) + if IssuedOn(day, number) then [Parse(number[PREFIX_LENGTH..])] else []
  {
    assert (numbers + [number])[..|numbers|] == numbers;
  }

  lemma NextCounter(numbers: seq<string>, day: Day)
    requires GapFree(numbers)
    ensures NextNumber(numbers, day) == OrderNumber(day, |Counters(numbers, day)| + 1)
  {
    MaxUpTo(|Counters(numbers, day)|);
  }

  lemma NextIsFresh(numbers: seq<string>, day: Day)
    requires GapFree(numbers)
    ensures OrderNumber(day, |Counters(numbers, day)| + 1) !in numbers
  {
    var k := |Counters(numbers, day)|;
    var number := OrderNumber(day, k + 1);
    CounterRoundTrip(day, k + 1);
    assert k + 1 !in UpTo(k);
    if number in numbers {
      IssuedNumberIsCounted(numbers, day, number);
    }
  }

  /** Issuing the next number keeps every day's counters gap-free and the numbers distinct. */
  lemma IssueNext(numbers: seq<string>, day: Day)
    requires GapFree(numbers)
    ensures GapFree(numbers + [NextNumber(numbers, day)])
    ensures NextNumber(numbers, day) !in numbers
    ensures NextNumber(numbers, day) == OrderNumber(day, |Counters(numbers, day)| + 1)
  {
    hide Counters, Parse, OrderNumber, NextNumber, IssuedOn, UpTo;
    NextCounter(numbers, day);
    NextIsFresh(numbers, day);
    var number := NextNumber(numbers, day);
    var all := numbers + [number];
    CounterRoundTrip(day, |Counters(numbers, day)| + 1);
    assert Distinct(all) && all[..|numbers|] == numbers;
    forall other: Day
      ensures Counters(all, other) == UpTo(|Counters(all, other)|)
    {
      GapFreeStep(numbers, day, number, other);
    }
  }

  lemma GapFreeStep(numbers: seq<string>, day: Day, number: string, other: Day)
    requires GapFree(numbers)
    requires IssuedOn(day, number) && Parse(number[PREFIX_LENGTH..]) == |Counters(numbers, day)| + 1
    ensures Counters(numbers + [number], other) == UpTo(|Counters(numbers + [number], other)|)
  {
    CountersSnoc(numbers, number, other);
    if other == day {
      var k := |Counters(numbers, day)|;
      assert UpTo(k + 1) == UpTo(k) + [k + 1];
    } else if IssuedOn(other, number) {
      OneDay(day, other, number);
    }
  }

  lemma SomeDecimals()
    ensures Decimal(7) == "7" && Decimal(1234) == "1234"
  {
    hide AllDigits;
    assert DigitOf(1) == '1' && DigitOf(2) == '2' && DigitOf(3) == '3' && DigitOf(4) == '4' && DigitOf(7) == '7';
    assert Decimal(1) == "1";
    assert Decimal(12) == Decimal(1) + "2";
    assert Decimal(123) == Decimal(12) + "3";
    assert Decimal(1234) == Decimal(123) + "4";
  }

  /** Three digits at least, and as many as it takes. */
  lemma NumbersLookLikeThis(day: Day)
    ensures OrderNumber(day, 7) == "GB-" + day + "-007"
    ensures OrderNumber(day, 1234) == "GB-" + day + "-1234"
  {
    hide Decimal, Zeros, AllDigits;
    SomeDecimals();
    TwoZeros();
    assert Padded(7) == "007" && Padded(1234) == "1234";
    assert "GB-" + day + "-" + "007" == "GB-" + day + "-007";
    assert "GB-" + day + "-" + "1234" == "GB-" + day + "-1234";
  }

  lemma TwoZeros()
    ensures Zeros(2) == "00"
  {
    hide AllDigits;
    assert Zeros(1) == "0" + Zeros(0);
  }
}
