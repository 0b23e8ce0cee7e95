/** Sentence chunking with overlap, for the knowledge base of the chat assistant. */
module Chunker {
  import opened Sums

  /** " ".join(parts) */
  function Join(parts: seq<string>): string
  {
    if parts == [] then ""
    else if |parts| == 1 then parts[0]
    else Join(parts[..|parts| - 1]) + " " + parts[|parts| - 1]
  }

  function Cost(): string -> int
  {
    (sentence: string) => |sentence| + 1
  }

  /** Every sentence is accounted for with one separator, also the last one. */
  function Weight(parts: seq<string>): int
  {
    Sum(parts, Cost())
  }

  lemma {:induction false} JoinedLength(parts: seq<string>)
    requires parts != []
    ensures |Join(parts)| + 1 == Weight(parts)
  {
    if |parts| == 1 {
      assert parts == [] + [parts[0]];
      SumAppend([], parts[0], Cost());
    } else {
      JoinedLength(parts[..|parts| - 1]);
    }
  }

  /** The sentences lo, ..., hi - 1. */
  datatype Window = Window(lo: nat, hi: nat)

  /** The parameters of one call. */
  datatype Input = Input(sentences: seq<string>, chunkSize: int, overlap: int)
  {
    predicate Oversize(i: nat)
      requires i < |sentences|
    {
      |sentences[i]| > chunkSize
    }

    function Span(lo: nat, hi: nat): int
      requires lo <= hi <= |sentences|
    {
      Weight(sentences[lo..hi])
    }

    /** Sentence j does not fit behind the sentences lo, ..., j - 1. */
    predicate Overflows(lo: nat, j: nat)
      requires lo <= j < |sentences|
    {
      Span(lo, j) + |sentences[j]| + 1 > chunkSize
    }

    /** b is the shortest suffix of lo, ..., hi - 1 that reaches the overlap, or the whole of it. */
    predicate OverlapStart(lo: nat, hi: nat, b: nat)
      requires lo <= hi <= |sentences|
    {
      && lo <= b < hi
      && (b == lo || overlap <= Span(b, hi))
      && forall c :: b < c < hi ==> Span(c, hi) < overlap
    }

    /** A window that starts at lo and has j as its first sentence not seen before. */
    predicate Grown(lo: nat, j: nat, hi: nat)
    {
      && lo <= j < hi <= |sentences|
      && (Oversize(j) ==> lo == j && hi == j + 1)
      && forall h :: j < h < hi ==> !Oversize(h) && !Overflows(lo, h)
    }

    /** Where the window after w starts. */
    predicate Continues(w: Window, lo: nat)
      requires w.lo < w.hi < |sentences|
    {
      if Oversize(w.hi - 1) || Oversize(w.hi) then lo == w.hi
      else
        && Overflows(w.lo, w.hi)
        && if overlap > 0 then OverlapStart(w.lo, w.hi, lo) else lo == w.hi
    }

    /** Window k is what the windows before it and the sentences dictate. */
    predicate Chained(windows: seq<Window>, k: nat)
      requires k < |windows|
    {
      var w := windows[k];
      if k == 0 then w.lo == 0 && Grown(0, 0, w.hi)
      else
        var v := windows[k - 1];
        && v.lo < v.hi < |sentences|
        && Continues(v, w.lo)
        && Grown(w.lo, v.hi, w.hi)
    }

    predicate AllChained(windows: seq<Window>)
    {
      forall k :: 0 <= k < |windows| ==> Chained(windows, k)
    }

    /** The number of sentences the windows have consumed. */
    function Consumed(windows: seq<Window>): nat
    {
      if windows == [] then 0 else windows[|windows| - 1].hi
    }

    /** The complete specification of the windows of a text. */
    predicate Chunking(windows: seq<Window>)
    {
      AllChained(windows) && Consumed(windows) == |sentences|
    }

    /** The window that is being filled: it starts at lo, and i sentences were read. */
    predicate Open(windows: seq<Window>, lo: nat, i: nat)
    {
      Chained(windows + [Window(lo, i)], |windows|)
    }
  }

  /** The text of each window. */
  function Texts(sentences: seq<string>, windows: seq<Window>): seq<string>
    requires forall w :: w in windows ==> w.lo <= w.hi <= |sentences|
  {
    if windows == [] then []
    else
      var w := windows[|windows| - 1];
      Texts(sentences, windows[..|windows| - 1]) + [Join(sentences[w.lo..w.hi])]
  }

  /** Chunk k is the text of window k. */
  lemma {:induction false} TextAt(sentences: seq<string>, windows: seq<Window>, k: nat)
    requires forall w :: w in windows ==> w.lo <= w.hi <= |sentences|
    requires k < |windows|
    ensures |Texts(sentences, windows)| == |windows|
    ensures Texts(sentences, windows)[k] == Join(sentences[windows[k].lo..windows[k].hi])
  {
    var n := |windows| - 1;
    if n != 0 {
      TextAt(sentences, windows[..n], if k < n then k else n - 1);
    } else {
      assert windows[..n] == [];
    }
  }

  lemma WindowsInBounds(input: Input, windows: seq<Window>, k: nat)
    requires input.AllChained(windows) && k < |windows|
    ensures windows[k].lo < windows[k].hi <= |input.sentences|
  {
    assert input.Chained(windows, k);
  }

  /** Window ends strictly increase, starts never decrease, and no window leaves a gap behind the previous one. */
  lemma WindowsAdvance(input: Input, windows: seq<Window>, k: nat)
    requires input.AllChained(windows) && 0 < k < |windows|
    ensures windows[k - 1].hi < windows[k].hi
    ensures windows[k - 1].lo <= windows[k].lo <= windows[k - 1].hi
    ensures input.overlap <= 0 ==> windows[k].lo == windows[k - 1].hi
  {
    assert input.Chained(windows, k);
    assert input.Chained(windows, k - 1);
  }

  /** What window k adds to the windows before it. */
  function Fresh(input: Input, windows: seq<Window>, k: nat): seq<string>
    requires input.AllChained(windows) && k < |windows|
  {
    WindowsInBounds(input, windows, k);
    if k == 0 then input.sentences[windows[0].lo..windows[0].hi]
    else
      WindowsAdvance(input, windows, k);
      input.sentences[windows[k - 1].hi..windows[k].hi]
  }

  function AllFresh(input: Input, windows: seq<Window>, n: nat): seq<string>
    requires input.AllChained(windows) && n <= |windows|
  {
    if n == 0 then [] else AllFresh(input, windows, n - 1) + Fresh(input, windows, n - 1)
  }

  /** Dropping the overlaps gives back the sentences, all of them and in order. */
  lemma ChunksCoverText(input: Input, windows: seq<Window>)
    requires input.Chunking(windows)
    ensures AllFresh(input, windows, |windows|) == input.sentences
    ensures windows == [] <==> input.sentences == []
    ensures windows != [] ==> windows[0].lo == 0
  {
    if windows != [] {
      assert input.Chained(windows, 0);
      FreshPrefix(input, windows, |windows|);
    }
  }

  lemma {:induction false} FreshPrefix(input: Input, windows: seq<Window>, n: nat)
    requires input.AllChained(windows) && 0 < n <= |windows|
    ensures windows[n - 1].hi <= |input.sentences|
    ensures AllFresh(input, windows, n) == input.sentences[..windows[n - 1].hi]
  {
    WindowsInBounds(input, windows, n - 1);
    var s := input.sentences;
    if n == 1 {
      assert input.Chained(windows, 0);
      assert AllFresh(input, windows, 0) == [];
    } else {
      WindowsAdvance(input, windows, n - 1);
      FreshPrefix(input, windows, n - 1);
      var a, b := windows[n - 2].hi, windows[n - 1].hi;
      assert Fresh(input, windows, n - 1) == s[a..b];
      assert s[..a] + s[a..b] == s[..b];
    }
  }

  lemma SpanSplit(input: Input, a: nat, b: nat, c: nat)
    requires a <= b <= c <= |input.sentences|
    ensures input.Span(a, c) == input.Span(a, b) + input.Span(b, c)
  {
    SumConcat(input.sentences[a..b], input.sentences[b..c], Cost());
    assert input.sentences[a..c] == input.sentences[a..b] + input.sentences[b..c];
  }

  lemma SpanOne(input: Input, j: nat)
    requires j < |input.sentences|
    ensures input.Span(j, j + 1) == |input.sentences[j]| + 1
  {
    SumAppend([], input.sentences[j], Cost());
    assert input.sentences[j..j + 1] == [] + [input.sentences[j]];
  }

  /** The overlap carried into a new window: all but its first sentence are below the overlap asked for. */
  lemma OverlapWeight(input: Input, lo: nat, hi: nat, b: nat)
    requires lo <= hi <= |input.sentences| && input.OverlapStart(lo, hi, b)
    requires 0 < input.overlap && !input.Oversize(b)
    ensures input.Span(b, hi) <= input.chunkSize + input.overlap
  {
    SpanSplit(input, b, b + 1, hi);
    SpanOne(input, b);
    if b + 1 < hi {
      assert input.Span(b + 1, hi) < input.overlap;
    } else {
      assert input.sentences[hi..hi] == [];
    }
  }

  /** No sentence inside a window is too long, except the only one of a window of its own. */
  lemma {:induction false} RegularWindow(input: Input, windows: seq<Window>, k: nat, j: nat)
    requires input.AllChained(windows) && k < |windows|
    requires windows[k].lo <= j < windows[k].hi <= |input.sentences|
    ensures input.Oversize(j) ==> windows[k] == Window(j, j + 1)
  {
    assert input.Chained(windows, k);
    if 0 < k && j < windows[k - 1].hi {
      WindowsAdvance(input, windows, k);
      RegularWindow(input, windows, k - 1, j);
      RegularWindow(input, windows, k - 1, windows[k - 1].hi - 1);
    }
  }

  /**
   * A chunk that is not one oversize sentence has at most 2 * chunkSize + overlap
   * characters, and at most chunkSize when there is no overlap.
   */
  lemma ChunkLengthBound(input: Input, windows: seq<Window>, k: nat)
    requires input.Chunking(windows) && k < |windows|
    ensures windows[k].lo < windows[k].hi <= |input.sentences|
    ensures
      var chunk := Join(input.sentences[windows[k].lo..windows[k].hi]);
      if input.Oversize(windows[k].lo) then windows[k].hi == windows[k].lo + 1
      else if input.overlap <= 0 then |chunk| <= input.chunkSize
      else |chunk| <= 2 * input.chunkSize + input.overlap
  {
    WindowsInBounds(input, windows, k);
    var w := windows[k];
    RegularWindow(input, windows, k, w.lo);
    if !input.Oversize(w.lo) {
      JoinedLength(input.sentences[w.lo..w.hi]);
      var j := w.hi - 1;
      SpanSplit(input, w.lo, j, w.hi);
      SpanOne(input, j);
      RegularWindow(input, windows, k, j);
      assert input.Chained(windows, k);
      if 0 < k && j == windows[k - 1].hi && w.lo < j {
        OverlapWeight(input, windows[k - 1].lo, windows[k - 1].hi, w.lo);
      } else if w.lo == j {
        assert input.sentences[j..j] == [];
      }
    }
  }

  /** Two solutions of the specification agree window by window. */
  lemma {:induction false} SameWindows(input: Input, ws: seq<Window>, vs: seq<Window>, n: nat)
    requires input.Chunking(ws) && input.Chunking(vs)
    requires n <= |ws| && n <= |vs|
    ensures ws[..n] == vs[..n]
  {
    if n != 0 {
      SameWindows(input, ws, vs, n - 1);
      var k := n - 1;
      assert input.Chained(ws, k) && input.Chained(vs, k);
      if k != 0 {
        assert ws[k - 1] == ws[..n - 1][k - 1] == vs[..n - 1][k - 1] == vs[k - 1];
        SameStart(input, ws[k - 1], ws[k].lo, vs[k].lo);
      }
      SameEnd(input, ws, vs, k);
      SameEnd(input, vs, ws, k);
      assert ws[..n] == ws[..k] + [ws[k]] && vs[..n] == vs[..k] + [vs[k]];
    }
  }

  lemma SameStart(input: Input, v: Window, a: nat, b: nat)
    requires v.lo < v.hi < |input.sentences|
    requires input.Continues(v, a) && input.Continues(v, b)
    ensures a == b
  {
  }

  lemma SameEnd(input: Input, ws: seq<Window>, vs: seq<Window>, k: nat)
    requires input.Chunking(ws) && input.Chunking(vs)
    requires k < |ws| && k < |vs|
    requires ws[k].lo == vs[k].lo && (k == 0 || ws[k - 1] == vs[k - 1])
    ensures vs[k].hi <= ws[k].hi
  {
    assert input.Chained(ws, k) && input.Chained(vs, k);
    var h := ws[k].hi;
    RegularWindow(input, ws, k, h - 1);
    if k + 1 < |ws| {
      // The window was closed in front of sentence h, for a reason the other one shares.
      assert input.Chained(ws, k + 1);
    }
  }

  /** The specification has one solution only: the text fixes its windows. */
  lemma ChunkingIsUnique(input: Input, ws: seq<Window>, vs: seq<Window>)
    requires input.Chunking(ws) && input.Chunking(vs)
    ensures ws == vs
  {
    var n := if |ws| <= |vs| then |ws| else |vs|;
    SameWindows(input, ws, vs, n);
    if n < |ws| {
      Exhausted(input, ws, n);
    } else if n < |vs| {
      Exhausted(input, vs, n);
    } else {
      assert ws[..n] == ws && vs[..n] == vs;
    }
  }

  lemma Exhausted(input: Input, ws: seq<Window>, n: nat)
    requires input.Chunking(ws) && n < |ws|
    ensures input.Consumed(ws[..n]) < |input.sentences|
  {
    if n != 0 {
      assert input.Chained(ws, n);
      assert ws[..n][n - 1] == ws[n - 1];
    } else {
      assert input.Chained(ws, 0);
    }
  }

  /**
   * The state in front of sentence i: the windows written so far, and the sentences
   * lo, ..., i - 1 collected for the next one (none of them when lo == i).
   */
  ghost predicate Reading(input: Input, windows: seq<Window>, lo: nat, i: nat)
  {
    && input.AllChained(windows)
    && (forall k :: 0 <= k < |windows| ==> windows[k].lo < windows[k].hi <= i)
    && lo <= i <= |input.sentences|
    && (lo == i ==> i == input.Consumed(windows) && (windows != [] ==> input.Oversize(i - 1)))
    && (lo < i ==> input.Open(windows, lo, i) && !input.Oversize(i - 1))
  }

  lemma ReadingNothing(input: Input)
    ensures Reading(input, [], 0, 0)
    ensures Texts(input.sentences, []) == [] && Weight([]) == 0
  {
  }

  /** At the end of the text the window still open is the last one. */
  lemma ReadingAll(input: Input, windows: seq<Window>, lo: nat)
    requires Reading(input, windows, lo, |input.sentences|)
    ensures input.Chunking(if lo < |input.sentences| then windows + [Window(lo, |input.sentences|)] else windows)
  {
    if lo < |input.sentences| {
      Close(input, windows, lo, |input.sentences|);
    }
  }

  /** Appending the open window keeps the chain. */
  lemma Close(input: Input, windows: seq<Window>, lo: nat, hi: nat)
    requires input.AllChained(windows) && input.Open(windows, lo, hi)
    ensures input.AllChained(windows + [Window(lo, hi)])
  {
    var all := windows + [Window(lo, hi)];
    forall k | 0 <= k < |all|
      ensures input.Chained(all, k)
    {
      if k < |windows| {
        assert input.Chained(windows, k);
      }
    }
  }

  lemma ReadOversize(input: Input, windows: seq<Window>, i: nat)
    requires Reading(input, windows, i, i) && i < |input.sentences| && input.Oversize(i)
    ensures Reading(input, windows + [Window(i, i + 1)], i + 1, i + 1)
  {
    assert input.Open(windows, i, i + 1);
    Close(input, windows, i, i + 1);
  }

  lemma FlushBeforeOversize(input: Input, windows: seq<Window>, lo: nat, i: nat)
    requires Reading(input, windows, lo, i) && lo < i < |input.sentences| && input.Oversize(i)
    ensures Reading(input, windows + [Window(lo, i)] + [Window(i, i + 1)], i + 1, i + 1)
  {
    Close(input, windows, lo, i);
    var flushed := windows + [Window(lo, i)];
    assert input.Open(flushed, i, i + 1);
    Close(input, flushed, i, i + 1);
  }

  /** k is the position of the shortest suffix of `current` that reaches the overlap. */
  predicate ReachesOverlap(current: seq<string>, overlap: int, k: nat)
  {
    && k < |current|
    && (k == 0 || overlap <= Weight(current[k..]))
    && forall c :: k < c < |current| ==> Weight(current[c..]) < overlap
  }

  lemma FlushOverflow(input: Input, windows: seq<Window>, lo: nat, i: nat, k: nat)
    requires Reading(input, windows, lo, i) && lo < i < |input.sentences|
    requires !input.Oversize(i) && input.Overflows(lo, i)
    requires if input.overlap > 0 then ReachesOverlap(input.sentences[lo..i], input.overlap, k) else k == i - lo
    ensures Reading(input, windows + [Window(lo, i)], lo + k, i + 1)
    ensures input.sentences[lo..i][k..] + [input.sentences[i]] == input.sentences[lo + k..i + 1]
  {
    hide Weight;
    if input.overlap > 0 {
      OverlapInText(input, lo, i, k);
    }
    FlushedAt(input, windows, lo, i, lo + k);
    assert input.sentences[lo..i][k..] == input.sentences[lo + k..i];
  }

  lemma FlushedAt(input: Input, windows: seq<Window>, lo: nat, i: nat, b: nat)
    requires Reading(input, windows, lo, i) && lo < i < |input.sentences|
    requires !input.Oversize(i) && input.Overflows(lo, i)
    requires if input.overlap > 0 then input.OverlapStart(lo, i, b) else b == i
    ensures Reading(input, windows + [Window(lo, i)], b, i + 1)
  {
    hide Weight;
    Close(input, windows, lo, i);
    assert input.Open(windows + [Window(lo, i)], b, i + 1);
  }

  lemma OverlapInText(input: Input, lo: nat, hi: nat, k: nat)
    requires lo < hi <= |input.sentences|
    requires ReachesOverlap(input.sentences[lo..hi], input.overlap, k)
    ensures input.OverlapStart(lo, hi, lo + k)
  {
    var current := input.sentences[lo..hi];
    assert current[k..] == input.sentences[lo + k..hi];
    forall c | lo + k < c < hi
      ensures input.Span(c, hi) < input.overlap
    {
      assert current[c - lo..] == input.sentences[c..hi];
    }
  }

  lemma ReadFitting(input: Input, windows: seq<Window>, lo: nat, i: nat)
    requires Reading(input, windows, lo, i) && i < |input.sentences|
    requires !input.Oversize(i) && (lo < i ==> !input.Overflows(lo, i))
    ensures Reading(input, windows, lo, i + 1)
    ensures input.sentences[lo..i] + [input.sentences[i]] == input.sentences[lo..i + 1]
    ensures input.Span(lo, i + 1) == input.Span(lo, i) + |input.sentences[i]| + 1
  {
    hide Weight;
    SpanSnoc(input, lo, i);
    if lo < i {
      assert input.Chained(windows + [Window(lo, i)], |windows|);
    }
    assert input.Open(windows, lo, i + 1);
  }

  lemma SpanSnoc(input: Input, lo: nat, i: nat)
    requires lo <= i < |input.sentences|
    ensures input.sentences[lo..i] + [input.sentences[i]] == input.sentences[lo..i + 1]
    ensures input.Span(lo, i + 1) == input.Span(lo, i) + |input.sentences[i]| + 1
  {
    assert input.sentences[lo..i] + [input.sentences[i]] == input.sentences[lo..i + 1];
    SumAppend(input.sentences[lo..i], input.sentences[i], Cost());
  }

  lemma TextsSnoc(sentences: seq<string>, windows: seq<Window>, w: Window)
    requires forall v :: v in windows + [w] ==> v.lo <= v.hi <= |sentences|
    ensures Texts(sentences, windows + [w]) == Texts(sentences, windows) + [Join(sentences[w.lo..w.hi])]
  {
    assert (windows + [w])[..|windows|] == windows;
  }

  /** The sentences to start a new chunk with, once `current` is full: its overlap and the sentence that did not fit. */
  method Restart(current: seq<string>, sentence: string, overlap: int)
    returns (next: seq<string>, nextLength: int, ghost k: nat)
    requires current != []
    ensures if overlap > 0 then ReachesOverlap(current, overlap, k) else k == |current|
    ensures next == current[k..] + [sentence] && nextLength == Weight(next)
  {
    k := |current|;
    SumAppend([], sentence, Cost());
    assert [] + [sentence] == [sentence];
    next, nextLength := [sentence], |sentence| + 1;
    if overlap > 0 {
      var overlapSentences: seq<string> := [];
      var overlapLength := 0;
      var r := |current|;
      while 0 < r
        invariant 0 <= r <= |current| && overlapSentences == current[r..]
        invariant overlapLength == Weight(overlapSentences) && overlapLength < overlap
        invariant forall c :: r <= c < |current| ==> Weight(current[c..]) < overlap
      {
        r := r - 1;
        WeightCons(current[r], overlapSentences);
        assert [current[r]] + overlapSentences == current[r..];
        overlapSentences := [current[r]] + overlapSentences;
        overlapLength := overlapLength + |current[r]| + 1;
        if overlapLength >= overlap {
          break;
        }
      }
      k := r;
      next := overlapSentences + [sentence];
      nextLength := Weight(next);
    }
  }

  lemma WeightCons(sentence: string, parts: seq<string>)
    ensures Weight([sentence] + parts) == |sentence| + 1 + Weight(parts)
  {
    SumAppend([], sentence, Cost());
    assert [] + [sentence] == [sentence];
    SumConcat([sentence], parts, Cost());
  }

  /**
   * Chunk a text at sentence boundaries. `sentences` is the segmentation of the
   * normalized text; the windows name the sentences of each chunk.
   */
  method ChunkText(normalized: string, sentences: seq<string>, chunkSize: int, overlap: int)
    returns (chunks: seq<string>, ghost windows: seq<Window>)
    ensures normalized == "" ==> chunks == []
    ensures normalized != "" && |normalized| <= chunkSize ==> chunks == [normalized]
    ensures normalized != "" && chunkSize < |normalized| ==>
              && Input(sentences, chunkSize, overlap).Chunking(windows)
              && (forall w :: w in windows ==> w.lo <= w.hi <= |sentences|)
              && chunks == Texts(sentences, windows)
  {
    hide Reading, Input.Chunking, Weight, Texts;
    windows := [];
    if normalized == "" {
      return [], [];
    }
    if |normalized| <= chunkSize {
      return [normalized], [];
    }
    ghost var input := Input(sentences, chunkSize, overlap);
    chunks := [];
    var current: seq<string> := [];
    var currentLength := 0;
    ghost var lo: nat := 0;
    ReadingNothing(input);
    for i := 0 to |sentences|
      invariant lo <= i && Reading(input, windows, lo, i)
      invariant forall w :: w in windows ==> w.lo <= w.hi <= |sentences|
      invariant chunks == Texts(sentences, windows)
      invariant current == sentences[lo..i] && currentLength == Weight(current)
    {
      var sentence := sentences[i];
      var sentenceLength := |sentence|;
      if sentenceLength > chunkSize {
        if current != [] {
          FlushBeforeOversize(input, windows, lo, i);
          TextsSnoc(sentences, windows, Window(lo, i));
          chunks, windows := chunks + [Join(current)], windows + [Window(lo, i)];
          current := [];
          currentLength := 0;
        } else {
          ReadOversize(input, windows, i);
        }
        assert sentences[i..i + 1] == [sentence];
        TextsSnoc(sentences, windows, Window(i, i + 1));
        chunks, windows := chunks + [sentence], windows + [Window(i, i + 1)];
        lo := i + 1;
        continue;
      }
      if current != [] && currentLength + sentenceLength + 1 > chunkSize {
        TextsSnoc(sentences, windows, Window(lo, i));
        chunks := chunks + [Join(current)];
        ghost var k;
        current, currentLength, k := Restart(current, sentence, overlap);
        FlushOverflow(input, windows, lo, i, k);
        windows, lo := windows + [Window(lo, i)], lo + k;
      } else {
        ReadFitting(input, windows, lo, i);
        current := current + [sentence];
        currentLength := currentLength + sentenceLength + 1;
      }
    }
    ReadingAll(input, windows, lo);
    if current != [] {
      TextsSnoc(sentences, windows, Window(lo, |sentences|));
      chunks, windows := chunks + [Join(current)], windows + [Window(lo, |sentences|)];
    }
  }
}
