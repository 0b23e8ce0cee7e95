/** Where chunks begin and end, in terms of the lengths of their texts. */
module ChunkRules {
  import opened Chunker

  function TextLength(sentences: seq<string>, a: nat, b: nat): nat
    requires a <= b <= |sentences|
  {
    |Join(sentences[a..b])|
  }

  lemma SpanIsText(input: Input, a: nat, b: nat)
    requires a < b <= |input.sentences|
    ensures input.Span(a, b) == TextLength(input.sentences, a, b) + 1
  {
    JoinedLength(input.sentences[a..b]);
  }

  /**
   * A chunk repeats the shortest tail of the previous one that reaches the overlap, or all
   * of it. It repeats nothing if no overlap is asked for, and none around a sentence that
   * is too long for a chunk.
   */
  lemma OverlapRules(input: Input, windows: seq<Window>, k: nat)
    requires input.Chunking(windows) && 0 < k < |windows|
    ensures
      var v, w, s := windows[k - 1], windows[k], input.sentences;
      && v.lo < v.hi < |s|
      && if input.overlap <= 0 || input.chunkSize < |s[v.hi - 1]| || input.chunkSize < |s[v.hi]| then w.lo == v.hi
         else
           && v.lo <= w.lo < v.hi
           && (w.lo == v.lo || input.overlap <= TextLength(s, w.lo, v.hi) + 1)
           && forall c :: w.lo < c < v.hi ==> TextLength(s, c, v.hi) + 1 < input.overlap
  {
    assert input.Chained(windows, k);
    var v, w := windows[k - 1], windows[k];
    forall c | v.lo <= c < v.hi
      ensures input.Span(c, v.hi) == TextLength(input.sentences, c, v.hi) + 1
    {
      SpanIsText(input, c, v.hi);
    }
  }

  /** A chunk ends where the next sentence would not fit behind it, counting a separator for each, and not before. */
  lemma FullRules(input: Input, windows: seq<Window>, k: nat)
    requires input.Chunking(windows) && k < |windows|
    ensures
      var w, s := windows[k], input.sentences;
      var first := if k == 0 then 0 else windows[k - 1].hi;   // the first sentence not seen before
      && w.lo <= first < w.hi <= |s|
      && (input.chunkSize < |s[first]| ==> w == Window(first, first + 1))
      && (forall h :: first < h < w.hi ==>
            |s[h]| <= input.chunkSize && TextLength(s, w.lo, h) + 1 + |s[h]| + 1 <= input.chunkSize)
      && (w.hi < |s| && |s[w.hi - 1]| <= input.chunkSize && |s[w.hi]| <= input.chunkSize ==>
            input.chunkSize < TextLength(s, w.lo, w.hi) + 1 + |s[w.hi]| + 1)
  {
    assert input.Chained(windows, k);
    var w := windows[k];
    forall h | w.lo < h <= w.hi
      ensures input.Span(w.lo, h) == TextLength(input.sentences, w.lo, h) + 1
    {
      SpanIsText(input, w.lo, h);
    }
    var first := if k == 0 then 0 else windows[k - 1].hi;
    assert input.Grown(w.lo, first, w.hi);
    forall h | first < h < w.hi
      ensures |input.sentences[h]| <= input.chunkSize
      ensures TextLength(input.sentences, w.lo, h) + 1 + |input.sentences[h]| + 1 <= input.chunkSize
    {
      assert !input.Oversize(h) && !input.Overflows(w.lo, h);
      assert input.Span(w.lo, h) == TextLength(input.sentences, w.lo, h) + 1;
    }
    assert input.chunkSize < |input.sentences[first]| ==> input.Oversize(first);
    assert input.Span(w.lo, w.hi) == TextLength(input.sentences, w.lo, w.hi) + 1;
    if w.hi < |input.sentences| {
      assert k + 1 < |windows|;
      assert input.Chained(windows, k + 1);
    }
  }
}
