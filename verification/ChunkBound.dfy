/** internal/enrich/chunk.go: how long a sentence chunkSpans keeps whole, exactly. */
module ChunkBound {
  import opened Model
  import opened Text
  import opened Chunk
  import T = Tokenizer

  /** n one-letter words; a full stop follows word `stop`, spaces follow the others. */
  function Sample(n: nat, stop: int): (t: seq<Piece>)
    ensures |t| == 2 * n
  {
    seq(2 * n, i requires 0 <= i < 2 * n =>
      if i % 2 == 0 then Rune('a') else if i / 2 == stop then Rune('.') else Rune(' '))
  }

  function SampleRanges(n: nat): seq<T.Range> {
    seq(n, k requires 0 <= k < n => T.Range(2 * k, 2 * k))
  }

  function SampleTokens(n: nat): seq<Token> {
    seq(n, k requires 0 <= k < n => Token(k, "a", 2 * k, 2 * k + 1, ""))
  }

  lemma {:induction false} SampleOff(n: nat, stop: int, i: nat)
    requires i <= 2 * n
    ensures Off(Sample(n, stop), i) == i
  {
    if i > 0 {
      SampleOff(n, stop, i - 1);
    }
  }

  /** The full stop joins no two letters, so every word is a token of its own. */
  lemma SampleTokenized(u: Unicode, n: nat, stop: int)
    requires AsciiText(u)
    ensures T.IsTokenization(u, Sample(n, stop), SampleTokens(n))
  {
    var t, R := Sample(n, stop), SampleRanges(n);
    forall p {:trigger T.Covered(R, p)} | 0 <= p < |t| && T.Word(u, t[p]) ensures T.Covered(R, p) {
      assert T.Holds(R[p / 2], p);
    }
    forall i, j | T.Neighbours(u, t, i, j) && j < |t| ensures !T.Together(R, i, j) && !T.Linked(u, t, i, j) {
      SampleApart(u, n, stop, i, j);
    }
    assert T.Covers(u, t, |t|, R) && T.Agrees(u, t, |t|, R);
    forall k | 0 <= k < n ensures T.TokenAt(t, k, R[k]) == SampleTokens(n)[k] {
      SampleOff(n, stop, 2 * k);
      SampleOff(n, stop, 2 * k + 1);
      SampleText(n, stop, k);
    }
    assert T.Render(t, R) == SampleTokens(n);
  }

  lemma SampleApart(u: Unicode, n: nat, stop: int, i: int, j: int)
    requires AsciiText(u) && T.Neighbours(u, Sample(n, stop), i, j)
    ensures !T.Together(SampleRanges(n), i, j) && !T.Linked(u, Sample(n, stop), i, j)
  {
    var t := Sample(n, stop);
    assert i % 2 == 0 && j % 2 == 0;
    assert i + 2 < |t| ==> T.Word(u, t[i + 2]);
    assert j == i + 2;
    assert t[i + 1] == Rune('.') || t[i + 1] == Rune(' ');
  }

  lemma SampleText(n: nat, stop: int, k: nat)
    requires k < n
    ensures T.TextAt(Sample(n, stop), T.Range(2 * k, 2 * k)) == "a"
  {
    var run := Sample(n, stop)[2 * k..2 * k + 1];
    assert run == [Rune('a')];
    LiftInjective(Chars(run), "a");
  }

  lemma SampleEnds(n: nat, stop: int, k: nat)
    requires k < n
    ensures IsSentenceEnd(Sample(n, stop), SampleTokens(n), k) <==> k == n - 1 || k == stop
  {
    var t := Sample(n, stop);
    forall m | 0 <= m < |t| ensures Off(t, m) == m {
      SampleOff(n, stop, m);
    }
    if k < n - 1 && k == stop {
      assert t[2 * k + 1] == Rune('.');
    }
  }

  // ---------------------------------------------------------------- the exact length

  ghost predicate Whole(t: seq<Piece>, tokens: seq<Token>, maxTokens: int, a: int, b: int) {
    exists k :: 0 <= k < |Chunks(t, tokens, maxTokens)| &&
      In(Chunks(t, tokens, maxTokens)[k], a) && In(Chunks(t, tokens, maxTokens)[k], b)
  }

  /** In no text is a sentence of this many tokens split. */
  ghost predicate NeverSplit(u: Unicode, maxTokens: int, length: nat) {
    forall t, tokens, a, b | T.IsTokenization(u, t, tokens) && IsSentence(t, tokens, a, b) && b - a + 1 == length ::
      Whole(t, tokens, maxTokens, a, b)
  }

  /** A text whose sentence of the given length is split. */
  lemma SplitExample(u: Unicode, maxTokens: int, length: nat)
      returns (t: seq<Piece>, tokens: seq<Token>, a: int, b: int)
    requires AsciiText(u) && length > Max(maxTokens, 1) / 2 + 1
    ensures T.IsTokenization(u, t, tokens) && IsSentence(t, tokens, a, b) && b - a + 1 == length
    ensures !Whole(t, tokens, maxTokens, a, b)
  {
    hide T.IsTokenization, IsSentenceEnd, ChunksFrom;
    var m := Max(maxTokens, 1);
    var n := m - 1 + length;
    t, tokens, a, b := Sample(n, m - 2), SampleTokens(n), m - 1, m - 2 + length;
    SampleTokenized(u, n, m - 2);
    forall k | 0 <= k < n ensures IsSentenceEnd(t, tokens, k) <==> k == n - 1 || k == m - 2 {
      SampleEnds(n, m - 2, k);
    }
    LongerSentenceSplit(t, tokens, maxTokens, length);
    var c := Chunks(t, tokens, maxTokens);
    ChunksTile(t, tokens, m, 0);
    TileBounds(c, 0, |tokens|);
  }

  /** Sentences of a length are kept whole in every text exactly when the length is at most half a window and one. */
  lemma SafeLengthExact(u: Unicode, maxTokens: int, length: nat)
    requires AsciiText(u)
    ensures NeverSplit(u, maxTokens, length) <==> length <= Max(maxTokens, 1) / 2 + 1
  {
    hide T.IsTokenization, IsSentence, Chunks;
    if length <= Max(maxTokens, 1) / 2 + 1 {
      forall t, tokens, a, b | T.IsTokenization(u, t, tokens) && IsSentence(t, tokens, a, b) && b - a + 1 == length
        ensures Whole(t, tokens, maxTokens, a, b)
      {
        var k := ShortSentencesWhole(t, tokens, maxTokens, a, b);
      }
    } else {
      var t, tokens, a, b := SplitExample(u, maxTokens, length);
    }
  }

  lemma OffOrder(t: seq<Piece>, i: nat, j: nat)
    requires i <= |t| && j <= |t|
    ensures i <= j <==> Off(t, i) <= Off(t, j)
  {
    if i < j {
      OffMonotone(t, i, j);
    } else if j < i {
      OffMonotone(t, j, i);
    }
  }

  /** In a tokenized text a token but the last closes a sentence exactly when a full stop, an exclamation mark or a
      question mark stands between it and the next. */
  lemma SentenceEndMeans(u: Unicode, t: seq<Piece>, tokens: seq<Token>, i: nat) returns (a: T.Range, b: T.Range)
    requires T.IsTokenization(u, t, tokens) && i + 1 < |tokens|
    ensures a.last < |t| && b.first < |t|
    ensures tokens[i].End == Off(t, a.last + 1) && tokens[i + 1].Start == Off(t, b.first)
    ensures IsSentenceEnd(t, tokens, i) <==>
      exists m | a.last < m < b.first && m < |t| :: t[m].Rune? && t[m].c in ".!?"
  {
    a := T.TokenRange(u, t, tokens, i);
    b := T.TokenRange(u, t, tokens, i + 1);
    hide T.IsTokenization, Off;
    forall m: nat | m < |t|
      ensures tokens[i].End <= Off(t, m) < tokens[i + 1].Start <==> a.last < m < b.first
    {
      OffOrder(t, a.last + 1, m);
      OffOrder(t, b.first, m);
    }
  }
}
