/** internal/enrich/chunk.go: splitting the token range into LLM windows, and widening gaps to sentences. */
module Chunk {
  import opened Model
  import opened Text

  function Max(a: int, b: int): int { if a > b then a else b }
  function Min(a: int, b: int): int { if a < b then a else b }

  /** Token i closes a sentence: it is the last one, or a terminator stands before the next token. */
  predicate IsSentenceEnd(t: seq<Piece>, tokens: seq<Token>, i: int)
    requires 0 <= i
  {
    i >= |tokens| - 1 ||
    exists m | 0 <= m < |t| ::
      tokens[i].End <= Off(t, m) < tokens[i + 1].Start && (t[m] == Rune('.') || t[m] == Rune('!') || t[m] == Rune('?'))
  }

  predicate In(s: Span, x: int) {
    s.Start <= x <= s.End
  }

  ghost predicate InSome(spans: seq<Span>, x: int) {
    exists k :: 0 <= k < |spans| && In(spans[k], x)
  }

  /** Tokens a..b form one sentence. */
  predicate IsSentence(t: seq<Piece>, tokens: seq<Token>, a: int, b: int) {
    && 0 <= a <= b < |tokens|
    && IsSentenceEnd(t, tokens, b)
    && (a == 0 || IsSentenceEnd(t, tokens, a - 1))
    && forall i | a <= i < b :: !IsSentenceEnd(t, tokens, i)
  }

  // ---------------------------------------------------------------- chunkSpans

  predicate Closes(t: seq<Piece>, tokens: seq<Token>, maxTokens: nat, start: nat, end: nat)
    requires start <= end < |tokens|
  {
    var length := end - start + 1;
    || end == |tokens| - 1
    || (length >= maxTokens && IsSentenceEnd(t, tokens, end))
    || length >= maxTokens + maxTokens / 2
  }

  function ChunkEnd(t: seq<Piece>, tokens: seq<Token>, maxTokens: nat, start: nat, end: nat): (e: nat)
    requires start <= end < |tokens|
    ensures end <= e < |tokens| && Closes(t, tokens, maxTokens, start, e)
    ensures forall i | end <= i < e :: !Closes(t, tokens, maxTokens, start, i)
    decreases |tokens| - end
  {
    hide IsSentenceEnd;
    if Closes(t, tokens, maxTokens, start, end) then end
    else ChunkEnd(t, tokens, maxTokens, start, end + 1)
  }

  function ChunksFrom(t: seq<Piece>, tokens: seq<Token>, maxTokens: nat, start: nat): seq<Span>
    requires start <= |tokens|
    decreases |tokens| - start
  {
    if start == |tokens| then []
    else
      var e := ChunkEnd(t, tokens, maxTokens, start, start);
      [Span(start, e)] + ChunksFrom(t, tokens, maxTokens, e + 1)
  }

  /** The windows of an article. */
  function Chunks(t: seq<Piece>, tokens: seq<Token>, maxTokens: int): seq<Span> {
    ChunksFrom(t, tokens, Max(maxTokens, 1), 0)
  }

  lemma ChunksStep(t: seq<Piece>, tokens: seq<Token>, maxTokens: nat, start: nat, done: seq<Span>)
    requires start < |tokens|
    ensures var e := ChunkEnd(t, tokens, maxTokens, start, start);
      done + ChunksFrom(t, tokens, maxTokens, start) ==
        (done + [Span(start, e)]) + ChunksFrom(t, tokens, maxTokens, e + 1)
  {
    hide ChunkEnd;
  }

  lemma EndStep(t: seq<Piece>, tokens: seq<Token>, maxTokens: nat, start: nat, end: nat)
    requires start <= end < |tokens|
    ensures Closes(t, tokens, maxTokens, start, end) ==> ChunkEnd(t, tokens, maxTokens, start, end) == end
    ensures !Closes(t, tokens, maxTokens, start, end) ==>
      end + 1 < |tokens| && ChunkEnd(t, tokens, maxTokens, start, end) == ChunkEnd(t, tokens, maxTokens, start, end + 1)
  {
    hide IsSentenceEnd;
  }

  method ChunkSpans(t: seq<Piece>, tokens: seq<Token>, maxTokens: int) returns (spans: seq<Span>)
    ensures spans == Chunks(t, tokens, maxTokens)
  {
    hide IsSentenceEnd, ChunkEnd, ChunksFrom;
    var n := |tokens|;
    spans := [];
    if n == 0 {
      NoChunks(t, tokens, Max(maxTokens, 1));
      return;
    }
    var max: nat := if maxTokens < 1 then 1 else maxTokens;
    var hardCap := max + max / 2;
    var start := 0;
    assert spans + ChunksFrom(t, tokens, max, start) == ChunksFrom(t, tokens, max, 0);
    while start < n
      invariant 0 <= start <= n
      invariant spans + ChunksFrom(t, tokens, max, start) == ChunksFrom(t, tokens, max, 0)
    {
      var end := start;
      while true
        invariant start <= end < n
        invariant ChunkEnd(t, tokens, max, start, end) == ChunkEnd(t, tokens, max, start, start)
        decreases n - end
      {
        EndStep(t, tokens, max, start, end);
        var length := end - start + 1;
        var last := end == n - 1;
        if last || (length >= max && IsSentenceEnd(t, tokens, end)) || length >= hardCap {
          break;
        }
        end := end + 1;
      }
      EndStep(t, tokens, max, start, end);
      ChunksStep(t, tokens, max, start, spans);
      spans := spans + [Span(start, end)];
      start := end + 1;
    }
    NoChunks(t, tokens, max);
    assert spans + [] == spans;
  }

  lemma NoChunks(t: seq<Piece>, tokens: seq<Token>, maxTokens: nat)
    ensures ChunksFrom(t, tokens, maxTokens, |tokens|) == []
  {
  }

  /** The spans cut [from, n) into consecutive non-empty ranges. */
  predicate Tiles(spans: seq<Span>, from: int, n: int) {
    if spans == [] then from == n
    else spans[0].Start == from && from <= spans[0].End && Tiles(spans[1..], spans[0].End + 1, n)
  }

  /** Every token is in exactly one chunk, in order. */
  lemma {:induction false} ChunksTile(t: seq<Piece>, tokens: seq<Token>, maxTokens: nat, start: nat)
    requires start <= |tokens|
    ensures Tiles(ChunksFrom(t, tokens, maxTokens, start), start, |tokens|)
    decreases |tokens| - start
  {
    hide ChunkEnd, Closes;
    if start < |tokens| {
      var e := ChunkEnd(t, tokens, maxTokens, start, start);
      ChunksTile(t, tokens, maxTokens, e + 1);
      assert ChunksFrom(t, tokens, maxTokens, start)[1..] == ChunksFrom(t, tokens, maxTokens, e + 1);
    }
  }

  /** Tiles, seen from a token: exactly one span holds it. */
  lemma {:induction false} TileOf(spans: seq<Span>, from: int, n: int, x: int) returns (k: nat)
    requires Tiles(spans, from, n) && from <= x < n
    ensures k < |spans| && In(spans[k], x)
    ensures forall j | 0 <= j < |spans| && In(spans[j], x) :: j == k
    ensures forall j | 0 <= j < k :: spans[j].End < x
  {
    TileBounds(spans[1..], spans[0].End + 1, n);
    assert forall j | 1 <= j < |spans| :: spans[j] == spans[1..][j - 1];
    if x <= spans[0].End {
      k := 0;
    } else {
      var k' := TileOf(spans[1..], spans[0].End + 1, n, x);
      k := k' + 1;
      forall j | 0 <= j < |spans| && In(spans[j], x) ensures j == k {
        assert In(spans[1..][j - 1], x);
      }
    }
  }

  lemma {:induction false} TileBounds(spans: seq<Span>, from: int, n: int)
    requires Tiles(spans, from, n)
    ensures from <= n
    ensures forall k | 0 <= k < |spans| :: from <= spans[k].Start <= spans[k].End < n
    ensures forall j, k | 0 <= j < k < |spans| :: spans[j].End < spans[k].Start
  {
    if spans != [] {
      TileBounds(spans[1..], spans[0].End + 1, n);
      assert forall k | 1 <= k < |spans| :: spans[k] == spans[1..][k - 1];
    }
  }

  /** The chunk that starts at `start`: what it holds and why it closed. */
  lemma {:induction false} ChunkAt(t: seq<Piece>, tokens: seq<Token>, maxTokens: nat, start: nat, k: nat)
    requires start <= |tokens| && k < |ChunksFrom(t, tokens, maxTokens, start)|
    ensures var s := ChunksFrom(t, tokens, maxTokens, start)[k];
      start <= s.Start <= s.End < |tokens| && s.End == ChunkEnd(t, tokens, maxTokens, s.Start, s.Start)
    decreases |tokens| - start
  {
    hide ChunkEnd, Closes;
    if k > 0 {
      var e := ChunkEnd(t, tokens, maxTokens, start, start);
      ChunkAt(t, tokens, maxTokens, e + 1, k - 1);
    }
  }

  /** Sizes: at most 1.5 windows, and at least one window unless the chunk ends the article;
      a chunk that stops inside a sentence has reached the hard cap. */
  lemma ChunkSizes(t: seq<Piece>, tokens: seq<Token>, maxTokens: int, k: nat)
    requires k < |Chunks(t, tokens, maxTokens)|
    ensures var m := Max(maxTokens, 1); var s := Chunks(t, tokens, maxTokens)[k]; var length := s.End - s.Start + 1;
      && 0 <= s.Start && 1 <= length <= m + m / 2
      && (s.End < |tokens| - 1 ==> length >= m)
      && (!IsSentenceEnd(t, tokens, s.End) ==> length == m + m / 2)
  {
    var m := Max(maxTokens, 1);
    ChunkAt(t, tokens, m, 0, k);
    var s := Chunks(t, tokens, maxTokens)[k];
    var cap := s.Start + m + m / 2 - 1;
    if cap < s.End {
      assert Closes(t, tokens, m, s.Start, cap);
    }
  }

  /** At most ceil(n / m) chunks: c chunks and n tokens satisfy (c - 1) * m < n. */
  lemma ChunkCount(t: seq<Piece>, tokens: seq<Token>, maxTokens: int)
    ensures var m := Max(maxTokens, 1); var c := |Chunks(t, tokens, maxTokens)|;
      (c - 1) * m < |tokens| || c == 0
  {
    var m := Max(maxTokens, 1);
    var c := Chunks(t, tokens, maxTokens);
    if |c| > 0 {
      StartAtLeast(t, tokens, maxTokens, |c| - 1);
      ChunkAt(t, tokens, m, 0, |c| - 1);
    }
  }

  lemma {:induction false} StartAtLeast(t: seq<Piece>, tokens: seq<Token>, maxTokens: int, k: nat)
    requires k < |Chunks(t, tokens, maxTokens)|
    ensures Chunks(t, tokens, maxTokens)[k].Start >= k * Max(maxTokens, 1)
  {
    hide ChunksFrom, Tiles, IsSentenceEnd;
    var m := Max(maxTokens, 1);
    var c := Chunks(t, tokens, maxTokens);
    ChunksTile(t, tokens, m, 0);
    TileBounds(c, 0, |tokens|);
    if k > 0 {
      StartAtLeast(t, tokens, maxTokens, k - 1);
      ChunkSizes(t, tokens, maxTokens, k - 1);
      assert c[k - 1].End < c[k].Start;
      assert k * m == (k - 1) * m + m;
    }
  }

  /** A sentence of at most m/2 + 1 tokens is never split: one chunk holds it whole. */
  lemma ShortSentencesWhole(t: seq<Piece>, tokens: seq<Token>, maxTokens: int, a: int, b: int) returns (k: nat)
    requires IsSentence(t, tokens, a, b)
    requires b - a + 1 <= Max(maxTokens, 1) / 2 + 1
    ensures k < |Chunks(t, tokens, maxTokens)|
    ensures var s := Chunks(t, tokens, maxTokens)[k]; In(s, a) && In(s, b)
  {
    var m := Max(maxTokens, 1);
    var c := Chunks(t, tokens, maxTokens);
    ChunksTile(t, tokens, m, 0);
    k := TileOf(c, 0, |tokens|, a);
    ChunkAt(t, tokens, m, 0, k);
    ChunkSizes(t, tokens, maxTokens, k);
    var s := c[k];
    // A chunk that stopped inside the sentence would be full, yet it could have closed at a - 1.
    assert s.Start < a ==> IsSentenceEnd(t, tokens, a - 1) && !Closes(t, tokens, m, s.Start, a - 1);
  }

  /** A longer sentence is split wherever it starts one token short of a full window: the window goes on to the
      hard cap, which lies inside the sentence. */
  lemma LongerSentenceSplit(t: seq<Piece>, tokens: seq<Token>, maxTokens: int, length: nat)
    requires var m := Max(maxTokens, 1);
      && length > m / 2 + 1 && m - 2 + length < |tokens|
      && (forall i | 0 <= i < m - 2 + length :: IsSentenceEnd(t, tokens, i) <==> i == m - 2)
      && IsSentenceEnd(t, tokens, m - 2 + length)
    ensures var m := Max(maxTokens, 1); var c := Chunks(t, tokens, maxTokens);
      && IsSentence(t, tokens, m - 1, m - 2 + length)
      && c != [] && c[0] == Span(0, m + m / 2 - 1)
      && In(c[0], m - 1) && !In(c[0], m - 2 + length)
  {
    hide IsSentenceEnd;
    var m := Max(maxTokens, 1);
    var cap := m + m / 2 - 1;
    assert Closes(t, tokens, m, 0, cap);
    assert forall i | 0 <= i < cap :: !Closes(t, tokens, m, 0, i);
  }

  // ---------------------------------------------------------------- coalesceSpans

  predicate SortedByStart(spans: seq<Span>) {
    forall i, j | 0 <= i < j < |spans| :: spans[i].Start <= spans[j].Start
  }

  predicate NonEmptySpans(spans: seq<Span>) {
    forall k | 0 <= k < |spans| :: spans[k].Start <= spans[k].End
  }

  /** Ascending, non-empty, and at least one token apart: the only such list with its union. */
  predicate Canonical(spans: seq<Span>) {
    && NonEmptySpans(spans)
    && forall i, j | 0 <= i < j < |spans| :: spans[i].End + 1 < spans[j].Start
  }

  ghost predicate SameUnion(a: seq<Span>, b: seq<Span>) {
    forall x :: InSome(a, x) <==> InSome(b, x)
  }

  function Insert(s: Span, sorted: seq<Span>): seq<Span> {
    if sorted == [] || sorted[0].Start >= s.Start then [s] + sorted
    else [sorted[0]] + Insert(s, sorted[1..])
  }

  function SortSpans(spans: seq<Span>): seq<Span> {
    if spans == [] then [] else Insert(spans[0], SortSpans(spans[1..]))
  }

  lemma {:induction false} InsertElements(s: Span, sorted: seq<Span>)
    ensures multiset(Insert(s, sorted)) == multiset(sorted) + multiset{s}
  {
    if sorted == [] || sorted[0].Start >= s.Start {
    } else {
      InsertElements(s, sorted[1..]);
      assert sorted == [sorted[0]] + sorted[1..];
    }
  }

  lemma {:induction false} InsertSorted(s: Span, sorted: seq<Span>)
    requires SortedByStart(sorted)
    ensures SortedByStart(Insert(s, sorted))
    ensures var r := Insert(s, sorted); r != [] && (r[0] == s || (sorted != [] && r[0] == sorted[0]))
  {
    if sorted == [] || sorted[0].Start >= s.Start {
    } else {
      InsertSorted(s, sorted[1..]);
      var tail := Insert(s, sorted[1..]);
      assert sorted[0].Start <= tail[0].Start;
      forall k | 0 <= k < |tail| ensures sorted[0].Start <= tail[k].Start {
        assert tail[0].Start <= tail[k].Start;
      }
    }
  }

  lemma {:induction false} SortSpansSorts(spans: seq<Span>)
    ensures SortedByStart(SortSpans(spans)) && multiset(SortSpans(spans)) == multiset(spans)
  {
    if spans != [] {
      SortSpansSorts(spans[1..]);
      InsertSorted(spans[0], SortSpans(spans[1..]));
      InsertElements(spans[0], SortSpans(spans[1..]));
      assert spans == [spans[0]] + spans[1..];
    }
  }

  predicate SameElements(a: seq<Span>, b: seq<Span>) {
    multiset(a) == multiset(b)
  }

  /** The library's sort.Slice by Start: some sorted rearrangement of the array. */
  method SortByStart(a: array<Span>)
    modifies a
    ensures SortedByStart(a[..]) && SameElements(a[..], old(a[..]))
  {
    hide SortSpans, SortedByStart;
    var r := SortSpans(a[..]);
    SortSpansSorts(a[..]);
    assert |r| == |multiset(r)| == |multiset(a[..])| == a.Length;
    forall i | 0 <= i < a.Length {
      a[i] := r[i];
    }
    assert a[..] == r;
  }

  lemma SameElementsSameUnion(a: seq<Span>, b: seq<Span>)
    requires SameElements(b, a)
    ensures SameUnion(a, b) && (NonEmptySpans(a) ==> NonEmptySpans(b))
  {
    forall x ensures InSome(a, x) <==> InSome(b, x) {
      if InSome(a, x) {
        var k :| 0 <= k < |a| && In(a[k], x);
        assert a[k] in multiset(b);
        var j :| 0 <= j < |b| && b[j] == a[k];
      }
      if InSome(b, x) {
        var k :| 0 <= k < |b| && In(b[k], x);
        assert b[k] in multiset(a);
        var j :| 0 <= j < |a| && a[j] == b[k];
      }
    }
    if NonEmptySpans(a) {
      forall k | 0 <= k < |b| ensures b[k].Start <= b[k].End {
        assert b[k] in multiset(a);
      }
    }
  }

  lemma CoalesceStep(out: seq<Span>, seen: seq<Span>, s: Span)
    requires out != [] && Canonical(out) && SameUnion(out, seen) && s.Start <= s.End
    requires out[|out| - 1].Start <= s.Start
    ensures Absorb(out, s) != [] && Canonical(Absorb(out, s)) && SameUnion(Absorb(out, s), seen + [s])
    ensures var r := Absorb(out, s); r[|r| - 1].Start <= s.Start
  {
    var k := |out| - 1;
    var last := out[k];
    forall x ensures InSome(Absorb(out, s), x) <==> InSome(seen + [s], x) {
      InSomeAppend(seen, s, x);
      assert InSome(out, x) <==> InSome(seen, x);
      assert out == out[..k] + [last];
      InSomeAppend(out[..k], last, x);
      if s.Start <= last.End + 1 {
        InSomeAppend(out[..k], Span(last.Start, Max(last.End, s.End)), x);
      } else {
        InSomeAppend(out, s, x);
      }
    }
  }

  lemma InSomeAppend(spans: seq<Span>, s: Span, x: int)
    ensures InSome(spans + [s], x) <==> InSome(spans, x) || In(s, x)
  {
    var all := spans + [s];
    if InSome(spans, x) {
      var k :| 0 <= k < |spans| && In(spans[k], x);
      assert all[k] == spans[k];
    }
    if In(s, x) {
      assert all[|spans|] == s;
    }
  }

  lemma SameUnionVia(a: seq<Span>, b: seq<Span>, c: seq<Span>)
    requires SameUnion(a, b) && SameUnion(c, b)
    ensures SameUnion(a, c)
  {
  }

  lemma SingleSpan(spans: seq<Span>)
    requires |spans| <= 1 && NonEmptySpans(spans)
    ensures Canonical(spans) && SameUnion(spans, spans)
  {
  }

  /** The output after span s: it extends the last output span or follows it. */
  function Absorb(out: seq<Span>, s: Span): seq<Span>
    requires out != []
  {
    var last := out[|out| - 1];
    if s.Start <= last.End + 1 then out[..|out| - 1] + [Span(last.Start, Max(last.End, s.End))] else out + [s]
  }

  /** Writes Absorb into the first slots of a; slot n is free because span i >= n has been read. */
  method AbsorbInto(a: array<Span>, n: nat, s: Span, ghost i: nat) returns (n': nat)
    requires 1 <= n <= i < a.Length
    modifies a
    ensures n <= n' <= i + 1 && a[..][..n'] == Absorb(old(a[..])[..n], s)
    ensures a[..][i + 1..] == old(a[..])[i + 1..]
  {
    if s.Start <= a[n - 1].End + 1 {
      if s.End > a[n - 1].End {
        a[n - 1] := Span(a[n - 1].Start, s.End);
      }
      n' := n;
    } else {
      a[n] := s;
      n' := n + 1;
    }
  }

  lemma OneSpan(spans: seq<Span>)
    requires NonEmptySpans(spans)
    ensures NonEmptySpans(spans[..if spans == [] then 0 else 1])
  {
  }

  /** The first n slots hold the canonical form of the first i spans; the spans from i on have not been touched. */
  ghost predicate Compacted(slots: seq<Span>, sorted: seq<Span>, n: nat, i: nat) {
    && 1 <= n <= i <= |slots| == |sorted|
    && slots[i..] == sorted[i..]
    && Canonical(slots[..n]) && SameUnion(slots[..n], sorted[..i])
    && slots[n - 1].Start <= sorted[i - 1].Start
  }

  lemma CompactedFirst(sorted: seq<Span>)
    requires NonEmptySpans(sorted) && sorted != []
    ensures Compacted(sorted, sorted, 1, 1)
  {
    hide SameUnion, Canonical;
    OneSpan(sorted);
    SingleSpan(sorted[..1]);
  }

  lemma CompactedNext(slots: seq<Span>, slots': seq<Span>, sorted: seq<Span>, n: nat, n': nat, i: nat)
    requires Compacted(slots, sorted, n, i) && SortedByStart(sorted) && NonEmptySpans(sorted) && i < |sorted|
    requires |slots'| == |slots| && n <= n' <= i + 1
    requires slots'[..n'] == Absorb(slots[..n], slots[i]) && slots'[i + 1..] == slots[i + 1..]
    ensures Compacted(slots', sorted, n', i + 1)
  {
    hide SameUnion, Canonical, Absorb;
    assert slots[i] == slots[i..][0] == sorted[i];
    assert slots[i..][1..] == slots[i + 1..] && sorted[i..][1..] == sorted[i + 1..];
    assert sorted[i - 1].Start <= sorted[i].Start <= sorted[i].End;
    CoalesceStep(slots[..n], sorted[..i], sorted[i]);
    assert sorted[..i] + [sorted[i]] == sorted[..i + 1];
    assert slots'[..n'][n' - 1] == slots'[n' - 1];
  }

  lemma CompactedAll(slots: seq<Span>, sorted: seq<Span>, n: nat)
    requires Compacted(slots, sorted, n, |sorted|)
    ensures Canonical(slots[..n]) && SameUnion(slots[..n], sorted)
  {
    hide SameUnion, Canonical;
    assert sorted[..|sorted|] == sorted;
  }

  /** In-place compaction: the output prefix of `a` never reaches a span not yet read. */
  method CoalesceSpans(a: array<Span>) returns (n: nat)
    requires NonEmptySpans(a[..])
    modifies a
    ensures n <= a.Length
    ensures Canonical(a[..n]) && SameUnion(a[..n], old(a[..]))
  {
    hide SameUnion, Canonical, Absorb, SortedByStart, NonEmptySpans, Compacted, SameElements;
    if a.Length <= 1 {
      assert a[..a.Length] == a[..];
      SingleSpan(a[..]);
      return a.Length;
    }
    SortByStart(a);
    ghost var sorted := a[..];
    SameElementsSameUnion(old(a[..]), sorted);
    CompactedFirst(sorted);
    n := 1;
    var i := 1;
    while i < a.Length
      invariant 1 <= n <= i <= a.Length && Compacted(a[..], sorted, n, i)
    {
      ghost var slots, m := a[..], n;
      n := AbsorbInto(a, n, a[i], i);
      CompactedNext(slots, a[..], sorted, m, n, i);
      i := i + 1;
    }
    CompactedAll(a[..], sorted, n);
    SameUnionVia(a[..n], sorted, old(a[..]));
  }

  /** Canonical span lists with the same union are the same list. */
  lemma {:induction false} CanonicalUnique(a: seq<Span>, b: seq<Span>)
    requires Canonical(a) && Canonical(b) && SameUnion(a, b)
    ensures a == b
  {
    if a == [] || b == [] {
      if a != [] { assert InSome(a, a[0].Start) by { assert In(a[0], a[0].Start); } }
      if b != [] { assert InSome(b, b[0].Start) by { assert In(b[0], b[0].Start); } }
    } else {
      FirstBelow(a, b);
      FirstBelow(b, a);
      assert a[0] == b[0];
      forall x ensures InSome(a[1..], x) <==> InSome(b[1..], x) {
        TailUnion(a, x);
        TailUnion(b, x);
      }
      CanonicalUnique(a[1..], b[1..]);
      assert a == [a[0]] + a[1..] && b == [b[0]] + b[1..];
    }
  }

  lemma TailUnion(a: seq<Span>, x: int)
    requires Canonical(a) && a != []
    ensures InSome(a[1..], x) <==> InSome(a, x) && x > a[0].End
  {
    if InSome(a[1..], x) {
      var k :| 0 <= k < |a[1..]| && In(a[1..][k], x);
      assert In(a[k + 1], x);
    }
    if InSome(a, x) && x > a[0].End {
      var k :| 0 <= k < |a| && In(a[k], x);
      assert In(a[1..][k - 1], x);
    }
  }

  lemma AfterFirst(b: seq<Span>)
    requires Canonical(b) && b != []
    ensures !InSome(b, b[0].End + 1)
    ensures forall x | InSome(b, x) :: b[0].Start <= x
  {
    forall k | 0 <= k < |b| ensures !In(b[k], b[0].End + 1) {
    }
  }

  lemma FirstBelow(a: seq<Span>, b: seq<Span>)
    requires Canonical(a) && Canonical(b) && SameUnion(a, b) && a != [] && b != []
    ensures a[0].Start >= b[0].Start
    ensures a[0].Start == b[0].Start ==> a[0].End <= b[0].End
  {
    AfterFirst(b);
    assert InSome(a, a[0].Start) by { assert In(a[0], a[0].Start); }
    assert !InSome(a, b[0].End + 1);
    assert !In(a[0], b[0].End + 1);
  }

  // ---------------------------------------------------------------- expandSpansToSentences

  /** No sentence boundary lies between tokens i and j. */
  predicate SameSentence(t: seq<Piece>, tokens: seq<Token>, i: int, j: int)
    requires 0 <= i && 0 <= j
  {
    forall m | Min(i, j) <= m < Max(i, j) :: !IsSentenceEnd(t, tokens, m)
  }

  /** Token x is in a sentence that some span touches. */
  ghost predicate Touched(t: seq<Piece>, tokens: seq<Token>, spans: seq<Span>, x: int) {
    0 <= x < |tokens| && exists i :: 0 <= i < |tokens| && InSome(spans, i) && SameSentence(t, tokens, x, i)
  }

  /** The span widened to whole sentences. */
  predicate Widened(t: seq<Piece>, tokens: seq<Token>, s: Span, w: Span) {
    && 0 <= w.Start <= s.Start <= s.End <= w.End < |tokens|
    && (w.Start == 0 || IsSentenceEnd(t, tokens, w.Start - 1))
    && (forall m | w.Start <= m < s.Start :: !IsSentenceEnd(t, tokens, m))
    && (w.End == |tokens| - 1 || IsSentenceEnd(t, tokens, w.End))
    && (forall m | s.End <= m < w.End :: !IsSentenceEnd(t, tokens, m))
  }

  lemma WidenedTouches(t: seq<Piece>, tokens: seq<Token>, s: Span, w: Span, x: int)
    requires Widened(t, tokens, s, w) && 0 <= x < |tokens|
    ensures In(w, x) <==> exists i :: In(s, i) && 0 <= i && SameSentence(t, tokens, x, i)
  {
    if In(w, x) {
      var i := if x < s.Start then s.Start else if x > s.End then s.End else x;
      assert In(s, i) && SameSentence(t, tokens, x, i);
    }
    if i :| In(s, i) && 0 <= i && SameSentence(t, tokens, x, i) {
      assert x < w.Start ==> Min(x, i) <= w.Start - 1 < Max(x, i);
    }
  }

  lemma WidenedUnion(t: seq<Piece>, tokens: seq<Token>, spans: seq<Span>, wide: seq<Span>, x: int)
    requires |wide| == |spans| && forall k | 0 <= k < |spans| :: Widened(t, tokens, spans[k], wide[k])
    ensures InSome(wide, x) <==> Touched(t, tokens, spans, x)
  {
    if InSome(wide, x) {
      var k :| 0 <= k < |wide| && In(wide[k], x);
      assert Widened(t, tokens, spans[k], wide[k]);
      WidenedTouches(t, tokens, spans[k], wide[k], x);
      var i :| In(spans[k], i) && 0 <= i && SameSentence(t, tokens, x, i);
      assert InSome(spans, i);
    }
    if Touched(t, tokens, spans, x) {
      var i :| 0 <= i < |tokens| && InSome(spans, i) && SameSentence(t, tokens, x, i);
      var k :| 0 <= k < |spans| && In(spans[k], i);
      assert Widened(t, tokens, spans[k], wide[k]);
      WidenedTouches(t, tokens, spans[k], wide[k], x);
      assert In(wide[k], x);
    }
  }

  /** Widens every span to whole sentences; an empty text or list is returned as it is. */
  method ExpandSpansToSentences(t: seq<Piece>, tokens: seq<Token>, spans: seq<Span>) returns (r: seq<Span>)
    requires forall k | 0 <= k < |spans| :: 0 <= spans[k].Start <= spans[k].End < |tokens|
    ensures tokens == [] || spans == [] || t == [] ==> r == spans
    ensures tokens != [] && spans != [] && t != [] ==>
      Canonical(r) && forall x :: InSome(r, x) <==> Touched(t, tokens, spans, x)
  {
    hide IsSentenceEnd, SameSentence;
    var n := |tokens|;
    if n == 0 || |spans| == 0 || |t| == 0 {
      return spans;
    }
    var expanded := new Span[|spans|](_ => Span(0, 0));
    var k := 0;
    while k < |spans|
      invariant 0 <= k <= |spans|
      invariant forall j | 0 <= j < k :: Widened(t, tokens, spans[j], expanded[j])
    {
      var s := spans[k];
      var start := s.Start;
      while start > 0 && !IsSentenceEnd(t, tokens, start - 1)
        invariant 0 <= start <= s.Start
        invariant forall m | start <= m < s.Start :: !IsSentenceEnd(t, tokens, m)
      {
        start := start - 1;
      }
      var end := s.End;
      while end < n - 1 && !IsSentenceEnd(t, tokens, end)
        invariant s.End <= end < n
        invariant forall m | s.End <= m < end :: !IsSentenceEnd(t, tokens, m)
      {
        end := end + 1;
      }
      expanded[k] := Span(start, end);
      k := k + 1;
    }
    ghost var wide := expanded[..];
    forall x ensures InSome(wide, x) <==> Touched(t, tokens, spans, x) {
      WidenedUnion(t, tokens, spans, wide, x);
    }
    var count := CoalesceSpans(expanded);
    r := expanded[..count];
    assert forall x :: InSome(r, x) <==> InSome(wide, x);
  }
}
