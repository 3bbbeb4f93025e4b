/** internal/enrich/enrich.go: sanitising, merging and measuring annotations. */
module Enrich {
  import opened Model
  import opened Text
  import Chunk
  import K = VocabKey

  // ---------------------------------------------------------------- coverage

  predicate InSentence(s: Sentence, i: int) {
    s.StartIndex <= i <= s.EndIndex
  }

  /** Token i falls within at least one sentence. */
  predicate Covered(ss: seq<Sentence>, i: int) {
    exists k | 0 <= k < |ss| :: InSentence(ss[k], i)
  }

  predicate SpanCovered(ss: seq<Sentence>, span: Span) {
    forall i | span.Start <= i <= span.End :: Covered(ss, i)
  }

  function CoveredCount(ss: seq<Sentence>, n: nat): (c: nat)
    ensures c <= n
  {
    if n == 0 then 0 else CoveredCount(ss, n - 1) + if Covered(ss, n - 1) then 1 else 0
  }

  /** The completeness signal of the UI. */
  function Coverage(ss: seq<Sentence>, tokenCount: nat): real {
    if tokenCount == 0 then 0.0 else CoveredCount(ss, tokenCount) as real / tokenCount as real
  }

  function CountTrue(a: seq<bool>): nat {
    if a == [] then 0 else CountTrue(a[..|a| - 1]) + if a[|a| - 1] then 1 else 0
  }

  lemma {:induction false} CountTrueSet(a: seq<bool>, i: nat)
    requires i < |a| && !a[i]
    ensures CountTrue(a[i := true]) == CountTrue(a) + 1
  {
    var b := a[i := true];
    if i == |a| - 1 {
      assert b[..|a| - 1] == a[..|a| - 1];
    } else {
      assert b[..|a| - 1] == a[..|a| - 1][i := true];
      CountTrueSet(a[..|a| - 1], i);
    }
  }

  lemma {:induction false} CountTrueCovered(a: seq<bool>, ss: seq<Sentence>)
    requires forall i | 0 <= i < |a| :: a[i] <==> Covered(ss, i)
    ensures CountTrue(a) == CoveredCount(ss, |a|)
  {
    if a != [] {
      CountTrueCovered(a[..|a| - 1], ss);
    }
  }

  lemma {:induction false} CountTrueNone(n: nat)
    ensures CountTrue(seq(n, _ => false)) == 0
  {
    if n > 0 {
      CountTrueNone(n - 1);
      assert seq(n, _ => false)[..n - 1] == seq(n - 1, _ => false);
    }
  }

  lemma CoveredSnoc(ss: seq<Sentence>, s: Sentence, i: int)
    ensures Covered(ss + [s], i) <==> Covered(ss, i) || InSentence(s, i)
  {
    var all := ss + [s];
    if Covered(ss, i) {
      var k :| 0 <= k < |ss| && InSentence(ss[k], i);
      assert InSentence(all[k], i);
    }
    if InSentence(s, i) {
      assert InSentence(all[|ss|], i);
    }
  }

  /** store.go sentenceCoverage: fills a bool array and counts first hits. */
  method SentenceCoverage(ss: seq<Sentence>, tokenCount: nat) returns (c: real)
    ensures c == Coverage(ss, tokenCount)
  {
    if tokenCount <= 0 {
      return 0.0;
    }
    var covered := new bool[tokenCount](_ => false);
    var n := 0;
    assert covered[..] == seq(tokenCount, _ => false);
    CountTrueNone(tokenCount);
    var k := 0;
    while k < |ss|
      invariant 0 <= k <= |ss|
      invariant n == CountTrue(covered[..])
      invariant forall i | 0 <= i < tokenCount :: covered[i] <==> Covered(ss[..k], i)
    {
      var start := Chunk.Max(ss[k].StartIndex, 0);
      var end := Chunk.Min(ss[k].EndIndex, tokenCount - 1);
      var i := start;
      while i <= end
        invariant start <= i && (i == start || i <= end + 1)
        invariant n == CountTrue(covered[..])
        invariant forall j | 0 <= j < tokenCount :: covered[j] <==> Covered(ss[..k], j) || start <= j < i
      {
        if !covered[i] {
          CountTrueSet(covered[..], i);
          ghost var before := covered[..];
          covered[i] := true;
          assert covered[..] == before[i := true];
          n := n + 1;
        }
        i := i + 1;
      }
      assert ss[..k + 1] == ss[..k] + [ss[k]];
      forall j | 0 <= j < tokenCount ensures covered[j] <==> Covered(ss[..k + 1], j) {
        CoveredSnoc(ss[..k], ss[k], j);
      }
      k := k + 1;
    }
    assert ss[..k] == ss;
    CountTrueCovered(covered[..], ss);
    c := n as real / tokenCount as real;
  }

  method SpanIsCovered(ss: seq<Sentence>, span: Span) returns (r: bool)
    ensures r <==> SpanCovered(ss, span)
  {
    var i := span.Start;
    while i <= span.End
      invariant span.Start <= i
      invariant forall j | span.Start <= j < i :: Covered(ss, j)
    {
      if !Covered(ss, i) {
        return false;
      }
      i := i + 1;
    }
    return true;
  }

  // ---------------------------------------------------------------- uncoveredSpans

  /** spans are the maximal uncovered ranges of [0, n); Chunk.CanonicalUnique makes them unique. */
  ghost predicate AreGaps(ss: seq<Sentence>, n: int, spans: seq<Span>) {
    && Chunk.Canonical(spans)
    && forall x :: Chunk.InSome(spans, x) <==> 0 <= x < n && !Covered(ss, x)
  }

  method UncoveredSpans(ss: seq<Sentence>, tokenCount: int) returns (spans: seq<Span>)
    ensures AreGaps(ss, tokenCount, spans)
  {
    spans := [];
    if tokenCount <= 0 {
      return;
    }
    var covered := new bool[tokenCount](_ => false);
    var k := 0;
    while k < |ss|
      invariant 0 <= k <= |ss|
      invariant forall i | 0 <= i < tokenCount :: covered[i] <==> Covered(ss[..k], i)
    {
      var start := Chunk.Max(ss[k].StartIndex, 0);
      var end := Chunk.Min(ss[k].EndIndex, tokenCount - 1);
      var i := start;
      while i <= end
        invariant start <= i && (i == start || i <= end + 1)
        invariant forall j | 0 <= j < tokenCount :: covered[j] <==> Covered(ss[..k], j) || start <= j < i
      {
        covered[i] := true;
        i := i + 1;
      }
      assert ss[..k + 1] == ss[..k] + [ss[k]];
      forall j | 0 <= j < tokenCount ensures covered[j] <==> Covered(ss[..k + 1], j) {
        CoveredSnoc(ss[..k], ss[k], j);
      }
      k := k + 1;
    }
    assert ss[..k] == ss;
    spans := Runs(ss, covered);
  }

  /** The maximal runs of false, given which tokens are covered. */
  method Runs(ghost ss: seq<Sentence>, covered: array<bool>) returns (spans: seq<Span>)
    requires forall i | 0 <= i < covered.Length :: covered[i] <==> Covered(ss, i)
    ensures AreGaps(ss, covered.Length, spans)
  {
    hide Covered, Chunk.InSome, Chunk.Canonical;
    spans := [];
    NoRuns(ss);
    var tokenCount := covered.Length;
    var i := 0;
    while i < tokenCount
      invariant 0 <= i <= tokenCount
      invariant RunsUpTo(ss, i, spans)
      invariant spans != [] && i < tokenCount && !covered[i] ==> spans[|spans| - 1].End + 1 < i
    {
      if covered[i] {
        CoveredStep(ss, i, spans);
        i := i + 1;
      } else {
        var start := i;
        while i < tokenCount && !covered[i]
          invariant start <= i <= tokenCount
          invariant forall j | start <= j < i :: !covered[j]
        {
          i := i + 1;
        }
        assert forall j | start <= j < i :: !covered[j] && !Covered(ss, j);
        RunStep(ss, start, i, spans);
        spans := spans + [Span(start, i - 1)];
      }
    }
  }

  /** The maximal uncovered ranges of [0, i), all of which end before i. */
  ghost predicate RunsUpTo(ss: seq<Sentence>, i: int, spans: seq<Span>) {
    AreGaps(ss, i, spans) && (spans != [] ==> spans[|spans| - 1].End < i)
  }

  lemma NoRuns(ss: seq<Sentence>)
    ensures RunsUpTo(ss, 0, [])
  {
  }

  lemma CoveredStep(ss: seq<Sentence>, i: int, spans: seq<Span>)
    requires 0 <= i && RunsUpTo(ss, i, spans) && Covered(ss, i)
    ensures RunsUpTo(ss, i + 1, spans)
  {
    hide Covered, Chunk.InSome, Chunk.Canonical;
  }

  lemma RunStep(ss: seq<Sentence>, start: int, i: int, spans: seq<Span>)
    requires 0 <= start < i && RunsUpTo(ss, start, spans)
    requires forall j | start <= j < i :: !Covered(ss, j)
    requires spans != [] ==> spans[|spans| - 1].End + 1 < start
    ensures RunsUpTo(ss, i, spans + [Span(start, i - 1)])
  {
    hide Covered;
    forall x ensures Chunk.InSome(spans + [Span(start, i - 1)], x) <==> 0 <= x < i && !Covered(ss, x) {
      hide Chunk.InSome;
      Chunk.InSomeAppend(spans, Span(start, i - 1), x);
    }
  }

  function TotalLength(spans: seq<Span>): int {
    if spans == [] then 0
    else TotalLength(spans[..|spans| - 1]) + spans[|spans| - 1].End - spans[|spans| - 1].Start + 1
  }

  lemma {:induction false} CountOver(ss: seq<Sentence>, a: nat, b: nat, c: bool)
    requires a <= b && forall i | a <= i < b :: Covered(ss, i) == c
    ensures CoveredCount(ss, b) == CoveredCount(ss, a) + if c then b - a else 0
  {
    if a < b {
      CountOver(ss, a, b - 1, c);
    }
  }

  /** End of the part of [0, n) that the first k gaps account for. */
  function Reached(spans: seq<Span>, k: nat): int
    requires k <= |spans|
  {
    if k == 0 then 0 else spans[k - 1].End + 1
  }

  lemma {:induction false} GapsUpTo(ss: seq<Sentence>, n: nat, spans: seq<Span>, k: nat)
    requires AreGaps(ss, n, spans) && k <= |spans|
    ensures 0 <= Reached(spans, k) <= n
    ensures TotalLength(spans[..k]) + CoveredCount(ss, Reached(spans, k)) == Reached(spans, k)
  {
    hide Covered, AreGaps;
    if k > 0 {
      GapsUpTo(ss, n, spans, k - 1);
      GapStep(ss, n, spans, k - 1);
      assert spans[..k][..k - 1] == spans[..k - 1];
    }
  }

  lemma GapStep(ss: seq<Sentence>, n: nat, spans: seq<Span>, k: nat)
    requires AreGaps(ss, n, spans) && k < |spans| && 0 <= Reached(spans, k)
    ensures Reached(spans, k) <= spans[k].Start <= spans[k].End < n
    ensures CoveredCount(ss, spans[k].End + 1) ==
      CoveredCount(ss, Reached(spans, k)) + spans[k].Start - Reached(spans, k)
  {
    InSpanUncovered(ss, n, spans, k);
    var e := Reached(spans, k);
    assert e <= spans[k].Start by { assert k > 0 ==> spans[k - 1].End + 1 < spans[k].Start; }
    AllCovered(ss, n, spans, k, spans[k].Start);
    CountOver(ss, e, spans[k].Start, true);
    CountOver(ss, spans[k].Start, spans[k].End + 1, false);
  }

  lemma AllCovered(ss: seq<Sentence>, n: nat, spans: seq<Span>, k: nat, to: int)
    requires AreGaps(ss, n, spans) && k <= |spans| && 0 <= Reached(spans, k)
    requires to <= n && (k < |spans| ==> to <= spans[k].Start)
    ensures forall i | Reached(spans, k) <= i < to :: Covered(ss, i)
  {
    forall i | Reached(spans, k) <= i < to ensures Covered(ss, i) {
      BetweenSpans(spans, k, i);
    }
  }

  lemma InSpanUncovered(ss: seq<Sentence>, n: nat, spans: seq<Span>, k: nat)
    requires AreGaps(ss, n, spans) && k < |spans|
    ensures 0 <= spans[k].Start <= spans[k].End < n
    ensures forall i | spans[k].Start <= i <= spans[k].End :: !Covered(ss, i)
  {
    forall i | spans[k].Start <= i <= spans[k].End ensures 0 <= i < n && !Covered(ss, i) {
      assert Chunk.In(spans[k], i);
      assert Chunk.InSome(spans, i);
    }
    assert Chunk.InSome(spans, spans[k].Start) by { assert Chunk.In(spans[k], spans[k].Start); }
    assert Chunk.InSome(spans, spans[k].End) by { assert Chunk.In(spans[k], spans[k].End); }
  }

  lemma BetweenSpans(spans: seq<Span>, k: nat, i: int)
    requires Chunk.Canonical(spans) && k <= |spans|
    requires k < |spans| ==> i < spans[k].Start
    requires k > 0 ==> spans[k - 1].End < i
    ensures !Chunk.InSome(spans, i)
  {
    forall j | 0 <= j < |spans| ensures !Chunk.In(spans[j], i) {
    }
  }

  /** Covered tokens and gap lengths add up to n; coverage is 1 exactly when there is no gap. */
  lemma GapsComplementCoverage(ss: seq<Sentence>, n: nat, spans: seq<Span>)
    requires AreGaps(ss, n, spans)
    ensures TotalLength(spans) + CoveredCount(ss, n) == n
    ensures n > 0 ==> (Coverage(ss, n) == 1.0 <==> spans == [])
  {
    hide AreGaps, Covered;
    var k := |spans|;
    GapsUpTo(ss, n, spans, k);
    AllCovered(ss, n, spans, k, n);
    CountOver(ss, Reached(spans, k), n, true);
    assert spans[..k] == spans;
    if k > 0 {
      GapsNonEmpty(ss, n, spans);
      TotalPositive(spans);
      assert CoveredCount(ss, n) < n;
      RatioBelowOne(CoveredCount(ss, n), n);
    }
  }

  lemma RatioBelowOne(c: nat, n: nat)
    requires c < n
    ensures c as real / n as real < 1.0
  {
    var q := c as real / n as real;
    assert q * n as real == c as real;
    assert q >= 1.0 ==> q * n as real >= 1.0 * n as real;
  }

  lemma GapsNonEmpty(ss: seq<Sentence>, n: nat, spans: seq<Span>)
    requires AreGaps(ss, n, spans)
    ensures Chunk.NonEmptySpans(spans)
  {
  }

  lemma {:induction false} TotalPositive(spans: seq<Span>)
    requires Chunk.NonEmptySpans(spans)
    ensures TotalLength(spans) >= |spans|
  {
    if spans != [] {
      TotalPositive(spans[..|spans| - 1]);
    }
  }

  /** Token x is in a sentence that holds an uncovered token. */
  ghost predicate NeedsTopUp(t: seq<Piece>, tokens: seq<Token>, ss: seq<Sentence>, x: int) {
    0 <= x < |tokens| &&
    exists i :: 0 <= i < |tokens| && !Covered(ss, i) && Chunk.SameSentence(t, tokens, x, i)
  }

  /** The spans of a top-up: the gaps, widened to sentences. They are canonical, and together they are exactly
      the sentences that hold an uncovered token, the least set of whole sentences over the gaps. */
  method TopUpSpans(t: seq<Piece>, tokens: seq<Token>, ss: seq<Sentence>) returns (spans: seq<Span>)
    ensures Chunk.Canonical(spans)
    ensures t != [] ==> forall x :: Chunk.InSome(spans, x) <==> NeedsTopUp(t, tokens, ss, x)
    ensures spans == [] <==> forall i | 0 <= i < |tokens| :: Covered(ss, i)
  {
    hide Covered, Chunk.IsSentenceEnd, Chunk.SameSentence, Chunk.Canonical, NeedsTopUp, Chunk.Touched, Chunk.InSome;
    var gaps := UncoveredSpans(ss, |tokens|);
    GapsInRange(ss, |tokens|, gaps);
    GapsEmpty(ss, |tokens|, gaps);
    if |gaps| == 0 {
      NothingNeeded(t, tokens, ss);
      return gaps;
    }
    spans := Chunk.ExpandSpansToSentences(t, tokens, gaps);
    forall x ensures Chunk.Touched(t, tokens, gaps, x) <==> NeedsTopUp(t, tokens, ss, x) {
      TouchedIsNeeded(t, tokens, ss, gaps, x);
    }
    if t != [] {
      NeedsItself(t, tokens, ss, gaps[0].Start);
      NotEmpty(spans, gaps[0].Start);
    }
  }

  lemma NothingNeeded(t: seq<Piece>, tokens: seq<Token>, ss: seq<Sentence>)
    requires forall i | 0 <= i < |tokens| :: Covered(ss, i)
    ensures forall x :: !NeedsTopUp(t, tokens, ss, x) && !Chunk.InSome([], x)
  {
    hide Covered;
  }

  lemma NotEmpty(spans: seq<Span>, x: int)
    requires Chunk.InSome(spans, x)
    ensures spans != []
  {
  }

  lemma NeedsItself(t: seq<Piece>, tokens: seq<Token>, ss: seq<Sentence>, x: int)
    requires 0 <= x < |tokens| && !Covered(ss, x)
    ensures NeedsTopUp(t, tokens, ss, x)
  {
    assert Chunk.SameSentence(t, tokens, x, x);
  }

  lemma TouchedIsNeeded(t: seq<Piece>, tokens: seq<Token>, ss: seq<Sentence>, gaps: seq<Span>, x: int)
    requires AreGaps(ss, |tokens|, gaps)
    ensures Chunk.Touched(t, tokens, gaps, x) <==> NeedsTopUp(t, tokens, ss, x)
  {
    hide Covered, Chunk.SameSentence, Chunk.InSome, Chunk.Canonical;
    if Chunk.Touched(t, tokens, gaps, x) {
      var i :| 0 <= i < |tokens| && Chunk.InSome(gaps, i) && Chunk.SameSentence(t, tokens, x, i);
      assert !Covered(ss, i);
    }
    if NeedsTopUp(t, tokens, ss, x) {
      var i :| 0 <= i < |tokens| && !Covered(ss, i) && Chunk.SameSentence(t, tokens, x, i);
      assert Chunk.InSome(gaps, i);
    }
  }

  lemma GapsInRange(ss: seq<Sentence>, n: nat, spans: seq<Span>)
    requires AreGaps(ss, n, spans)
    ensures forall k | 0 <= k < |spans| :: 0 <= spans[k].Start <= spans[k].End < n && !Covered(ss, spans[k].Start)
  {
    hide Covered;
    forall k | 0 <= k < |spans| ensures 0 <= spans[k].Start <= spans[k].End < n && !Covered(ss, spans[k].Start) {
      InSpanUncovered(ss, n, spans, k);
    }
  }

  /** The worker finds nothing to top up exactly when every token is covered. */
  lemma GapsEmpty(ss: seq<Sentence>, n: nat, spans: seq<Span>)
    requires AreGaps(ss, n, spans)
    ensures spans == [] <==> forall i | 0 <= i < n :: Covered(ss, i)
  {
    hide Covered;
    if spans != [] {
      GapsInRange(ss, n, spans);
      assert 0 <= spans[0].Start < n && !Covered(ss, spans[0].Start);
    } else {
      forall i | 0 <= i < n ensures Covered(ss, i) {
        assert !Chunk.InSome(spans, i);
      }
    }
  }

  // ---------------------------------------------------------------- mergeEnrichment

  predicate HasWord(ws: seq<DifficultWord>, i: int) {
    exists k | 0 <= k < |ws| :: ws[k].TokenIndex == i
  }

  predicate HasPhrase(ps: seq<Phrase>, start: int, end: int) {
    exists k | 0 <= k < |ps| :: ps[k].StartIndex == start && ps[k].EndIndex == end
  }

  predicate HasTerm(gs: seq<GlossaryItem>, term: string) {
    exists k | 0 <= k < |gs| :: gs[k].Term == term
  }

  predicate Overlaps(ss: seq<Sentence>, s: Sentence) {
    exists i | s.StartIndex <= i <= s.EndIndex :: Covered(ss, i)
  }

  function MergeWords(ws: seq<DifficultWord>, add: seq<DifficultWord>): seq<DifficultWord> {
    if add == [] then ws
    else
      var m, w := MergeWords(ws, add[..|add| - 1]), add[|add| - 1];
      if HasWord(m, w.TokenIndex) then m else m + [w]
  }

  function MergePhrases(ps: seq<Phrase>, add: seq<Phrase>): seq<Phrase> {
    if add == [] then ps
    else
      var m, p := MergePhrases(ps, add[..|add| - 1]), add[|add| - 1];
      if HasPhrase(m, p.StartIndex, p.EndIndex) then m else m + [p]
  }

  function MergeGlossary(gs: seq<GlossaryItem>, add: seq<GlossaryItem>): seq<GlossaryItem> {
    if add == [] then gs
    else
      var m, g := MergeGlossary(gs, add[..|add| - 1]), add[|add| - 1];
      if HasTerm(m, g.Term) then m else m + [g]
  }

  function MergeSentences(ss: seq<Sentence>, add: seq<Sentence>): seq<Sentence> {
    if add == [] then ss
    else
      var m, s := MergeSentences(ss, add[..|add| - 1]), add[|add| - 1];
      if Overlaps(m, s) then m else m + [s]
  }

  /** Existing annotations win; additions that clash with what is already there are dropped. */
  function Merge(existing: Enrichment, addition: Enrichment): Enrichment {
    Enrichment(
      MergeWords(existing.DifficultWords, addition.DifficultWords),
      MergePhrases(existing.Phrases, addition.Phrases),
      MergeSentences(existing.Sentences, addition.Sentences),
      MergeGlossary(existing.Glossary, addition.Glossary))
  }

  method MergeEnrichment(existing: Enrichment, addition: Enrichment) returns (merged: Enrichment)
    ensures merged == Merge(existing, addition)
  {
    var words := MergeWordLists(existing.DifficultWords, addition.DifficultWords);
    var phrases := MergePhraseLists(existing.Phrases, addition.Phrases);
    var glossary := MergeGlossaries(existing.Glossary, addition.Glossary);
    var sentences := MergeSentenceLists(existing.Sentences, addition.Sentences);
    merged := Enrichment(words, phrases, sentences, glossary);
  }

  method MergeWordLists(existing: seq<DifficultWord>, addition: seq<DifficultWord>) returns (merged: seq<DifficultWord>)
    ensures merged == MergeWords(existing, addition)
  {
    merged := existing;
    var seenWord: set<int> := set k | 0 <= k < |existing| :: existing[k].TokenIndex;
    for k := 0 to |addition|
      invariant merged == MergeWords(existing, addition[..k])
      invariant forall i :: i in seenWord <==> HasWord(merged, i)
    {
      var w := addition[k];
      assert addition[..k + 1][..k] == addition[..k];
      if w.TokenIndex !in seenWord {
        ghost var before := merged;
        seenWord := seenWord + {w.TokenIndex};
        merged := merged + [w];
        forall i ensures i in seenWord <==> HasWord(merged, i) {
          if HasWord(before, i) {
            var j :| 0 <= j < |before| && before[j].TokenIndex == i;
            assert merged[j] == before[j];
          }
          assert merged[|before|] == w;
        }
      }
    }
    assert addition[..|addition|] == addition;
  }

  method MergePhraseLists(existing: seq<Phrase>, addition: seq<Phrase>) returns (merged: seq<Phrase>)
    ensures merged == MergePhrases(existing, addition)
  {
    merged := existing;
    var seenPhrase: set<(int, int)> := set k | 0 <= k < |existing| :: (existing[k].StartIndex, existing[k].EndIndex);
    for k := 0 to |addition|
      invariant merged == MergePhrases(existing, addition[..k])
      invariant forall a, b :: (a, b) in seenPhrase <==> HasPhrase(merged, a, b)
    {
      var p := addition[k];
      assert addition[..k + 1][..k] == addition[..k];
      if (p.StartIndex, p.EndIndex) !in seenPhrase {
        ghost var before := merged;
        seenPhrase := seenPhrase + {(p.StartIndex, p.EndIndex)};
        merged := merged + [p];
        forall a, b ensures (a, b) in seenPhrase <==> HasPhrase(merged, a, b) {
          if HasPhrase(before, a, b) {
            var j :| 0 <= j < |before| && before[j].StartIndex == a && before[j].EndIndex == b;
            assert merged[j] == before[j];
          }
          assert merged[|before|] == p;
        }
      }
    }
    assert addition[..|addition|] == addition;
  }

  method MergeGlossaries(existing: seq<GlossaryItem>, addition: seq<GlossaryItem>) returns (merged: seq<GlossaryItem>)
    ensures merged == MergeGlossary(existing, addition)
  {
    merged := existing;
    var seenTerm: set<string> := set k | 0 <= k < |existing| :: existing[k].Term;
    for k := 0 to |addition|
      invariant merged == MergeGlossary(existing, addition[..k])
      invariant forall t :: t in seenTerm <==> HasTerm(merged, t)
    {
      var g := addition[k];
      assert addition[..k + 1][..k] == addition[..k];
      if g.Term !in seenTerm {
        ghost var before := merged;
        seenTerm := seenTerm + {g.Term};
        merged := merged + [g];
        forall t ensures t in seenTerm <==> HasTerm(merged, t) {
          if HasTerm(before, t) {
            var j :| 0 <= j < |before| && before[j].Term == t;
            assert merged[j] == before[j];
          }
          assert merged[|before|] == g;
        }
      }
    }
    assert addition[..|addition|] == addition;
  }

  method MergeSentenceLists(existing: seq<Sentence>, addition: seq<Sentence>) returns (merged: seq<Sentence>)
    ensures merged == MergeSentences(existing, addition)
  {
    merged := existing;
    var covered: set<int> := {};
    for k := 0 to |existing|
      invariant forall i :: i in covered <==> Covered(existing[..k], i)
    {
      covered := MarkCovered(covered, existing[k]);
      assert existing[..k + 1] == existing[..k] + [existing[k]];
      forall i ensures i in covered <==> Covered(existing[..k + 1], i) {
        CoveredSnoc(existing[..k], existing[k], i);
      }
    }
    assert existing[..|existing|] == existing;
    for k := 0 to |addition|
      invariant merged == MergeSentences(existing, addition[..k])
      invariant forall i :: i in covered <==> Covered(merged, i)
    {
      var s := addition[k];
      assert addition[..k + 1][..k] == addition[..k];
      var overlaps := SentenceOverlaps(covered, s);
      if !overlaps {
        forall i ensures i in covered || InSentence(s, i) <==> Covered(merged + [s], i) {
          CoveredSnoc(merged, s, i);
        }
        merged := merged + [s];
        covered := MarkCovered(covered, s);
      }
    }
    assert addition[..|addition|] == addition;
  }

  method MarkCovered(covered: set<int>, s: Sentence) returns (marked: set<int>)
    ensures forall i :: i in marked <==> i in covered || InSentence(s, i)
  {
    marked := covered;
    var i := s.StartIndex;
    while i <= s.EndIndex
      invariant s.StartIndex <= i
      invariant forall j :: j in marked <==> j in covered || (s.StartIndex <= j < i && j <= s.EndIndex)
    {
      marked := marked + {i};
      i := i + 1;
    }
  }

  method SentenceOverlaps(covered: set<int>, s: Sentence) returns (r: bool)
    ensures r <==> exists i | s.StartIndex <= i <= s.EndIndex :: i in covered
  {
    var i := s.StartIndex;
    while i <= s.EndIndex
      invariant s.StartIndex <= i
      invariant forall j | s.StartIndex <= j < i :: j !in covered
    {
      if i in covered {
        return true;
      }
      i := i + 1;
    }
    return false;
  }

  // ---------------------------------------------------------------- merge laws

  /** f keeps every list of e as a prefix. */
  predicate Extends(e: Enrichment, f: Enrichment) {
    && e.DifficultWords <= f.DifficultWords
    && e.Phrases <= f.Phrases
    && e.Sentences <= f.Sentences
    && e.Glossary <= f.Glossary
  }

  lemma {:induction false} MergeWordsExtends(ws: seq<DifficultWord>, add: seq<DifficultWord>)
    ensures ws <= MergeWords(ws, add)
    ensures forall w | w in add :: HasWord(MergeWords(ws, add), w.TokenIndex)
  {
    if add != [] {
      var f, w := add[..|add| - 1], add[|add| - 1];
      MergeWordsExtends(ws, f);
      var m, r := MergeWords(ws, f), MergeWords(ws, add);
      forall x | x in add ensures HasWord(r, x.TokenIndex) {
        if x in f {
          assert HasWord(m, x.TokenIndex);
          var j :| 0 <= j < |m| && m[j].TokenIndex == x.TokenIndex;
          assert r[j] == m[j];
        } else if !HasWord(m, w.TokenIndex) {
          assert r[|m|] == w;
        }
      }
    }
  }

  lemma {:induction false} MergePhrasesExtends(ps: seq<Phrase>, add: seq<Phrase>)
    ensures ps <= MergePhrases(ps, add)
    ensures forall p | p in add :: HasPhrase(MergePhrases(ps, add), p.StartIndex, p.EndIndex)
  {
    if add != [] {
      var f, p := add[..|add| - 1], add[|add| - 1];
      MergePhrasesExtends(ps, f);
      var m, r := MergePhrases(ps, f), MergePhrases(ps, add);
      forall x | x in add ensures HasPhrase(r, x.StartIndex, x.EndIndex) {
        if x in f {
          assert HasPhrase(m, x.StartIndex, x.EndIndex);
          var j :| 0 <= j < |m| && m[j].StartIndex == x.StartIndex && m[j].EndIndex == x.EndIndex;
          assert r[j] == m[j];
        } else if !HasPhrase(m, p.StartIndex, p.EndIndex) {
          assert r[|m|] == p;
        }
      }
    }
  }

  lemma {:induction false} MergeGlossaryExtends(gs: seq<GlossaryItem>, add: seq<GlossaryItem>)
    ensures gs <= MergeGlossary(gs, add)
    ensures forall g | g in add :: HasTerm(MergeGlossary(gs, add), g.Term)
  {
    if add != [] {
      var f, g := add[..|add| - 1], add[|add| - 1];
      MergeGlossaryExtends(gs, f);
      var m, r := MergeGlossary(gs, f), MergeGlossary(gs, add);
      forall x | x in add ensures HasTerm(r, x.Term) {
        if x in f {
          assert HasTerm(m, x.Term);
          var j :| 0 <= j < |m| && m[j].Term == x.Term;
          assert r[j] == m[j];
        } else if !HasTerm(m, g.Term) {
          assert r[|m|] == g;
        }
      }
    }
  }

  lemma CoveredByPrefix(a: seq<Sentence>, b: seq<Sentence>, i: int)
    requires a <= b && Covered(a, i)
    ensures Covered(b, i)
  {
    var k :| 0 <= k < |a| && InSentence(a[k], i);
    assert b[k] == a[k];
  }

  lemma OverlapsByPrefix(a: seq<Sentence>, b: seq<Sentence>, s: Sentence)
    requires a <= b && Overlaps(a, s)
    ensures Overlaps(b, s)
  {
    var i :| s.StartIndex <= i <= s.EndIndex && Covered(a, i);
    CoveredByPrefix(a, b, i);
  }

  /** Every non-empty addition ends up overlapped: it was accepted, or it clashed. */
  lemma {:induction false} MergeSentencesExtends(ss: seq<Sentence>, add: seq<Sentence>)
    ensures ss <= MergeSentences(ss, add)
    ensures forall s | s in add && s.StartIndex <= s.EndIndex :: Overlaps(MergeSentences(ss, add), s)
  {
    if add != [] {
      var f, s := add[..|add| - 1], add[|add| - 1];
      MergeSentencesExtends(ss, f);
      var m, r := MergeSentences(ss, f), MergeSentences(ss, add);
      forall x | x in add && x.StartIndex <= x.EndIndex ensures Overlaps(r, x) {
        if x in f {
          OverlapsByPrefix(m, r, x);
        } else if !Overlaps(m, s) {
          CoveredSnoc(m, s, s.StartIndex);
          assert Covered(r, s.StartIndex);
        }
      }
    }
  }

  lemma MergeExtends(e: Enrichment, g: Enrichment)
    ensures Extends(e, Merge(e, g))
  {
    MergeWordsExtends(e.DifficultWords, g.DifficultWords);
    MergePhrasesExtends(e.Phrases, g.Phrases);
    MergeSentencesExtends(e.Sentences, g.Sentences);
    MergeGlossaryExtends(e.Glossary, g.Glossary);
  }

  predicate RealSentences(ss: seq<Sentence>) {
    forall k | 0 <= k < |ss| :: ss[k].StartIndex <= ss[k].EndIndex
  }

  lemma {:induction false} WordsAbsorbed(ws: seq<DifficultWord>, add: seq<DifficultWord>)
    requires forall w | w in add :: HasWord(ws, w.TokenIndex)
    ensures MergeWords(ws, add) == ws
  {
    if add != [] {
      WordsAbsorbed(ws, add[..|add| - 1]);
      assert add[|add| - 1] in add;
    }
  }

  lemma {:induction false} PhrasesAbsorbed(ps: seq<Phrase>, add: seq<Phrase>)
    requires forall p | p in add :: HasPhrase(ps, p.StartIndex, p.EndIndex)
    ensures MergePhrases(ps, add) == ps
  {
    if add != [] {
      PhrasesAbsorbed(ps, add[..|add| - 1]);
      assert add[|add| - 1] in add;
    }
  }

  lemma {:induction false} GlossaryAbsorbed(gs: seq<GlossaryItem>, add: seq<GlossaryItem>)
    requires forall g | g in add :: HasTerm(gs, g.Term)
    ensures MergeGlossary(gs, add) == gs
  {
    if add != [] {
      GlossaryAbsorbed(gs, add[..|add| - 1]);
      assert add[|add| - 1] in add;
    }
  }

  lemma {:induction false} SentencesAbsorbed(ss: seq<Sentence>, add: seq<Sentence>)
    requires forall s | s in add :: Overlaps(ss, s)
    ensures MergeSentences(ss, add) == ss
  {
    if add != [] {
      SentencesAbsorbed(ss, add[..|add| - 1]);
      assert add[|add| - 1] in add;
    }
  }

  /** Once merged, an addition is absorbed by every later state: merging it again changes nothing. */
  lemma MergeAbsorbs(e: Enrichment, g: Enrichment, later: Enrichment)
    requires Extends(Merge(e, g), later) && RealSentences(g.Sentences)
    ensures Merge(later, g) == later
  {
    MergeWordsExtends(e.DifficultWords, g.DifficultWords);
    MergePhrasesExtends(e.Phrases, g.Phrases);
    MergeSentencesExtends(e.Sentences, g.Sentences);
    MergeGlossaryExtends(e.Glossary, g.Glossary);
    var m := Merge(e, g);
    forall w | w in g.DifficultWords ensures HasWord(later.DifficultWords, w.TokenIndex) {
      assert HasWord(m.DifficultWords, w.TokenIndex);
      var j :| 0 <= j < |m.DifficultWords| && m.DifficultWords[j].TokenIndex == w.TokenIndex;
      assert later.DifficultWords[j] == m.DifficultWords[j];
    }
    forall p | p in g.Phrases ensures HasPhrase(later.Phrases, p.StartIndex, p.EndIndex) {
      assert HasPhrase(m.Phrases, p.StartIndex, p.EndIndex);
      var j :| 0 <= j < |m.Phrases| && m.Phrases[j].StartIndex == p.StartIndex && m.Phrases[j].EndIndex == p.EndIndex;
      assert later.Phrases[j] == m.Phrases[j];
    }
    forall t | t in g.Glossary ensures HasTerm(later.Glossary, t.Term) {
      assert HasTerm(m.Glossary, t.Term);
      var j :| 0 <= j < |m.Glossary| && m.Glossary[j].Term == t.Term;
      assert later.Glossary[j] == m.Glossary[j];
    }
    forall s | s in g.Sentences ensures Overlaps(later.Sentences, s) {
      OverlapsByPrefix(m.Sentences, later.Sentences, s);
    }
    WordsAbsorbed(later.DifficultWords, g.DifficultWords);
    PhrasesAbsorbed(later.Phrases, g.Phrases);
    SentencesAbsorbed(later.Sentences, g.Sentences);
    GlossaryAbsorbed(later.Glossary, g.Glossary);
  }

  /** Every index an annotation carries is valid for n tokens. */
  predicate Valid(e: Enrichment, n: nat) {
    && (forall k | 0 <= k < |e.DifficultWords| :: 0 <= e.DifficultWords[k].TokenIndex < n)
    && (forall k | 0 <= k < |e.Phrases| :: 0 <= e.Phrases[k].StartIndex <= e.Phrases[k].EndIndex < n)
    && (forall k | 0 <= k < |e.Sentences| :: 0 <= e.Sentences[k].StartIndex <= e.Sentences[k].EndIndex < n)
  }

  /** No token is in two sentences: the reader maps a token to one sentence. */
  predicate Disjoint(ss: seq<Sentence>) {
    forall j, k | 0 <= j < k < |ss| :: ss[j].EndIndex < ss[k].StartIndex || ss[k].EndIndex < ss[j].StartIndex
  }

  lemma Apart(ss: seq<Sentence>, s: Sentence, j: nat)
    requires RealSentences(ss) && s.StartIndex <= s.EndIndex && j < |ss| && !Overlaps(ss, s)
    ensures ss[j].EndIndex < s.StartIndex || s.EndIndex < ss[j].StartIndex
  {
    var x := Chunk.Max(s.StartIndex, ss[j].StartIndex);
    assert InSentence(ss[j], x) ==> Covered(ss, x);
    assert Covered(ss, x) ==> !InSentence(s, x);
  }

  lemma {:induction false} MergeSentencesDisjoint(ss: seq<Sentence>, add: seq<Sentence>)
    requires Disjoint(ss) && RealSentences(ss) && RealSentences(add)
    ensures Disjoint(MergeSentences(ss, add)) && RealSentences(MergeSentences(ss, add))
  {
    if add != [] {
      var f, s := add[..|add| - 1], add[|add| - 1];
      MergeSentencesDisjoint(ss, f);
      var m := MergeSentences(ss, f);
      if !Overlaps(m, s) {
        forall j | 0 <= j < |m| ensures m[j].EndIndex < s.StartIndex || s.EndIndex < m[j].StartIndex {
          Apart(m, s, j);
        }
      }
    }
  }

  lemma {:induction false} MergeWordsValid(ws: seq<DifficultWord>, add: seq<DifficultWord>, n: nat)
    requires forall k | 0 <= k < |ws| :: 0 <= ws[k].TokenIndex < n
    requires forall k | 0 <= k < |add| :: 0 <= add[k].TokenIndex < n
    ensures forall k | 0 <= k < |MergeWords(ws, add)| :: 0 <= MergeWords(ws, add)[k].TokenIndex < n
  {
    if add != [] {
      MergeWordsValid(ws, add[..|add| - 1], n);
    }
  }

  lemma {:induction false} MergePhrasesValid(ps: seq<Phrase>, add: seq<Phrase>, n: nat)
    requires forall k | 0 <= k < |ps| :: 0 <= ps[k].StartIndex <= ps[k].EndIndex < n
    requires forall k | 0 <= k < |add| :: 0 <= add[k].StartIndex <= add[k].EndIndex < n
    ensures forall k | 0 <= k < |MergePhrases(ps, add)| ::
      0 <= MergePhrases(ps, add)[k].StartIndex <= MergePhrases(ps, add)[k].EndIndex < n
  {
    if add != [] {
      MergePhrasesValid(ps, add[..|add| - 1], n);
    }
  }

  lemma {:induction false} MergeSentencesValid(ss: seq<Sentence>, add: seq<Sentence>, n: nat)
    requires forall k | 0 <= k < |ss| :: 0 <= ss[k].StartIndex <= ss[k].EndIndex < n
    requires forall k | 0 <= k < |add| :: 0 <= add[k].StartIndex <= add[k].EndIndex < n
    ensures forall k | 0 <= k < |MergeSentences(ss, add)| ::
      0 <= MergeSentences(ss, add)[k].StartIndex <= MergeSentences(ss, add)[k].EndIndex < n
  {
    hide Overlaps;
    if add != [] {
      MergeSentencesValid(ss, add[..|add| - 1], n);
    }
  }

  /** A merge of valid annotations is valid, and its sentences stay pairwise disjoint. */
  lemma MergeKeeps(e: Enrichment, g: Enrichment, n: nat)
    requires Valid(e, n) && Disjoint(e.Sentences) && Valid(g, n)
    ensures Valid(Merge(e, g), n) && Disjoint(Merge(e, g).Sentences)
  {
    MergeWordsValid(e.DifficultWords, g.DifficultWords, n);
    MergePhrasesValid(e.Phrases, g.Phrases, n);
    MergeSentencesValid(e.Sentences, g.Sentences, n);
    MergeSentencesDisjoint(e.Sentences, g.Sentences);
  }

  /** The merged sentences cover the old tokens and those of the sentences it accepted, nothing else;
      what it rejected overlapped something. */
  lemma {:induction false} MergeCoverage(ss: seq<Sentence>, add: seq<Sentence>) returns (accepted: seq<Sentence>)
    ensures MergeSentences(ss, add) == ss + accepted
    ensures forall s | s in accepted :: s in add && !Overlaps(ss, s)
    ensures forall s | s in add && s !in accepted :: Overlaps(ss + accepted, s)
  {
    accepted := [];
    if add != [] {
      var f, s := add[..|add| - 1], add[|add| - 1];
      accepted := MergeCoverage(ss, f);
      var m := ss + accepted;
      if !Overlaps(m, s) {
        if Overlaps(ss, s) { OverlapsByPrefix(ss, m, s); }
        forall x | x in add && x !in accepted + [s] ensures Overlaps(m + [s], x) {
          assert x in f;
          OverlapsByPrefix(m, m + [s], x);
        }
        accepted := accepted + [s];
        assert m + [s] == ss + accepted;
      }
    }
  }

  // ---------------------------------------------------------------- sanitizeEnrichment

  /** The user's vocabulary as the filter sees it: live keys, observed forms, and the kind of each key. */
  datatype Known = Known(keys: set<string>, surfaces: map<string, string>, kinds: map<string, string>,
        targetLang: string)

  const DEFAULT_TARGET_LANGUAGE := "ru"

  function Lang(known: Known): string {
    if known.targetLang == "" then DEFAULT_TARGET_LANGUAGE else known.targetLang
  }

  predicate KnowsWord(u: Unicode, known: Known, tok: Token) {
    && known.keys != {}
    && (|| K.WordKey(u, Lang(known), tok) in known.keys
        || (var form := K.NormalForm(u, tok.Text);
            form in known.surfaces && known.surfaces[form] in known.kinds &&
              known.kinds[known.surfaces[form]] == "word"))
  }

  predicate KnowsPhrase(u: Unicode, known: Known, tokens: seq<Token>, start: int, end: int) {
    && known.keys != {}
    && K.PhraseKey(u, Lang(known), tokens, start, end) != ""
    && K.PhraseKey(u, Lang(known), tokens, start, end) in known.keys
  }

  predicate Blank(u: Unicode, s: string) {
    K.Trim(u, s) == ""
  }

  predicate Echoes(u: Unicode, source: string, translation: string) {
    K.NormalForm(u, translation) != "" && K.NormalForm(u, translation) == K.NormalForm(u, source)
  }

  /** The first glossary entry that explains the word by its form or its lemma. */
  function GlossaryDefinition(u: Unicode, word: string, base: string, glossary: seq<GlossaryItem>): string {
    if glossary == [] then ""
    else
      var tn := K.NormalForm(u, glossary[0].Term);
      var ln := K.NormalForm(u, base);
      if tn != "" && (tn == K.NormalForm(u, word) || (ln != "" && tn == ln)) then K.Trim(u, glossary[0].Definition)
      else GlossaryDefinition(u, word, base, glossary[1..])
  }

  /** What becomes of one word annotation: dropped, kept, or kept with its translation recovered. */
  function CleanWord(u: Unicode, known: Known, tokens: seq<Token>, glossary: seq<GlossaryItem>, dw: DifficultWord)
      : Option<DifficultWord>
  {
    if dw.TokenIndex < 0 || dw.TokenIndex >= |tokens| then None
    else if Blank(u, dw.Translation) then None
    else if KnowsWord(u, known, tokens[dw.TokenIndex]) then None
    else
      var source := tokens[dw.TokenIndex].Text;
      if Echoes(u, source, dw.Translation) then
        var def := GlossaryDefinition(u, source, dw.Lemma, glossary);
        if def == "" then None else Some(dw.(Translation := def, Source := "glossary"))
      else Some(dw)
  }

  function Texts(tokens: seq<Token>): (r: seq<string>)
    ensures |r| == |tokens|
  {
    seq(|tokens|, i requires 0 <= i < |tokens| => tokens[i].Text)
  }

  predicate PhraseOk(u: Unicode, known: Known, tokens: seq<Token>, ph: Phrase) {
    && 0 <= ph.StartIndex <= ph.EndIndex < |tokens|
    && !Blank(u, ph.Translation) && !Blank(u, ph.Text)
    && K.NormalForm(u, ph.Text) == K.NormalForm(u, K.Join(Texts(tokens[ph.StartIndex..ph.EndIndex + 1]), ' '))
    && !KnowsPhrase(u, known, tokens, ph.StartIndex, ph.EndIndex)
  }

  predicate SentenceOk(u: Unicode, n: nat, s: Sentence) {
    0 <= s.StartIndex <= s.EndIndex < n && !Blank(u, s.Translation)
  }

  function CleanWords(u: Unicode, known: Known, tokens: seq<Token>, glossary: seq<GlossaryItem>, ws: seq<DifficultWord>)
      : seq<DifficultWord>
  {
    if ws == [] then []
    else
      var r := CleanWords(u, known, tokens, glossary, ws[..|ws| - 1]);
      match CleanWord(u, known, tokens, glossary, ws[|ws| - 1])
      case None => r
      case Some(w) => r + [w]
  }

  function CleanPhrases(u: Unicode, known: Known, tokens: seq<Token>, ps: seq<Phrase>): seq<Phrase> {
    if ps == [] then []
    else
      var r := CleanPhrases(u, known, tokens, ps[..|ps| - 1]);
      if PhraseOk(u, known, tokens, ps[|ps| - 1]) then r + [ps[|ps| - 1]] else r
  }

  function CleanSentences(u: Unicode, n: nat, ss: seq<Sentence>): seq<Sentence> {
    if ss == [] then []
    else
      var r := CleanSentences(u, n, ss[..|ss| - 1]);
      if SentenceOk(u, n, ss[|ss| - 1]) then r + [ss[|ss| - 1]] else r
  }

  function Sanitize(u: Unicode, known: Known, tokens: seq<Token>, e: Enrichment): Enrichment {
    Enrichment(
      CleanWords(u, known, tokens, e.Glossary, e.DifficultWords),
      CleanPhrases(u, known, tokens, e.Phrases),
      CleanSentences(u, |tokens|, e.Sentences),
      e.Glossary)
  }

  method SanitizeEnrichment(u: Unicode, known: Known, tokens: seq<Token>, e: Enrichment) returns (clean: Enrichment)
    ensures clean == Sanitize(u, known, tokens, e)
  {
    var words := SanitizeWords(u, known, tokens, e.Glossary, e.DifficultWords);
    var phrases := SanitizePhrases(u, known, tokens, e.Phrases);
    var sentences := SanitizeSentences(u, tokens, e.Sentences);
    clean := Enrichment(words, phrases, sentences, e.Glossary);
  }

  method SanitizeWords(u: Unicode, known: Known, tokens: seq<Token>, glossary: seq<GlossaryItem>,
        ws: seq<DifficultWord>)
      returns (words: seq<DifficultWord>)
    ensures words == CleanWords(u, known, tokens, glossary, ws)
  {
    hide Blank, KnowsWord, Echoes, GlossaryDefinition;
    words := [];
    for k := 0 to |ws|
      invariant words == CleanWords(u, known, tokens, glossary, ws[..k])
    {
      var dw := ws[k];
      assert ws[..k + 1][..k] == ws[..k];
      if dw.TokenIndex < 0 || dw.TokenIndex >= |tokens| {
        continue;
      }
      if Blank(u, dw.Translation) {
        continue;
      }
      if KnowsWord(u, known, tokens[dw.TokenIndex]) {
        continue;
      }
      var source := tokens[dw.TokenIndex].Text;
      if Echoes(u, source, dw.Translation) {
        var def := GlossaryDefinition(u, source, dw.Lemma, glossary);
        if def == "" {
          continue;
        }
        dw := dw.(Translation := def, Source := "glossary");
      }
      words := words + [dw];
    }
    assert ws[..|ws|] == ws;
  }

  method SanitizePhrases(u: Unicode, known: Known, tokens: seq<Token>, ps: seq<Phrase>) returns (phrases: seq<Phrase>)
    ensures phrases == CleanPhrases(u, known, tokens, ps)
  {
    hide Blank, KnowsPhrase, K.NormalForm, K.Join, Texts;
    phrases := [];
    for k := 0 to |ps|
      invariant phrases == CleanPhrases(u, known, tokens, ps[..k])
    {
      var ph := ps[k];
      assert ps[..k + 1][..k] == ps[..k];
      if ph.StartIndex < 0 || ph.StartIndex >= |tokens| {
        continue;
      }
      if ph.EndIndex < 0 || ph.EndIndex >= |tokens| {
        continue;
      }
      if ph.StartIndex > ph.EndIndex {
        continue;
      }
      if Blank(u, ph.Translation) || Blank(u, ph.Text) {
        continue;
      }
      var want := K.NormalForm(u, K.Join(Texts(tokens[ph.StartIndex..ph.EndIndex + 1]), ' '));
      if K.NormalForm(u, ph.Text) != want {
        continue;
      }
      if KnowsPhrase(u, known, tokens, ph.StartIndex, ph.EndIndex) {
        continue;
      }
      phrases := phrases + [ph];
    }
    assert ps[..|ps|] == ps;
  }

  method SanitizeSentences(u: Unicode, tokens: seq<Token>, ss: seq<Sentence>) returns (sentences: seq<Sentence>)
    ensures sentences == CleanSentences(u, |tokens|, ss)
  {
    hide Blank;
    sentences := [];
    for k := 0 to |ss|
      invariant sentences == CleanSentences(u, |tokens|, ss[..k])
    {
      var s := ss[k];
      assert ss[..k + 1][..k] == ss[..k];
      if s.StartIndex < 0 || s.StartIndex >= |tokens| {
        continue;
      }
      if s.EndIndex < 0 || s.EndIndex >= |tokens| {
        continue;
      }
      if s.StartIndex > s.EndIndex {
        continue;
      }
      if Blank(u, s.Translation) {
        continue;
      }
      sentences := sentences + [s];
    }
    assert ss[..|ss|] == ss;
  }

  lemma {:induction false} CleanWordsSound(u: Unicode, known: Known, tokens: seq<Token>, glossary: seq<GlossaryItem>,
        ws: seq<DifficultWord>)
    ensures forall w | w in CleanWords(u, known, tokens, glossary, ws) ::
      exists v | v in ws :: CleanWord(u, known, tokens, glossary, v) == Some(w)
  {
    if ws != [] {
      CleanWordsSound(u, known, tokens, glossary, ws[..|ws| - 1]);
      forall w | w in CleanWords(u, known, tokens, glossary, ws)
        ensures exists v | v in ws :: CleanWord(u, known, tokens, glossary, v) == Some(w)
      {
        if w in CleanWords(u, known, tokens, glossary, ws[..|ws| - 1]) {
          var v :| v in ws[..|ws| - 1] && CleanWord(u, known, tokens, glossary, v) == Some(w);
          assert v in ws;
        } else {
          assert ws[|ws| - 1] in ws;
        }
      }
    }
  }

  lemma {:induction false} CleanPhrasesSound(u: Unicode, known: Known, tokens: seq<Token>, ps: seq<Phrase>)
    ensures forall p | p in CleanPhrases(u, known, tokens, ps) :: PhraseOk(u, known, tokens, p)
  {
    if ps != [] {
      CleanPhrasesSound(u, known, tokens, ps[..|ps| - 1]);
    }
  }

  lemma {:induction false} CleanSentencesSound(u: Unicode, n: nat, ss: seq<Sentence>)
    ensures forall s | s in CleanSentences(u, n, ss) :: SentenceOk(u, n, s)
  {
    if ss != [] {
      CleanSentencesSound(u, n, ss[..|ss| - 1]);
    }
  }

  /** Whatever the model returned, the sanitised annotations carry valid indices and real sentences. */
  lemma SanitizeValid(u: Unicode, known: Known, tokens: seq<Token>, e: Enrichment)
    ensures Valid(Sanitize(u, known, tokens, e), |tokens|)
    ensures RealSentences(Sanitize(u, known, tokens, e).Sentences)
  {
    CleanWordsSound(u, known, tokens, e.Glossary, e.DifficultWords);
    CleanPhrasesSound(u, known, tokens, e.Phrases);
    CleanSentencesSound(u, |tokens|, e.Sentences);
    var c := Sanitize(u, known, tokens, e);
    forall k | 0 <= k < |c.DifficultWords| ensures 0 <= c.DifficultWords[k].TokenIndex < |tokens| {
      assert c.DifficultWords[k] in c.DifficultWords;
    }
    forall k | 0 <= k < |c.Phrases| ensures PhraseOk(u, known, tokens, c.Phrases[k]) {
      assert c.Phrases[k] in c.Phrases;
    }
    forall k | 0 <= k < |c.Sentences| ensures SentenceOk(u, |tokens|, c.Sentences[k]) {
      assert c.Sentences[k] in c.Sentences;
    }
  }

  // ---------------------------------------------------------------- sanitising twice

  lemma {:induction false} TrimStartStarts(u: Unicode, s: string)
    ensures var r := K.TrimStart(u, s); r != "" ==> !u.space(r[0])
  {
    if s != "" && u.space(s[0]) {
      TrimStartStarts(u, s[1..]);
    }
  }

  lemma {:induction false} TrimEndEnds(u: Unicode, s: string)
    requires s != "" ==> !u.space(s[0])
    ensures var r := K.TrimEnd(u, s); r != "" ==> !u.space(r[0]) && !u.space(r[|r| - 1])
  {
    if s != "" && u.space(K.Last(s)) {
      if |s| > 1 { assert K.Front(s)[0] == s[0]; }
      TrimEndEnds(u, K.Front(s));
    }
  }

  lemma TrimIdempotent(u: Unicode, s: string)
    ensures K.Trim(u, K.Trim(u, s)) == K.Trim(u, s)
  {
    TrimStartStarts(u, s);
    TrimEndEnds(u, K.TrimStart(u, s));
  }

  lemma {:induction false} DefinitionTrimmed(u: Unicode, word: string, base: string, glossary: seq<GlossaryItem>)
    ensures var d := GlossaryDefinition(u, word, base, glossary); K.Trim(u, d) == d
  {
    if glossary != [] {
      TrimIdempotent(u, glossary[0].Definition);
      DefinitionTrimmed(u, word, base, glossary[1..]);
    }
  }

  /** A kept word annotation survives a second pass unchanged, recovered translations included. */
  lemma CleanWordStable(u: Unicode, known: Known, tokens: seq<Token>, glossary: seq<GlossaryItem>, dw: DifficultWord)
    requires CleanWord(u, known, tokens, glossary, dw).Some?
    ensures var w := CleanWord(u, known, tokens, glossary, dw).value;
      CleanWord(u, known, tokens, glossary, w) == Some(w)
  {
    DefinitionTrimmed(u, tokens[dw.TokenIndex].Text, dw.Lemma, glossary);
  }

  lemma {:induction false} CleanWordsTwice(u: Unicode, known: Known, tokens: seq<Token>, glossary: seq<GlossaryItem>,
        ws: seq<DifficultWord>)
    ensures var r := CleanWords(u, known, tokens, glossary, ws); CleanWords(u, known, tokens, glossary, r) == r
  {
    if ws != [] {
      CleanWordsTwice(u, known, tokens, glossary, ws[..|ws| - 1]);
      var c := CleanWord(u, known, tokens, glossary, ws[|ws| - 1]);
      if c.Some? {
        CleanWordStable(u, known, tokens, glossary, ws[|ws| - 1]);
        var r := CleanWords(u, known, tokens, glossary, ws[..|ws| - 1]);
        assert (r + [c.value])[..|r|] == r;
      }
    }
  }

  lemma {:induction false} CleanPhrasesTwice(u: Unicode, known: Known, tokens: seq<Token>, ps: seq<Phrase>)
    ensures var r := CleanPhrases(u, known, tokens, ps); CleanPhrases(u, known, tokens, r) == r
  {
    if ps != [] {
      CleanPhrasesTwice(u, known, tokens, ps[..|ps| - 1]);
      var r := CleanPhrases(u, known, tokens, ps[..|ps| - 1]);
      assert (r + [ps[|ps| - 1]])[..|r|] == r;
    }
  }

  lemma {:induction false} CleanSentencesTwice(u: Unicode, n: nat, ss: seq<Sentence>)
    ensures var r := CleanSentences(u, n, ss); CleanSentences(u, n, r) == r
  {
    if ss != [] {
      CleanSentencesTwice(u, n, ss[..|ss| - 1]);
      var r := CleanSentences(u, n, ss[..|ss| - 1]);
      assert (r + [ss[|ss| - 1]])[..|r|] == r;
    }
  }

  lemma SanitizeIdempotent(u: Unicode, known: Known, tokens: seq<Token>, e: Enrichment)
    ensures Sanitize(u, known, tokens, Sanitize(u, known, tokens, e)) == Sanitize(u, known, tokens, e)
  {
    CleanWordsTwice(u, known, tokens, e.Glossary, e.DifficultWords);
    CleanPhrasesTwice(u, known, tokens, e.Phrases);
    CleanSentencesTwice(u, |tokens|, e.Sentences);
  }
}
