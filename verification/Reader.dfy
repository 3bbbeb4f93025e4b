/** frontend/src/lib/components/reader/reader-utils.ts: what a tap opens, and where the arrow keys stop. */
module Reader {
  import opened Model
  import opened Text
  import opened Overlay
  import T = Tokenizer

  /** The panel a tap opens. */
  datatype Content =
    | WordContent(
        tokenIndex: int, original: string, translation: string, Lemma: string, cefrLevel: string,
        fromGlossary: bool, fromVocab: bool)
    | PhraseContent(
        original: string, phraseType: string, translation: string, startIndex: int, endIndex: int, fromVocab: bool)

  // ---------------------------------------------------------------- the enrichment maps

  predicate InPhrase(p: Phrase, i: int) {
    p.StartIndex <= i <= p.EndIndex
  }

  /** The first phrase of the list that covers a token. */
  function PhraseOf(phrases: seq<Phrase>, i: int): Option<Phrase> {
    if phrases == [] then None
    else
      var r := PhraseOf(phrases[..|phrases| - 1], i);
      if r.Some? then r
      else if InPhrase(phrases[|phrases| - 1], i) then Some(phrases[|phrases| - 1])
      else None
  }

  /** The last difficult word recorded for a token. */
  function DifficultOf(words: seq<DifficultWord>, i: int): Option<DifficultWord> {
    if words == [] then None
    else if words[|words| - 1].TokenIndex == i then Some(words[|words| - 1])
    else DifficultOf(words[..|words| - 1], i)
  }

  function Lookup<V>(m: map<int, V>, i: int): Option<V> {
    if i in m then Some(m[i]) else None
  }

  ghost predicate IsPhraseMap(m: map<int, Phrase>, phrases: seq<Phrase>) {
    forall i :: Lookup(m, i) == PhraseOf(phrases, i)
  }

  ghost predicate IsDifficultMap(m: map<int, DifficultWord>, words: seq<DifficultWord>) {
    forall i :: Lookup(m, i) == DifficultOf(words, i)
  }

  method BuildDifficultWordMap(words: seq<DifficultWord>) returns (m: map<int, DifficultWord>)
    ensures IsDifficultMap(m, words)
  {
    m := map[];
    for k := 0 to |words|
      invariant IsDifficultMap(m, words[..k])
    {
      assert words[..k + 1][..k] == words[..k];
      m := m[words[k].TokenIndex := words[k]];
    }
    assert words[..|words|] == words;
  }

  /** What the map holds for j once the phrase has been put at its tokens before i. */
  function Filled(m: map<int, Phrase>, phrase: Phrase, i: int, j: int): Option<Phrase> {
    if j in m then Some(m[j]) else if InPhrase(phrase, j) && j < i then Some(phrase) else None
  }

  method BuildPhraseMap(phrases: seq<Phrase>) returns (m: map<int, Phrase>)
    ensures IsPhraseMap(m, phrases)
  {
    m := map[];
    for k := 0 to |phrases|
      invariant IsPhraseMap(m, phrases[..k])
    {
      assert phrases[..k + 1][..k] == phrases[..k];
      var phrase := phrases[k];
      var i := phrase.StartIndex;
      ghost var m0 := m;
      while i <= phrase.EndIndex
        invariant phrase.StartIndex <= i
        invariant forall j :: Lookup(m, j) == Filled(m0, phrase, i, j)
        decreases phrase.EndIndex - i
      {
        ghost var m1 := m;
        assert Lookup(m1, i) == Filled(m0, phrase, i, i);
        if i !in m {
          m := m[i := phrase];
        }
        forall j ensures Lookup(m, j) == Filled(m0, phrase, i + 1, j) {
          assert Lookup(m1, j) == Filled(m0, phrase, i, j);
        }
        i := i + 1;
      }
      forall j ensures Lookup(m, j) == PhraseOf(phrases[..k + 1], j) {
        assert Lookup(m0, j) == PhraseOf(phrases[..k], j);
      }
    }
    assert phrases[..|phrases|] == phrases;
  }

  lemma {:induction false} PhraseOfCovers(phrases: seq<Phrase>, i: int)
    ensures PhraseOf(phrases, i).Some? <==> exists p | p in phrases :: InPhrase(p, i)
    ensures PhraseOf(phrases, i).Some? ==>
      PhraseOf(phrases, i).value in phrases && InPhrase(PhraseOf(phrases, i).value, i)
  {
    if phrases != [] {
      var front, last := phrases[..|phrases| - 1], phrases[|phrases| - 1];
      assert phrases == front + [last];
      PhraseOfCovers(front, i);
    }
  }

  // ---------------------------------------------------------------- resolveClickContent

  function SliceText(tokens: seq<Token>, start: int, end: int, text: string): string {
    if 0 <= start < |tokens| && 0 <= end < |tokens| then Chars(Cut(Lift(text), tokens[start].Start, tokens[end].End))
    else ""
  }

  function ResolveClickContent(
      u: Unicode, tokenIndex: nat, tokens: seq<Token>, text: string,
      difficult: map<int, DifficultWord>, phrases: map<int, Phrase>, ix: VocabIndex): Option<Content>
    requires tokenIndex < |tokens|
  {
    if tokenIndex in phrases then
      var p := phrases[tokenIndex];
      Some(PhraseContent(
        SliceText(tokens, p.StartIndex, p.EndIndex, text), p.Type, p.Translation, p.StartIndex, p.EndIndex, false))
    else if tokenIndex in difficult then
      var w := difficult[tokenIndex];
      Some(WordContent(
        tokenIndex, tokens[tokenIndex].Text, w.Translation, w.Lemma, w.CEFRLevel, w.Source == "glossary", false))
    else
      match MatchPhrase(u, ix, tokens, tokenIndex)
      case Some(m) =>
        Some(PhraseContent(SliceText(tokens, m.startIndex, m.endIndex, text), m.entry.phraseType, m.entry.translation,
          m.startIndex, m.endIndex, true))
      case None =>
        match MatchWord(u, ix, tokens[tokenIndex])
        case Some(e) =>
          Some(WordContent(tokenIndex, tokens[tokenIndex].Text, e.translation, e.Lemma, e.cefrLevel, false, true))
        case None => None
  }

  // ---------------------------------------------------------------- keyboard stops

  /** A token the arrow keys stop at: the first of its enrichment phrase, or a marked word outside any. */
  predicate Stop(difficult: set<int>, phrases: map<int, Phrase>, vocab: set<int>, k: nat) {
    if k in phrases then phrases[k] !in SeenBefore(phrases, k) else k in difficult || k in vocab
  }

  /** The phrases some token before k belongs to. */
  function SeenBefore(phrases: map<int, Phrase>, k: nat): set<Phrase> {
    set j | 0 <= j < k && j in phrases :: phrases[j]
  }

  predicate Ascending(indices: seq<int>) {
    forall i, j | 0 <= i < j < |indices| :: indices[i] < indices[j]
  }

  predicate Positioned(tokens: seq<Token>) {
    forall k | 0 <= k < |tokens| :: tokens[k].Index == k
  }

  function Appended(indices: seq<int>, i: int): (r: seq<int>)
    requires Ascending(indices) && forall x | x in indices :: x < i
    ensures Ascending(r) && forall x :: x in r <==> x in indices || x == i
  {
    assert forall k | 0 <= k < |indices| :: indices[k] in indices;
    indices + [i]
  }

  method BuildInteractiveIndices(tokens: seq<Token>, difficult: set<int>, phrases: map<int, Phrase>, vocab: set<int>)
      returns (indices: seq<int>)
    requires Positioned(tokens)
    ensures Ascending(indices)
    ensures forall k :: k in indices <==> 0 <= k < |tokens| && Stop(difficult, phrases, vocab, k)
  {
    indices := [];
    var seen: set<Phrase> := {};
    for k := 0 to |tokens|
      invariant Ascending(indices)
      invariant forall i | i in indices :: 0 <= i < k && Stop(difficult, phrases, vocab, i)
      invariant forall i | 0 <= i < k && Stop(difficult, phrases, vocab, i) :: i in indices
      invariant seen == SeenBefore(phrases, k)
    {
      SeenNext(phrases, k);
      var i := tokens[k].Index;
      if i in phrases {
        if phrases[i] in seen {
          continue;
        }
        seen := seen + {phrases[i]};
        indices := Appended(indices, i);
        continue;
      }
      if i in difficult || i in vocab {
        indices := Appended(indices, i);
      }
    }
  }

  lemma SeenNext(phrases: map<int, Phrase>, k: nat)
    ensures SeenBefore(phrases, k + 1) == SeenBefore(phrases, k) + if k in phrases then {phrases[k]} else {}
  {
  }

  function NextAbove(indices: seq<int>, current: int): Option<int> {
    if indices == [] then None
    else if indices[0] > current then Some(indices[0])
    else NextAbove(indices[1..], current)
  }

  function PrevBelow(indices: seq<int>, current: int): Option<int> {
    if indices == [] then None
    else if indices[|indices| - 1] < current then Some(indices[|indices| - 1])
    else PrevBelow(indices[..|indices| - 1], current)
  }

  /** stepInteractiveIndex: clamps at both ends. */
  function Step(indices: seq<int>, current: Option<int>, forward: bool): Option<int> {
    if indices == [] then None
    else if current == None then Some(if forward then indices[0] else indices[|indices| - 1])
    else
      var r := if forward then NextAbove(indices, current.value) else PrevBelow(indices, current.value);
      if r.Some? then r else Some(if forward then indices[|indices| - 1] else indices[0])
  }

  method StepInteractiveIndex(indices: seq<int>, current: Option<int>, forward: bool) returns (r: Option<int>)
    ensures r == Step(indices, current, forward)
  {
    if |indices| == 0 {
      return None;
    }
    if current == None {
      return Some(if forward then indices[0] else indices[|indices| - 1]);
    }
    if forward {
      var k := 0;
      while k < |indices|
        invariant 0 <= k <= |indices|
        invariant NextAbove(indices, current.value) == NextAbove(indices[k..], current.value)
      {
        assert indices[k..][0] == indices[k] && indices[k..][1..] == indices[k + 1..];
        if indices[k] > current.value {
          return Some(indices[k]);
        }
        k := k + 1;
      }
      return Some(indices[|indices| - 1]);
    }
    var i := |indices| - 1;
    assert indices[..i + 1] == indices;
    while i >= 0
      invariant -1 <= i < |indices|
      invariant PrevBelow(indices, current.value) == PrevBelow(indices[..i + 1], current.value)
    {
      assert indices[..i + 1][..i] == indices[..i];
      if indices[i] < current.value {
        return Some(indices[i]);
      }
      i := i - 1;
    }
    r := Some(indices[0]);
  }

  lemma {:induction false} NextOf(indices: seq<int>, i: nat)
    requires Ascending(indices) && i + 1 < |indices|
    ensures NextAbove(indices, indices[i]) == Some(indices[i + 1])
    decreases i
  {
    if i > 0 {
      assert Ascending(indices[1..]);
      NextOf(indices[1..], i - 1);
    } else {
      assert indices[1..][0] == indices[1];
    }
  }

  lemma {:induction false} PrevOf(indices: seq<int>, i: nat)
    requires Ascending(indices) && 0 < i < |indices|
    ensures PrevBelow(indices, indices[i]) == Some(indices[i - 1])
    decreases |indices|
  {
    var n := |indices| - 1;
    if i < n {
      PrevOf(indices[..n], i);
    } else {
      assert indices[..n][n - 1] == indices[n - 1];
      assert PrevBelow(indices[..n], indices[n]) == Some(indices[n - 1]);
    }
  }

  /** Stepping forward from outside visits the whole list in order; stepping back undoes a step. */
  lemma StepsVisitAll(indices: seq<int>, i: nat)
    requires Ascending(indices) && i < |indices|
    ensures Step(indices, None, true) == Some(indices[0])
    ensures Step(indices, Some(indices[i]), true) == Some(indices[if i + 1 < |indices| then i + 1 else i])
    ensures Step(indices, Some(indices[i]), false) == Some(indices[if i > 0 then i - 1 else 0])
  {
    if i + 1 < |indices| {
      NextOf(indices, i);
    } else {
      NothingAbove(indices, indices[i]);
    }
    if i > 0 {
      PrevOf(indices, i);
    } else {
      NothingBelow(indices, indices[0]);
    }
  }

  lemma {:induction false} NothingAbove(indices: seq<int>, c: int)
    requires forall i | 0 <= i < |indices| :: indices[i] <= c
    ensures NextAbove(indices, c) == None
  {
    if indices != [] {
      NothingAbove(indices[1..], c);
    }
  }

  lemma {:induction false} NothingBelow(indices: seq<int>, c: int)
    requires forall i | 0 <= i < |indices| :: c <= indices[i]
    ensures PrevBelow(indices, c) == None
  {
    if indices != [] {
      NothingBelow(indices[..|indices| - 1], c);
    }
  }

  lemma {:induction false} NextAboveMeans(indices: seq<int>, c: int)
    requires Ascending(indices)
    ensures var r := NextAbove(indices, c);
      if r.Some? then r.value in indices && r.value > c && forall x | x in indices && x > c :: r.value <= x
      else forall x | x in indices :: x <= c
  {
    if indices != [] && indices[0] <= c {
      NextAboveMeans(indices[1..], c);
      assert indices == [indices[0]] + indices[1..];
    }
  }

  lemma {:induction false} PrevBelowMeans(indices: seq<int>, c: int)
    requires Ascending(indices)
    ensures var r := PrevBelow(indices, c);
      if r.Some? then r.value in indices && r.value < c && forall x | x in indices && x < c :: x <= r.value
      else forall x | x in indices :: c <= x
  {
    if indices != [] && indices[|indices| - 1] >= c {
      var front := indices[..|indices| - 1];
      PrevBelowMeans(front, c);
      assert indices == front + [indices[|indices| - 1]];
    }
  }

  /** From wherever the reader is, a step goes to the nearest stop in its direction; at the end it stays on the last
      stop there; from nowhere it goes to the first stop or the last. */
  lemma StepMeans(indices: seq<int>, current: Option<int>, forward: bool)
    requires Ascending(indices) && indices != []
    ensures Step(indices, current, forward).Some?
    ensures var r := Step(indices, current, forward).value;
      && r in indices
      && (forward && current.Some? && (exists x | x in indices :: x > current.value) ==>
            r > current.value && forall x | x in indices && x > current.value :: r <= x)
      && (!forward && current.Some? && (exists x | x in indices :: x < current.value) ==>
            r < current.value && forall x | x in indices && x < current.value :: x <= r)
      && (forward && current.Some? && (forall x | x in indices :: x <= current.value) ==>
            forall x | x in indices :: x <= r)
      && (!forward && current.Some? && (forall x | x in indices :: current.value <= x) ==>
            forall x | x in indices :: r <= x)
      && (current.None? ==> forall x | x in indices :: if forward then r <= x else x <= r)
  {
    if current.Some? {
      NextAboveMeans(indices, current.value);
      PrevBelowMeans(indices, current.value);
    }
    forall x | x in indices ensures indices[0] <= x <= indices[|indices| - 1] {
      var i :| 0 <= i < |indices| && indices[i] == x;
      assert i > 0 ==> indices[0] < indices[i];
      assert i < |indices| - 1 ==> indices[i] < indices[|indices| - 1];
    }
  }

  // ---------------------------------------------------------------- click, overlay and keyboard agree

  predicate Annotated(difficult: map<int, DifficultWord>, phrases: map<int, Phrase>, k: int) {
    k in difficult || k in phrases
  }

  /** A tap answers exactly on the annotated tokens and on what the user has collected. */
  lemma ClickAnswers(
      u: Unicode, k: nat, tokens: seq<Token>, text: string,
      difficult: map<int, DifficultWord>, phrases: map<int, Phrase>, entries: seq<VocabEntry>)
    requires k < |tokens|
    ensures ResolveClickContent(u, k, tokens, text, difficult, phrases, IndexOf(u, entries)).Some? <==>
      Annotated(difficult, phrases, k) || Collected(u, entries, tokens, k)
  {
    hide MatchPhrase, MatchWord, SliceText, IndexOf, Collected;
    ClickMatchesOverlay(u, k, tokens, text, difficult, phrases, IndexOf(u, entries));
    DecoratedMeans(u, entries, tokens, difficult.Keys + phrases.Keys, k);
  }

  /** p is the first phrase of the list over token k. */
  predicate FirstOver(phrases: seq<Phrase>, k: int, p: Phrase) {
    exists i | 0 <= i < |phrases| ::
      phrases[i] == p && InPhrase(p, k) && forall j | 0 <= j < i :: !InPhrase(phrases[j], k)
  }

  /** w is the last word of the list on token k. */
  predicate LastOn(words: seq<DifficultWord>, k: int, w: DifficultWord) {
    exists i | 0 <= i < |words| ::
      words[i] == w && w.TokenIndex == k && forall j | i < j < |words| :: words[j].TokenIndex != k
  }

  lemma FirstOverLater(front: seq<Phrase>, last: Phrase, k: int, p: Phrase)
    requires FirstOver(front, k, p)
    ensures FirstOver(front + [last], k, p)
  {
    hide InPhrase;
    var i :| 0 <= i < |front| && front[i] == p && InPhrase(p, k) && forall j | 0 <= j < i :: !InPhrase(front[j], k);
    var all := front + [last];
    assert all[i] == p && forall j | 0 <= j < i :: all[j] == front[j];
  }

  lemma FirstOverNow(front: seq<Phrase>, last: Phrase, k: int)
    requires InPhrase(last, k) && forall p | p in front :: !InPhrase(p, k)
    ensures FirstOver(front + [last], k, last)
  {
    hide InPhrase;
    var all := front + [last];
    assert all[|front|] == last && forall j | 0 <= j < |front| :: all[j] == front[j] && front[j] in front;
  }

  lemma {:induction false} PhraseOfFirst(phrases: seq<Phrase>, k: int)
    ensures PhraseOf(phrases, k).Some? ==> FirstOver(phrases, k, PhraseOf(phrases, k).value)
    ensures PhraseOf(phrases, k).None? ==> forall p | p in phrases :: !InPhrase(p, k)
  {
    hide FirstOver, InPhrase;
    if phrases != [] {
      var front, last := phrases[..|phrases| - 1], phrases[|phrases| - 1];
      assert phrases == front + [last];
      PhraseOfFirst(front, k);
      if PhraseOf(front, k).Some? {
        FirstOverLater(front, last, k, PhraseOf(front, k).value);
      } else if InPhrase(last, k) {
        FirstOverNow(front, last, k);
      }
    }
  }

  lemma LastOnLater(front: seq<DifficultWord>, last: DifficultWord, k: int, w: DifficultWord)
    requires LastOn(front, k, w) && last.TokenIndex != k
    ensures LastOn(front + [last], k, w)
  {
    var i :| 0 <= i < |front| && front[i] == w && w.TokenIndex == k &&
      forall j | i < j < |front| :: front[j].TokenIndex != k;
    var all := front + [last];
    assert all[i] == w && forall j | i < j < |front| :: all[j] == front[j];
  }

  lemma LastOnNow(front: seq<DifficultWord>, last: DifficultWord)
    ensures LastOn(front + [last], last.TokenIndex, last)
  {
    assert (front + [last])[|front|] == last;
  }

  lemma {:induction false} DifficultOfLast(words: seq<DifficultWord>, k: int)
    ensures DifficultOf(words, k).Some? ==> LastOn(words, k, DifficultOf(words, k).value)
    ensures DifficultOf(words, k).None? ==> forall w | w in words :: w.TokenIndex != k
  {
    hide LastOn;
    if words != [] {
      var front, last := words[..|words| - 1], words[|words| - 1];
      assert words == front + [last];
      if last.TokenIndex == k {
        LastOnNow(front, last);
      } else {
        DifficultOfLast(front, k);
        if DifficultOf(front, k).Some? {
          LastOnLater(front, last, k, DifficultOf(front, k).value);
        }
      }
    }
  }

  /** What the panel shows of a phrase annotation, a word annotation, a collected phrase, a collected word. */
  predicate ShowsPhrase(c: Content, p: Phrase) {
    c.PhraseContent? && !c.fromVocab && c.translation == p.Translation && c.phraseType == p.Type &&
    c.startIndex == p.StartIndex && c.endIndex == p.EndIndex
  }

  predicate ShowsWord(c: Content, k: int, w: DifficultWord) {
    c.WordContent? && !c.fromVocab && c.tokenIndex == k && c.translation == w.Translation && c.Lemma == w.Lemma &&
    c.cefrLevel == w.CEFRLevel && (c.fromGlossary <==> w.Source == "glossary")
  }

  predicate ShowsCollectedPhrase(c: Content, m: PhraseMatch) {
    c.PhraseContent? && c.fromVocab && c.translation == m.entry.translation && c.phraseType == m.entry.phraseType &&
    c.startIndex == m.startIndex && c.endIndex == m.endIndex
  }

  predicate ShowsCollectedWord(c: Content, k: int, e: VocabEntry) {
    c.WordContent? && c.fromVocab && !c.fromGlossary && c.tokenIndex == k && c.translation == e.translation &&
    c.Lemma == e.Lemma && c.cefrLevel == e.cefrLevel
  }

  /** The text the panel quotes: that of the range it is about. */
  predicate Quotes(c: Content, tokens: seq<Token>, text: string, k: nat)
    requires k < |tokens|
  {
    c.original == if c.PhraseContent? then SliceText(tokens, c.startIndex, c.endIndex, text) else tokens[k].Text
  }

  /** m is a collected phrase over token k, and none over it starts later, or there and is longer. */
  ghost predicate BestOver(u: Unicode, entries: seq<VocabEntry>, tokens: seq<Token>, k: nat, m: PhraseMatch) {
    Occurs(u, entries, tokens, m) && Covers(m, k) &&
    forall x | Occurs(u, entries, tokens, x) && Covers(x, k) :: NoWorse(m, x)
  }

  /** What a tap shows: the article's first phrase over the token, or else its last word on it, or else the best
      collected phrase over it, or else the collected word. */
  lemma ClickShows(
      u: Unicode, k: nat, tokens: seq<Token>, text: string, e: Enrichment,
      difficult: map<int, DifficultWord>, phrases: map<int, Phrase>, entries: seq<VocabEntry>)
    requires k < |tokens| && IsPhraseMap(phrases, e.Phrases) && IsDifficultMap(difficult, e.DifficultWords)
    requires ResolveClickContent(u, k, tokens, text, difficult, phrases, IndexOf(u, entries)).Some?
    ensures var c := ResolveClickContent(u, k, tokens, text, difficult, phrases, IndexOf(u, entries)).value;
      && Quotes(c, tokens, text, k)
      && if exists p | p in e.Phrases :: InPhrase(p, k) then
           exists p :: FirstOver(e.Phrases, k, p) && ShowsPhrase(c, p)
         else if exists w | w in e.DifficultWords :: w.TokenIndex == k then
           exists w :: LastOn(e.DifficultWords, k, w) && ShowsWord(c, k, w)
         else if exists m :: Occurs(u, entries, tokens, m) && Covers(m, k) then
           exists m :: BestOver(u, entries, tokens, k, m) && ShowsCollectedPhrase(c, m)
         else
           exists x :: MatchWord(u, IndexOf(u, entries), tokens[k]) == Some(x) && ShowsCollectedWord(c, k, x)
  {
    hide IndexOf, SliceText, MatchPhrase, MatchWord, Occurs, Covers, NoWorse, FirstOver, LastOn, PhraseOf, DifficultOf;
    var c := ResolveClickContent(u, k, tokens, text, difficult, phrases, IndexOf(u, entries)).value;
    assert Lookup(phrases, k) == PhraseOf(e.Phrases, k) && Lookup(difficult, k) == DifficultOf(e.DifficultWords, k);
    PhraseOfFirst(e.Phrases, k);
    PhraseOfCovers(e.Phrases, k);
    DifficultOfLast(e.DifficultWords, k);
    MatchPhraseRefinesBruteForce(u, entries, tokens, k);
    if k in phrases {
      assert ShowsPhrase(c, phrases[k]);
    } else if k in difficult {
      LastOnIn(e.DifficultWords, k, difficult[k]);
      assert ShowsWord(c, k, difficult[k]);
    } else {
      var m := MatchPhrase(u, IndexOf(u, entries), tokens, k);
      if m.Some? {
        assert BestOver(u, entries, tokens, k, m.value) && ShowsCollectedPhrase(c, m.value);
      } else {
        assert ShowsCollectedWord(c, k, MatchWord(u, IndexOf(u, entries), tokens[k]).value);
      }
    }
  }

  lemma LastOnIn(words: seq<DifficultWord>, k: int, w: DifficultWord)
    requires LastOn(words, k, w)
    ensures w in words && w.TokenIndex == k
  {
  }

  lemma LiftCut(text: string, a: nat, b: nat)
    requires a <= b <= |text|
    ensures Lift(text)[a..b] == Lift(text[a..b])
  {
  }

  /** Where a token of a valid text stands. */
  lemma TokenPlace(u: Unicode, text: string, tokens: seq<Token>, i: nat) returns (a: T.Range)
    requires T.IsTokenization(u, Lift(text), tokens) && i < |tokens|
    ensures a.first <= a.last < |text| && tokens[i].Text == text[a.first..a.last + 1]
    ensures tokens[i].Start == Off(Lift(text), a.first) && tokens[i].End == Off(Lift(text), a.last + 1)
  {
    hide T.IsTokenization, Off;
    var t := Lift(text);
    a := T.TokenRange(u, t, tokens, i);
    T.TokensOrdered(u, t, tokens);
    assert tokens[i] in tokens;
    var x: nat, y: nat :| x <= y <= |t| && tokens[i].Start == Off(t, x) && tokens[i].End == Off(t, y) &&
      t[x..y] == Lift(tokens[i].Text);
    AtOff(t, x);
    AtOff(t, y);
    AtOff(t, a.first);
    AtOff(t, a.last + 1);
    LiftCut(text, x, y);
    LiftInjective(tokens[i].Text, text[x..y]);
  }

  /** The quoted text of a range of tokens runs from the first character of the first to the last of the last; for one
      token it is the token's text. */
  lemma SliceTextMeans(u: Unicode, text: string, tokens: seq<Token>, i: nat, j: nat) returns (a: T.Range, b: T.Range)
    requires T.IsTokenization(u, Lift(text), tokens) && i <= j < |tokens|
    ensures a.first <= a.last < |text| && b.first <= b.last < |text| && a.first <= b.last
    ensures tokens[i].Text == text[a.first..a.last + 1] && tokens[j].Text == text[b.first..b.last + 1]
    ensures SliceText(tokens, i, j, text) == text[a.first..b.last + 1]
    ensures i == j ==> SliceText(tokens, i, j, text) == tokens[i].Text
  {
    hide T.IsTokenization, Off, Cut, At;
    var t := Lift(text);
    a := TokenPlace(u, text, tokens, i);
    b := a;
    if i != j {
      b := TokenPlace(u, text, tokens, j);
      T.TokensOrdered(u, t, tokens);
      if b.last < a.first {
        OffNotLater(t, b.last + 1, a.first);
      }
    }
    CutAt(t, a.first, b.last + 1);
    LiftCut(text, a.first, b.last + 1);
    LiftInjective(SliceText(tokens, i, j, text), text[a.first..b.last + 1]);
  }

  lemma OffNotLater(t: seq<Piece>, i: nat, j: nat)
    requires i <= j <= |t|
    ensures Off(t, i) <= Off(t, j)
  {
    if i < j {
      OffMonotone(t, i, j);
    }
  }

  /** A tap answers exactly on the annotated tokens and the ones the overlay decorates. */
  lemma ClickMatchesOverlay(
      u: Unicode, k: nat, tokens: seq<Token>, text: string,
      difficult: map<int, DifficultWord>, phrases: map<int, Phrase>, ix: VocabIndex)
    requires k < |tokens|
    ensures ResolveClickContent(u, k, tokens, text, difficult, phrases, ix).Some? <==>
      Annotated(difficult, phrases, k) || Decorated(u, ix, tokens, difficult.Keys + phrases.Keys, k)
  {
    hide MatchPhrase, MatchWord, SliceText;
  }

  lemma FirstOfPhrase(phrases: map<int, Phrase>, k: nat) returns (i: nat)
    requires k in phrases
    ensures i <= k && i in phrases && phrases[i] == phrases[k] && phrases[k] !in SeenBefore(phrases, i)
  {
    i := 0;
    while i !in phrases || phrases[i] != phrases[k]
      invariant i <= k && forall j | 0 <= j < i && j in phrases :: phrases[j] != phrases[k]
      decreases k - i
    {
      i := i + 1;
    }
  }

  /** A stop at or before the token opens the same panel. */
  ghost predicate Reached(
      u: Unicode, k: nat, tokens: seq<Token>, text: string,
      difficult: map<int, DifficultWord>, phrases: map<int, Phrase>, ix: VocabIndex, indices: seq<int>)
    requires k < |tokens|
  {
    exists i: nat | i <= k :: i in indices &&
      ResolveClickContent(u, i, tokens, text, difficult, phrases, ix) ==
        ResolveClickContent(u, k, tokens, text, difficult, phrases, ix)
  }

  /** Every panel a tap can open is reached by a stop, at or before the tapped token; every stop opens a panel;
      and no enrichment phrase has two stops. */
  lemma KeyboardReachesEveryPanel(
      u: Unicode, tokens: seq<Token>, text: string,
      difficult: map<int, DifficultWord>, phrases: map<int, Phrase>, ix: VocabIndex, vocab: set<int>, indices: seq<int>)
    requires forall k :: k in vocab <==> Decorated(u, ix, tokens, difficult.Keys + phrases.Keys, k)
    requires forall k :: k in indices <==> 0 <= k < |tokens| && Stop(difficult.Keys, phrases, vocab, k)
    ensures forall k: nat | k < |tokens| && ResolveClickContent(u, k, tokens, text, difficult, phrases, ix).Some? ::
      Reached(u, k, tokens, text, difficult, phrases, ix, indices)
    ensures forall i | i in indices ::
      0 <= i < |tokens| && ResolveClickContent(u, i, tokens, text, difficult, phrases, ix).Some?
    ensures forall i, j | i in indices && j in indices && i in phrases && j in phrases && phrases[i] == phrases[j] ::
      i == j
  {
    hide MatchPhrase, MatchWord, SliceText;
    forall k: nat | k < |tokens| && ResolveClickContent(u, k, tokens, text, difficult, phrases, ix).Some?
      ensures Reached(u, k, tokens, text, difficult, phrases, ix, indices)
    {
      if k in phrases {
        var i := FirstOfPhrase(phrases, k);
        assert i in indices;
      } else {
        ClickMatchesOverlay(u, k, tokens, text, difficult, phrases, ix);
        assert k in indices;
      }
    }
    forall i | i in indices
      ensures 0 <= i < |tokens| && ResolveClickContent(u, i, tokens, text, difficult, phrases, ix).Some?
    {
      ClickMatchesOverlay(u, i, tokens, text, difficult, phrases, ix);
    }
  }
}
