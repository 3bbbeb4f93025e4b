/** What sanitising and merging keep, item by item: which answers survive, what becomes of them, in which order. */
module EnrichLaws {
  import opened Model
  import opened Text
  import opened Enrich
  import Chunk
  import K = VocabKey

  // ---------------------------------------------------------------- words

  /** Nothing but white space. */
  predicate SpacesOnly(u: Unicode, s: string) {
    forall k | 0 <= k < |s| :: u.space(s[k])
  }

  lemma {:induction false} SpacesTrimmed(u: Unicode, s: string)
    ensures K.TrimStart(u, s) == "" <==> SpacesOnly(u, s)
  {
    if s != "" && u.space(s[0]) {
      SpacesTrimmed(u, s[1..]);
      assert forall k | 1 <= k < |s| :: s[k] == s[1..][k - 1];
    }
  }

  lemma BlankIsSpaces(u: Unicode, s: string)
    ensures Blank(u, s) <==> SpacesOnly(u, s)
  {
    SpacesTrimmed(u, s);
    var r := K.TrimStart(u, s);
    TrimStartStarts(u, s);
    if r != "" {
      TrimEndKeeps(u, r);
    }
  }

  lemma {:induction false} TrimEndKeeps(u: Unicode, s: string)
    requires s != "" && !u.space(s[0])
    ensures K.TrimEnd(u, s) != ""
  {
    if u.space(K.Last(s)) {
      assert |s| > 1 && K.Front(s)[0] == s[0];
      TrimEndKeeps(u, K.Front(s));
    }
  }

  /** Trimming takes white space off both ends, all of it and nothing else. */
  lemma {:induction false} TrimMeans(u: Unicode, s: string) returns (lead: string, trail: string)
    ensures s == lead + K.Trim(u, s) + trail && SpacesOnly(u, lead) && SpacesOnly(u, trail)
    ensures var r := K.Trim(u, s); r != "" ==> !u.space(r[0]) && !u.space(r[|r| - 1])
  {
    lead := LeadOf(u, s);
    trail := TrailOf(u, K.TrimStart(u, s));
    TrimStartStarts(u, s);
    TrimEndEnds(u, K.TrimStart(u, s));
  }

  lemma {:induction false} LeadOf(u: Unicode, s: string) returns (lead: string)
    ensures s == lead + K.TrimStart(u, s) && SpacesOnly(u, lead)
  {
    lead := "";
    if s != "" && u.space(s[0]) {
      var rest := LeadOf(u, s[1..]);
      lead := [s[0]] + rest;
    }
  }

  lemma {:induction false} TrailOf(u: Unicode, s: string) returns (trail: string)
    ensures s == K.TrimEnd(u, s) + trail && SpacesOnly(u, trail)
  {
    trail := "";
    if s != "" && u.space(K.Last(s)) {
      var rest := TrailOf(u, K.Front(s));
      trail := rest + [K.Last(s)];
    }
  }

  /** The language keys are built with: Russian for a reader who has set none. */
  function Language(known: Known): string {
    if known.targetLang != "" then known.targetLang else "ru"
  }

  /** The user has collected the token: its key, or as an observed form of a word. A user without vocabulary has
      collected nothing. */
  predicate Collected(u: Unicode, known: Known, tok: Token) {
    known.keys != {} &&
    (("word:" + Language(known) + ":" + K.NormalForm(u, K.LemmaOf(u, tok))) in known.keys ||
     exists key | key in known.kinds ::
       known.kinds[key] == "word" && K.NormalForm(u, tok.Text) in known.surfaces &&
       known.surfaces[K.NormalForm(u, tok.Text)] == key)
  }

  /** The translation is the word itself, as far as letters and digits go. */
  predicate SaysNothing(u: Unicode, word: string, translation: string) {
    K.NormalForm(u, translation) == K.NormalForm(u, word) && K.NormalForm(u, word) != ""
  }

  /** The glossary item is about the word or about its lemma. */
  predicate Explains(u: Unicode, g: GlossaryItem, word: string, base: string) {
    K.NormalForm(u, g.Term) != "" && K.NormalForm(u, g.Term) in {K.NormalForm(u, word), K.NormalForm(u, base)}
  }

  predicate IsFirst(u: Unicode, glossary: seq<GlossaryItem>, word: string, base: string, k: nat)
    requires k < |glossary|
  {
    Explains(u, glossary[k], word, base) && forall j | 0 <= j < k :: !Explains(u, glossary[j], word, base)
  }

  /** The definition of the first glossary item about the word; "" when there is none. */
  ghost predicate IsDefinition(u: Unicode, glossary: seq<GlossaryItem>, word: string, base: string, d: string) {
    (d == "" && forall k | 0 <= k < |glossary| :: !Explains(u, glossary[k], word, base)) ||
    exists k | 0 <= k < |glossary| :: IsFirst(u, glossary, word, base, k) && d == K.Trim(u, glossary[k].Definition)
  }

  lemma {:induction false} DefinitionMeans(u: Unicode, glossary: seq<GlossaryItem>, word: string, base: string)
    ensures IsDefinition(u, glossary, word, base, GlossaryDefinition(u, word, base, glossary))
  {
    hide K.NormalForm, K.Trim;
    if glossary != [] && !Explains(u, glossary[0], word, base) {
      var rest := glossary[1..];
      DefinitionMeans(u, rest, word, base);
      var d := GlossaryDefinition(u, word, base, rest);
      if k :| 0 <= k < |rest| && IsFirst(u, rest, word, base, k) && d == K.Trim(u, rest[k].Definition) {
        assert glossary[k + 1] == rest[k];
        assert forall j | 1 <= j < k + 1 :: glossary[j] == rest[j - 1];
      } else {
        assert forall j | 1 <= j < |glossary| :: glossary[j] == rest[j - 1];
      }
    }
  }

  /** An answered word that says something new: in the text, translated, not collected. */
  predicate News(u: Unicode, known: Known, tokens: seq<Token>, dw: DifficultWord) {
    0 <= dw.TokenIndex < |tokens| && !SpacesOnly(u, dw.Translation) && !Collected(u, known, tokens[dw.TokenIndex])
  }

  /** What is kept of an answered word: the word as it is, or, when its translation says nothing, the word with the
      glossary's definition of it; nothing when the glossary has none. */
  ghost predicate KeptAs(u: Unicode, known: Known, tokens: seq<Token>, glossary: seq<GlossaryItem>, dw: DifficultWord,
        kept: Option<DifficultWord>) {
    if !News(u, known, tokens, dw) then kept == None
    else if !SaysNothing(u, tokens[dw.TokenIndex].Text, dw.Translation) then kept == Some(dw)
    else exists d :: IsDefinition(u, glossary, tokens[dw.TokenIndex].Text, dw.Lemma, d) && kept == Recovered(dw, d)
  }

  function Recovered(dw: DifficultWord, d: string): Option<DifficultWord> {
    if d == "" then None else Some(DifficultWord(dw.TokenIndex, dw.Lemma, d, dw.CEFRLevel, "glossary"))
  }

  lemma KnowsMeans(u: Unicode, known: Known, tok: Token)
    ensures KnowsWord(u, known, tok) <==> Collected(u, known, tok)
  {
    hide K.NormalForm, K.LemmaOf;
    assert K.WordKey(u, Lang(known), tok) == "word" + ":" + Lang(known) + ":" + K.NormalForm(u, K.LemmaOf(u, tok));
    assert "word" + ":" + Lang(known) + ":" == "word:" + Lang(known) + ":";
  }

  lemma CleanWordMeans(u: Unicode, known: Known, tokens: seq<Token>, glossary: seq<GlossaryItem>, dw: DifficultWord)
    ensures KeptAs(u, known, tokens, glossary, dw, CleanWord(u, known, tokens, glossary, dw))
  {
    hide K.NormalForm, GlossaryDefinition, IsDefinition, KnowsWord, Collected, Blank, SpacesOnly;
    BlankIsSpaces(u, dw.Translation);
    if 0 <= dw.TokenIndex < |tokens| {
      KnowsMeans(u, known, tokens[dw.TokenIndex]);
      DefinitionMeans(u, glossary, tokens[dw.TokenIndex].Text, dw.Lemma);
    }
  }

  /** The sanitised words are what is kept of the answered ones, in their order: of every word that says something
      new something is kept (its own translation or the glossary's), and of no other. */
  lemma {:induction false} WordsSanitised(u: Unicode, known: Known, tokens: seq<Token>, glossary: seq<GlossaryItem>,
        ws: seq<DifficultWord>) returns (at: seq<nat>)
    ensures var r := CleanWords(u, known, tokens, glossary, ws);
      && Rising(at, |ws|) && |at| == |r|
      && (forall k | 0 <= k < |at| :: KeptAs(u, known, tokens, glossary, ws[at[k]], Some(r[k])))
      && (forall i | 0 <= i < |ws| && i !in at :: KeptAs(u, known, tokens, glossary, ws[i], None))
  {
    hide CleanWord, KeptAs;
    at := [];
    if ws != [] {
      var front, n := ws[..|ws| - 1], |ws| - 1;
      at := WordsSanitised(u, known, tokens, glossary, front);
      CleanWordMeans(u, known, tokens, glossary, ws[n]);
      RisingSnoc(at, n);
      assert forall i | 0 <= i < n :: front[i] == ws[i];
      if CleanWord(u, known, tokens, glossary, ws[n]).Some? {
        at := at + [n];
        assert forall i | 0 <= i < n :: i in at <==> i in at[..|at| - 1];
      }
    }
  }

  /** One answer cannot be both kept and dropped, nor kept in two ways. */
  lemma KeptOneWay(u: Unicode, known: Known, tokens: seq<Token>, glossary: seq<GlossaryItem>, dw: DifficultWord,
        x: Option<DifficultWord>, y: Option<DifficultWord>)
    requires KeptAs(u, known, tokens, glossary, dw, x) && KeptAs(u, known, tokens, glossary, dw, y)
    ensures x == y
  {
    hide K.NormalForm, K.Trim, Collected;
  }

  // ---------------------------------------------------------------- phrases and sentences

  /** The texts of the tokens of a range. */
  function Spelled(tokens: seq<Token>, start: nat, end: nat): (texts: seq<string>)
    requires start <= end < |tokens|
    ensures |texts| == end - start + 1
  {
    seq(end - start + 1, i requires 0 <= i <= end - start => tokens[start + i].Text)
  }

  lemma SpelledMeans(tokens: seq<Token>, start: nat, end: nat)
    requires start <= end < |tokens|
    ensures Texts(tokens[start..end + 1]) == Spelled(tokens, start, end)
  {
  }

  /** An answered phrase that is kept: a range of the text whose words it spells, translated, and not collected. */
  predicate PhraseKept(u: Unicode, known: Known, tokens: seq<Token>, ph: Phrase) {
    && 0 <= ph.StartIndex <= ph.EndIndex < |tokens|
    && !SpacesOnly(u, ph.Translation) && !SpacesOnly(u, ph.Text)
    && K.NormalForm(u, ph.Text) == K.NormalForm(u, K.Join(Spelled(tokens, ph.StartIndex, ph.EndIndex), ' '))
    && ("phrase:" + Language(known) + ":" +
        K.NormalForm(u, K.Join(K.Lemmas(u, tokens[ph.StartIndex..ph.EndIndex + 1]), ' '))) !in known.keys
  }

  lemma PhraseOkMeans(u: Unicode, known: Known, tokens: seq<Token>, ph: Phrase)
    ensures PhraseOk(u, known, tokens, ph) <==> PhraseKept(u, known, tokens, ph)
  {
    hide K.NormalForm, K.Join, Texts, Spelled, Blank, SpacesOnly;
    BlankIsSpaces(u, ph.Translation);
    BlankIsSpaces(u, ph.Text);
    if 0 <= ph.StartIndex <= ph.EndIndex < |tokens| {
      SpelledMeans(tokens, ph.StartIndex, ph.EndIndex);
      var base := K.NormalForm(u, K.Join(K.Lemmas(u, tokens[ph.StartIndex..ph.EndIndex + 1]), ' '));
      assert K.PhraseKey(u, Lang(known), tokens, ph.StartIndex, ph.EndIndex) ==
        "phrase" + ":" + Lang(known) + ":" + base;
      assert "phrase" + ":" + Lang(known) + ":" == "phrase:" + Lang(known) + ":";
    }
  }

  /** The sanitised phrases are the kept ones of the answered, unchanged and in their order. */
  lemma {:induction false} PhrasesSanitised(u: Unicode, known: Known, tokens: seq<Token>, ps: seq<Phrase>)
      returns (at: seq<nat>)
    ensures var r := CleanPhrases(u, known, tokens, ps);
      && Rising(at, |ps|) && |at| == |r| && (forall k | 0 <= k < |at| :: r[k] == ps[at[k]])
      && (forall i | 0 <= i < |ps| :: i in at <==> PhraseKept(u, known, tokens, ps[i]))
  {
    hide PhraseOk, PhraseKept;
    at := [];
    if ps != [] {
      var front, n := ps[..|ps| - 1], |ps| - 1;
      at := PhrasesSanitised(u, known, tokens, front);
      PhraseOkMeans(u, known, tokens, ps[n]);
      RisingSnoc(at, n);
      assert forall i | 0 <= i < n :: front[i] == ps[i];
      if PhraseOk(u, known, tokens, ps[n]) {
        at := at + [n];
        assert forall i | 0 <= i < n :: i in at <==> i in at[..|at| - 1];
      }
    }
  }

  /** The sanitised sentences are the answered ones on a range of the text with a translation, unchanged and in their
      order. */
  lemma {:induction false} SentencesSanitised(u: Unicode, n: nat, ss: seq<Sentence>) returns (at: seq<nat>)
    ensures var r := CleanSentences(u, n, ss);
      && Rising(at, |ss|) && |at| == |r| && (forall k | 0 <= k < |at| :: r[k] == ss[at[k]])
      && (forall i | 0 <= i < |ss| ::
            i in at <==> 0 <= ss[i].StartIndex <= ss[i].EndIndex < n && !SpacesOnly(u, ss[i].Translation))
  {
    hide Blank, SpacesOnly;
    at := [];
    if ss != [] {
      var front, last := ss[..|ss| - 1], |ss| - 1;
      at := SentencesSanitised(u, n, front);
      BlankIsSpaces(u, ss[last].Translation);
      RisingSnoc(at, last);
      assert forall i | 0 <= i < last :: front[i] == ss[i];
      if SentenceOk(u, n, ss[last]) {
        at := at + [last];
        assert forall i | 0 <= i < last :: i in at <==> i in at[..|at| - 1];
      }
    }
  }

  // ---------------------------------------------------------------- what a merge adds

  lemma {:induction false} WordsIn(ws: seq<DifficultWord>, add: seq<DifficultWord>, k0: int)
    ensures HasWord(MergeWords(ws, add), k0) <==> HasWord(ws, k0) || HasWord(add, k0)
  {
    if add != [] {
      var front, x := add[..|add| - 1], add[|add| - 1];
      WordsIn(ws, front, k0);
      WordsSnoc(front, x, k0);
      WordsSnoc(MergeWords(ws, front), x, k0);
      assert add == front + [x];
      hide HasWord;
    } else {
      assert !HasWord(add, k0);
    }
  }

  lemma WordsSnoc(s: seq<DifficultWord>, x: DifficultWord, k0: int)
    ensures HasWord(s + [x], k0) <==> HasWord(s, k0) || (x.TokenIndex == k0)
  {
    if HasWord(s, k0) {
      var p :| 0 <= p < |s| && s[p].TokenIndex == k0;
      assert (s + [x])[p] == s[p];
    }
    assert (s + [x])[|s|] == x;
  }

  /** The merged words are the existing ones and then, in their order, each added word that is the first for a token
      without one. */
  lemma {:induction false} WordsMerged(ws: seq<DifficultWord>, add: seq<DifficultWord>) returns (at: seq<nat>)
    ensures var m := MergeWords(ws, add);
      && Rising(at, |add|) && |m| == |ws| + |at| && ws <= m
      && (forall k | 0 <= k < |at| :: m[|ws| + k] == add[at[k]])
      && (forall i | 0 <= i < |add| ::
            i in at <==> !HasWord(ws, add[i].TokenIndex) &&
                         !HasWord(add[..i], add[i].TokenIndex))
  {
    hide HasWord;
    at := [];
    if add != [] {
      var front, n := add[..|add| - 1], |add| - 1;
      at := WordsMerged(ws, front);
      WordsIn(ws, front, add[n].TokenIndex);
      RisingSnoc(at, n);
      assert forall i | 0 <= i < n :: front[i] == add[i] && front[..i] == add[..i];
      if !HasWord(MergeWords(ws, front), add[n].TokenIndex) {
        SnocMembers(at, n);
        at := at + [n];
      }
    }
  }

  lemma {:induction false} PhrasesIn(ps: seq<Phrase>, add: seq<Phrase>, k0: int, k1: int)
    ensures HasPhrase(MergePhrases(ps, add), k0, k1) <==> HasPhrase(ps, k0, k1) || HasPhrase(add, k0, k1)
  {
    if add != [] {
      var front, x := add[..|add| - 1], add[|add| - 1];
      PhrasesIn(ps, front, k0, k1);
      PhrasesSnoc(front, x, k0, k1);
      PhrasesSnoc(MergePhrases(ps, front), x, k0, k1);
      assert add == front + [x];
      hide HasPhrase;
    } else {
      assert !HasPhrase(add, k0, k1);
    }
  }

  lemma PhrasesSnoc(s: seq<Phrase>, x: Phrase, k0: int, k1: int)
    ensures HasPhrase(s + [x], k0, k1) <==> HasPhrase(s, k0, k1) || (x.StartIndex == k0 && x.EndIndex == k1)
  {
    if HasPhrase(s, k0, k1) {
      var p :| 0 <= p < |s| && s[p].StartIndex == k0 && s[p].EndIndex == k1;
      assert (s + [x])[p] == s[p];
    }
    assert (s + [x])[|s|] == x;
  }

  /** The merged phrases are the existing ones and then, in their order, each added phrase that is the first on a range
      without one. */
  lemma {:induction false} PhrasesMerged(ps: seq<Phrase>, add: seq<Phrase>) returns (at: seq<nat>)
    ensures var m := MergePhrases(ps, add);
      && Rising(at, |add|) && |m| == |ps| + |at| && ps <= m
      && (forall k | 0 <= k < |at| :: m[|ps| + k] == add[at[k]])
      && (forall i | 0 <= i < |add| ::
            i in at <==> !HasPhrase(ps, add[i].StartIndex, add[i].EndIndex) &&
                         !HasPhrase(add[..i], add[i].StartIndex, add[i].EndIndex))
  {
    hide HasPhrase;
    at := [];
    if add != [] {
      var front, n := add[..|add| - 1], |add| - 1;
      at := PhrasesMerged(ps, front);
      PhrasesIn(ps, front, add[n].StartIndex, add[n].EndIndex);
      RisingSnoc(at, n);
      assert forall i | 0 <= i < n :: front[i] == add[i] && front[..i] == add[..i];
      if !HasPhrase(MergePhrases(ps, front), add[n].StartIndex, add[n].EndIndex) {
        SnocMembers(at, n);
        at := at + [n];
      }
    }
  }

  lemma {:induction false} TermsIn(gs: seq<GlossaryItem>, add: seq<GlossaryItem>, k0: string)
    ensures HasTerm(MergeGlossary(gs, add), k0) <==> HasTerm(gs, k0) || HasTerm(add, k0)
  {
    if add != [] {
      var front, x := add[..|add| - 1], add[|add| - 1];
      TermsIn(gs, front, k0);
      TermsSnoc(front, x, k0);
      TermsSnoc(MergeGlossary(gs, front), x, k0);
      assert add == front + [x];
      hide HasTerm;
    } else {
      assert !HasTerm(add, k0);
    }
  }

  lemma TermsSnoc(s: seq<GlossaryItem>, x: GlossaryItem, k0: string)
    ensures HasTerm(s + [x], k0) <==> HasTerm(s, k0) || (x.Term == k0)
  {
    if HasTerm(s, k0) {
      var p :| 0 <= p < |s| && s[p].Term == k0;
      assert (s + [x])[p] == s[p];
    }
    assert (s + [x])[|s|] == x;
  }

  /** The merged glossary is the existing one and then, in their order, each added item that is the first of its
      term. */
  lemma {:induction false} TermsMerged(gs: seq<GlossaryItem>, add: seq<GlossaryItem>) returns (at: seq<nat>)
    ensures var m := MergeGlossary(gs, add);
      && Rising(at, |add|) && |m| == |gs| + |at| && gs <= m
      && (forall k | 0 <= k < |at| :: m[|gs| + k] == add[at[k]])
      && (forall i | 0 <= i < |add| ::
            i in at <==> !HasTerm(gs, add[i].Term) &&
                         !HasTerm(add[..i], add[i].Term))
  {
    hide HasTerm;
    at := [];
    if add != [] {
      var front, n := add[..|add| - 1], |add| - 1;
      at := TermsMerged(gs, front);
      TermsIn(gs, front, add[n].Term);
      RisingSnoc(at, n);
      assert forall i | 0 <= i < n :: front[i] == add[i] && front[..i] == add[..i];
      if !HasTerm(MergeGlossary(gs, front), add[n].Term) {
        SnocMembers(at, n);
        at := at + [n];
      }
    }
  }

  /** Two sentences share a token. */
  predicate Touch(a: Sentence, b: Sentence) {
    Chunk.Max(a.StartIndex, b.StartIndex) <= Chunk.Min(a.EndIndex, b.EndIndex)
  }

  lemma OverlapsTouch(ss: seq<Sentence>, s: Sentence)
    ensures Overlaps(ss, s) <==> exists k | 0 <= k < |ss| :: Touch(ss[k], s)
  {
    if i :| s.StartIndex <= i <= s.EndIndex && Covered(ss, i) {
      var k :| 0 <= k < |ss| && InSentence(ss[k], i);
      assert Touch(ss[k], s);
    }
    if k :| 0 <= k < |ss| && Touch(ss[k], s) {
      var i := Chunk.Max(ss[k].StartIndex, s.StartIndex);
      assert InSentence(ss[k], i);
      assert Covered(ss, i);
    }
  }

  /** The sentence shares no token with these. */
  predicate Free(ss: seq<Sentence>, s: Sentence) {
    forall k | 0 <= k < |ss| :: !Touch(ss[k], s)
  }

  /** The sentence shares no token with the added ones that were taken before it. */
  predicate FreeOfTaken(add: seq<Sentence>, at: seq<nat>, i: nat)
    requires Rising(at, |add|) && i < |add|
  {
    forall k | 0 <= k < |at| && at[k] < i :: !Touch(add[at[k]], add[i])
  }

  lemma OverlapsTaken(m: seq<Sentence>, ss: seq<Sentence>, add: seq<Sentence>, at: seq<nat>, n: nat)
    requires n < |add| && Rising(at, n) && |m| == |ss| + |at| && ss <= m
    requires forall k | 0 <= k < |at| :: m[|ss| + k] == add[at[k]]
    ensures Rising(at, |add|) && (!Overlaps(m, add[n]) <==> Free(ss, add[n]) && FreeOfTaken(add, at, n))
  {
    hide Overlaps, Touch;
    OverlapsTouch(m, add[n]);
    assert forall k | 0 <= k < |ss| :: m[k] == ss[k];
    assert forall p | |ss| <= p < |m| :: m[p] == add[at[p - |ss|]];
  }

  /** The merged sentences are the existing ones and then, in their order, each added sentence that shares no token
      with an existing one or with one added before it. */
  lemma {:induction false} SentencesMerged(ss: seq<Sentence>, add: seq<Sentence>) returns (at: seq<nat>)
    ensures var m := MergeSentences(ss, add);
      && Rising(at, |add|) && |m| == |ss| + |at| && ss <= m
      && (forall k | 0 <= k < |at| :: m[|ss| + k] == add[at[k]])
      && (forall i | 0 <= i < |add| :: i in at <==> Free(ss, add[i]) && FreeOfTaken(add, at, i))
  {
    hide Overlaps, Free, FreeOfTaken;
    at := [];
    if add != [] {
      var front, n := add[..|add| - 1], |add| - 1;
      var taken := SentencesMerged(ss, front);
      var m := MergeSentences(ss, front);
      assert forall i | 0 <= i < n :: front[i] == add[i];
      OverlapsTaken(m, ss, add, taken, n);
      RisingSnoc(taken, n);
      SnocMembers(taken, n);
      at := if Overlaps(m, add[n]) then taken else taken + [n];
      forall i | 0 <= i < |add| ensures FreeOfTaken(add, at, i) <==> FreeOfTaken(add, taken, i) {
        SnocFree(add, taken, n, i);
      }
      forall i | 0 <= i < n ensures FreeOfTaken(front, taken, i) <==> FreeOfTaken(add, taken, i) {
        FrontFree(add, taken, i);
      }
    }
  }

  lemma SnocFree(add: seq<Sentence>, at: seq<nat>, n: nat, i: nat)
    requires Rising(at, n) && i <= n < |add|
    ensures Rising(at, |add|) && Rising(at + [n], |add|)
    ensures FreeOfTaken(add, at + [n], i) <==> FreeOfTaken(add, at, i)
  {
    hide Touch;
    RisingSnoc(at, n);
    assert forall k | 0 <= k < |at| :: (at + [n])[k] == at[k];
  }

  lemma FrontFree(add: seq<Sentence>, at: seq<nat>, i: nat)
    requires add != [] && i < |add| - 1 && Rising(at, |add| - 1)
    ensures FreeOfTaken(add[..|add| - 1], at, i) <==> Rising(at, |add|) && FreeOfTaken(add, at, i)
  {
    hide Touch;
  }

  // ---------------------------------------------------------------- together

  /** Everything sanitising does: each list keeps, in order, what the predicates say; the glossary passes through. */
  lemma Sanitised(u: Unicode, known: Known, tokens: seq<Token>, e: Enrichment)
      returns (words: seq<nat>, phrases: seq<nat>, sentences: seq<nat>)
    ensures var r := Sanitize(u, known, tokens, e);
      && r.Glossary == e.Glossary
      && Rising(words, |e.DifficultWords|) && |words| == |r.DifficultWords|
      && (forall k | 0 <= k < |words| ::
            KeptAs(u, known, tokens, e.Glossary, e.DifficultWords[words[k]], Some(r.DifficultWords[k])))
      && (forall i | 0 <= i < |e.DifficultWords| && i !in words ::
            KeptAs(u, known, tokens, e.Glossary, e.DifficultWords[i], None))
      && Rising(phrases, |e.Phrases|) && |phrases| == |r.Phrases|
      && (forall k | 0 <= k < |phrases| :: r.Phrases[k] == e.Phrases[phrases[k]])
      && (forall i | 0 <= i < |e.Phrases| :: i in phrases <==> PhraseKept(u, known, tokens, e.Phrases[i]))
      && Rising(sentences, |e.Sentences|) && |sentences| == |r.Sentences|
      && (forall k | 0 <= k < |sentences| :: r.Sentences[k] == e.Sentences[sentences[k]])
      && (forall i | 0 <= i < |e.Sentences| :: i in sentences <==> SentenceKept(u, |tokens|, e.Sentences[i]))
  {
    hide CleanWords, CleanPhrases, CleanSentences, KeptAs, PhraseKept, Rising, SpacesOnly;
    words := WordsSanitised(u, known, tokens, e.Glossary, e.DifficultWords);
    phrases := PhrasesSanitised(u, known, tokens, e.Phrases);
    sentences := SentencesSanitised(u, |tokens|, e.Sentences);
  }

  /** A sentence over a range of the text, with a translation. */
  predicate SentenceKept(u: Unicode, n: nat, s: Sentence) {
    0 <= s.StartIndex <= s.EndIndex < n && !SpacesOnly(u, s.Translation)
  }

  /** Someone without a vocabulary loses no word that has a translation of its own. */
  lemma NothingCollected(u: Unicode, known: Known, tokens: seq<Token>, e: Enrichment, i: nat)
    requires known.keys == {} && i < |e.DifficultWords|
    requires var dw := e.DifficultWords[i];
      && 0 <= dw.TokenIndex < |tokens| && !SpacesOnly(u, dw.Translation)
      && !SaysNothing(u, tokens[dw.TokenIndex].Text, dw.Translation)
    ensures e.DifficultWords[i] in Sanitize(u, known, tokens, e).DifficultWords
  {
    var at := WordsSanitised(u, known, tokens, e.Glossary, e.DifficultWords);
    hide K.NormalForm, CleanWords, SpacesOnly, SaysNothing;
    assert i in at;
    var k :| 0 <= k < |at| && at[k] == i;
  }
}
