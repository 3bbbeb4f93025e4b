/** frontend/src/lib/vocab/capture.ts: recording a lookup, and finding it again in other texts. */
module Capture {
  import opened Model
  import opened Text
  import opened Overlay
  import opened Reader
  import opened VocabRows
  import K = VocabKey
  import T = Tokenizer
  import C = Client

  /** Where a capture happens, and what is drawn outside it: the context sentence, the clock, a fresh id. */
  datatype Page = Page(
    articleId: string, articleTitle: string, tokens: seq<Token>, text: string, enrichment: Enrichment,
    targetLang: string, context: string, now: int, id: int)

  function KeyFor(u: Unicode, page: Page, phrase: bool, start: int, end: int): string
    requires 0 <= start < |page.tokens|
  {
    if phrase then K.PhraseKey(u, page.targetLang, page.tokens, start, end)
    else K.WordKey(u, page.targetLang, page.tokens[start])
  }

  predicate Unkeyed(key: string) {
    key == "" || key[|key| - 1] == ':'
  }

  function BuildLookupEvent(u: Unicode, page: Page, c: Content): Option<LookupEvent> {
    var start := if c.PhraseContent? then c.startIndex else c.tokenIndex;
    var end := if c.PhraseContent? then c.endIndex else c.tokenIndex;
    if start < 0 || start >= |page.tokens| then None
    else
      var key := KeyFor(u, page, c.PhraseContent?, start, end);
      if Unkeyed(key) then None
      else Some(LookupEvent(
        page.id, key, if c.PhraseContent? then "phrase" else "word", page.articleId, page.articleTitle, start, end,
        c.original, if c.PhraseContent? then Display(u, page, start, end) else K.LemmaOf(u, page.tokens[start]),
        c.translation, if c.WordContent? then c.cefrLevel else "", if c.PhraseContent? then c.phraseType else "",
        page.context, "", page.now))
  }

  function Display(u: Unicode, page: Page, start: int, end: int): string {
    if 0 <= start <= end < |page.tokens| then K.Join(K.Lemmas(u, page.tokens[start..end + 1]), ' ') else ""
  }

  function FirstExact(phrases: seq<Phrase>, start: int, end: int): Option<Phrase> {
    if phrases == [] then None
    else if phrases[0].StartIndex == start && phrases[0].EndIndex == end then Some(phrases[0])
    else FirstExact(phrases[1..], start, end)
  }

  function FirstWord(words: seq<DifficultWord>, start: int): Option<DifficultWord> {
    if words == [] then None
    else if words[0].TokenIndex == start then Some(words[0])
    else FirstWord(words[1..], start)
  }

  /** Translation, level and phrase type the article already holds for exactly this span; all empty when none. */
  function KnownTranslation(page: Page, phrase: bool, start: int, end: int): (string, string, string) {
    if phrase then
      match FirstExact(page.enrichment.Phrases, start, end)
      case Some(p) => if p.Translation == "" then ("", "", "") else (p.Translation, "", p.Type)
      case None => ("", "", "")
    else
      match FirstWord(page.enrichment.DifficultWords, start)
      case Some(w) => if w.Translation == "" then ("", "", "") else (w.Translation, w.CEFRLevel, "")
      case None => ("", "", "")
  }

  function BuildManualEvent(u: Unicode, page: Page, phrase: bool, start: int, end: int): Option<LookupEvent> {
    if start < 0 || end < start || end >= |page.tokens| then None
    else
      var key := KeyFor(u, page, phrase, start, end);
      if Unkeyed(key) then None
      else
        var (translation, level, kind) := KnownTranslation(page, phrase, start, end);
        Some(LookupEvent(
          page.id, key, if phrase then "phrase" else "word", page.articleId, page.articleTitle, start, end,
          SliceText(page.tokens, start, end, page.text), Display(u, page, start, end),
          translation, level, kind, page.context, "manual", page.now))
  }

  // ---------------------------------------------------------------- the local table

  function OrKeep(news: string, kept: string): string {
    if news != "" then news else kept
  }

  /** upsertLocalEntry. */
  function Upsert(entries: map<string, VocabEntry>, e: LookupEvent): map<string, VocabEntry> {
    if e.EntryKey in entries then
      var row := entries[e.EntryKey];
      entries[e.EntryKey := row.(
        translation := OrKeep(e.Translation, row.translation), cefrLevel := OrKeep(e.CEFRLevel, row.cefrLevel),
        phraseType := OrKeep(e.PhraseType, row.phraseType), deleted := false)]
    else
      entries[e.EntryKey := VocabEntry(
        e.EntryKey, e.Kind, e.Lemma, [e.Surface], false, e.Translation, e.CEFRLevel, e.PhraseType)]
  }

  /** The position a session records once. */
  function Position(e: LookupEvent): (string, string, int) {
    (e.ArticleID, e.Kind, e.SpanStart)
  }

  datatype Saved = Saved(event: LookupEvent) | DuplicateSave | Rejected

  /** Whether the two local writes of a capture succeed: the queue entry, then the row. */
  datatype Storage = Works | QueueFails | RowFails

  /** A manual save without a translation queues to be translated first. */
  function Queued(e: LookupEvent, manual: bool): C.Request {
    if manual && e.Translation == "" then C.ManualLookup(e) else C.Lookup(e)
  }

  class Session {
    var captured: set<(string, string, int)>
    var queue: seq<C.Request>
    var entries: map<string, VocabEntry>

    constructor (rows: map<string, VocabEntry>)
      ensures captured == {} && queue == [] && entries == rows
    {
      captured, queue, entries := {}, [], rows;
    }

    method CaptureLookup(u: Unicode, page: Page, c: Content, storage: Storage) returns (r: Option<LookupEvent>)
      modifies this
      ensures var e := BuildLookupEvent(u, page, c);
        if e == None || Position(e.value) in old(captured) then
          r == None && captured == old(captured) && queue == old(queue) && entries == old(entries)
        else
          && r == (if storage.Works? then e else None)
          && captured == old(captured) + (if storage.Works? then {Position(e.value)} else {})
          && queue == old(queue) + (if storage.QueueFails? then [] else [Queued(e.value, false)])
          && entries == (if storage.Works? then Upsert(old(entries), e.value) else old(entries))
    {
      var event := BuildLookupEvent(u, page, c);
      if event == None {
        return None;
      }
      var dedupKey := Position(event.value);
      if dedupKey in captured {
        return None;
      }
      var ok := Record(dedupKey, event.value, false, storage);
      return if ok then event else None;
    }

    method SaveManualTerm(u: Unicode, page: Page, phrase: bool, start: int, end: int, storage: Storage)
        returns (r: Saved)
      modifies this
      ensures var e := BuildManualEvent(u, page, phrase, start, end);
        if e == None || Position(e.value) in old(captured) then
          && r == (if e == None then Rejected else DuplicateSave)
          && captured == old(captured) && queue == old(queue) && entries == old(entries)
        else
          && r == (if storage.Works? then Saved(e.value) else Rejected)
          && captured == old(captured) + (if storage.Works? then {Position(e.value)} else {})
          && queue == old(queue) + (if storage.QueueFails? then [] else [Queued(e.value, true)])
          && entries == (if storage.Works? then Upsert(old(entries), e.value) else old(entries))
    {
      var event := BuildManualEvent(u, page, phrase, start, end);
      if event == None {
        return Rejected;
      }
      var dedupKey := Position(event.value);
      if dedupKey in captured {
        return DuplicateSave;
      }
      var ok := Record(dedupKey, event.value, true, storage);
      return if ok then Saved(event.value) else Rejected;
    }

    /** The try block of both; a failure rolls the position back, but not a queue entry already made. */
    method Record(dedupKey: (string, string, int), event: LookupEvent, manual: bool, storage: Storage)
        returns (ok: bool)
      requires dedupKey !in captured
      modifies this
      ensures ok == storage.Works?
      ensures captured == old(captured) + if ok then {dedupKey} else {}
      ensures queue == old(queue) + if storage.QueueFails? then [] else [Queued(event, manual)]
      ensures entries == if ok then Upsert(old(entries), event) else old(entries)
    {
      captured := captured + {dedupKey};
      if storage.QueueFails? {
        captured := captured - {dedupKey};
        return false;
      }
      queue := queue + [if manual && event.Translation == "" then C.ManualLookup(event) else C.Lookup(event)];
      if storage.RowFails? {
        captured := captured - {dedupKey};
        return false;
      }
      UpsertLocalEntry(event);
      return true;
    }

    method UpsertLocalEntry(event: LookupEvent)
      modifies this`entries
      ensures entries == Upsert(old(entries), event)
    {
      if event.EntryKey in entries {
        var row := entries[event.EntryKey];
        row := row.(translation := OrKeep(event.Translation, row.translation));
        row := row.(cefrLevel := OrKeep(event.CEFRLevel, row.cefrLevel));
        row := row.(phraseType := OrKeep(event.PhraseType, row.phraseType));
        entries := entries[event.EntryKey := row.(deleted := false)];
        return;
      }
      entries := entries[event.EntryKey := VocabEntry(
        event.EntryKey, event.Kind, event.Lemma, [event.Surface], false,
        event.Translation, event.CEFRLevel, event.PhraseType)];
    }
  }

  // ---------------------------------------------------------------- rows and keys agree

  /** The row's key was built from its own kind and lemma. */
  ghost predicate Keyed(u: Unicode, key: string, row: VocabEntry) {
    row.entryKey == key && (row.kind == "word" || row.kind == "phrase") &&
    exists lang, base | ':' !in lang :: key == K.Key(u, row.kind, lang, base) &&
      (row.kind == "word" ==> K.NormalForm(u, base) == K.NormalForm(u, row.Lemma))
  }

  ghost predicate Tidy(u: Unicode, entries: map<string, VocabEntry>) {
    forall key | key in entries :: Keyed(u, key, entries[key])
  }

  /** An event built by a capture on a page whose language has no colon. */
  ghost predicate Genuine(u: Unicode, page: Page, e: LookupEvent) {
    ':' !in page.targetLang &&
    ((exists c :: BuildLookupEvent(u, page, c) == Some(e)) ||
     (exists phrase, start, end :: BuildManualEvent(u, page, phrase, start, end) == Some(e)))
  }

  /** A key determines its kind, its language and the normal form it was built from. */
  lemma KeyInjective(u: Unicode, kind: string, lang: string, base: string, kind': string, lang': string, base': string)
    requires ':' !in kind && ':' !in lang && ':' !in kind' && ':' !in lang'
    requires K.Key(u, kind, lang, base) == K.Key(u, kind', lang', base')
    ensures kind == kind' && lang == lang' && K.NormalForm(u, base) == K.NormalForm(u, base')
  {
    hide K.Split, K.NormalForm, K.Key, K.Join;
    K.KeyParts(u, kind, lang, base);
    K.KeyParts(u, kind', lang', base');
    var n, n' := K.NormalForm(u, base), K.NormalForm(u, base');
    var p, p' := [kind, lang] + K.Split(n, ':'), [kind', lang'] + K.Split(n', ':');
    assert p[0] == p'[0] && p[1] == p'[1] && p[2..] == p'[2..];
    assert p[2..] == K.Split(n, ':') && p'[2..] == K.Split(n', ':');
    K.SplitJoin(n, ':');
    K.SplitJoin(n', ':');
  }

  /** What an event's key was built from. */
  lemma EventKey(u: Unicode, page: Page, e: LookupEvent) returns (base: string)
    requires Genuine(u, page, e)
    ensures (e.Kind == "word" || e.Kind == "phrase") && e.EntryKey == K.Key(u, e.Kind, page.targetLang, base)
    ensures 0 <= e.SpanStart < |page.tokens|
    ensures e.Kind == "word" ==> base == K.LemmaOf(u, page.tokens[e.SpanStart])
    ensures e.Kind == "phrase" ==> e.SpanStart <= e.SpanEnd < |page.tokens|
    ensures e.Kind == "phrase" ==> e.EntryKey == K.PhraseKey(u, page.targetLang, page.tokens, e.SpanStart, e.SpanEnd)
    ensures e.Kind == "word" && e.SpanEnd == e.SpanStart ==> K.NormalForm(u, e.Lemma) == K.NormalForm(u, base)
  {
    hide K.NormalForm, K.Lemmas, K.LemmaOf, SliceText, KnownTranslation;
    if e.Kind == "word" {
      base := K.LemmaOf(u, page.tokens[e.SpanStart]);
      OneLemma(u, page, e.SpanStart);
    } else {
      base := Display(u, page, e.SpanStart, e.SpanEnd);
    }
  }

  lemma OneLemma(u: Unicode, page: Page, k: int)
    requires 0 <= k < |page.tokens|
    ensures Display(u, page, k, k) == K.LemmaOf(u, page.tokens[k])
  {
    assert page.tokens[k..k + 1] == [page.tokens[k]];
  }

  /** After a capture the row is live, of the event's kind, and the table is still tidy. */
  lemma UpsertKeeps(u: Unicode, page: Page, entries: map<string, VocabEntry>, e: LookupEvent)
    requires Tidy(u, entries) && Genuine(u, page, e) && (e.Kind == "word" ==> e.SpanEnd == e.SpanStart)
    ensures Tidy(u, Upsert(entries, e)) && e.EntryKey in Upsert(entries, e)
    ensures var row := Upsert(entries, e)[e.EntryKey];
      && !row.deleted && row.kind == e.Kind && row.entryKey == e.EntryKey
      && (e.Kind == "word" ==> K.NormalForm(u, row.Lemma) == K.NormalForm(u, K.LemmaOf(u, page.tokens[e.SpanStart])))
  {
    hide K.NormalForm, K.Key, K.LemmaOf, K.PhraseKey, BuildLookupEvent, BuildManualEvent;
    var base := EventKey(u, page, e);
    var entries' := Upsert(entries, e);
    if e.EntryKey in entries {
      var row := entries[e.EntryKey];
      assert Keyed(u, e.EntryKey, row);
      var lang, b :| ':' !in lang && e.EntryKey == K.Key(u, row.kind, lang, b) &&
        (row.kind == "word" ==> K.NormalForm(u, b) == K.NormalForm(u, row.Lemma));
      KeyInjective(u, row.kind, lang, b, e.Kind, page.targetLang, base);
      assert Keyed(u, e.EntryKey, entries'[e.EntryKey]);
    } else {
      assert Keyed(u, e.EntryKey, entries'[e.EntryKey]);
    }
    forall key | key in entries' && key != e.EntryKey ensures Keyed(u, key, entries'[key]) {
      assert Keyed(u, key, entries[key]);
    }
  }

  // ---------------------------------------------------------------- what is captured is found again

  predicate OneWordEach(u: Unicode, tokens: seq<Token>, start: int, end: int)
    requires 0 <= start <= end < |tokens|
  {
    forall k | start <= k <= end :: K.IsWord(u, TokenLemma(u, tokens[k]))
  }

  /** The tokens from a on have the lemmas of the captured range. */
  predicate SameLemmas(u: Unicode, tokens: seq<Token>, start: int, end: int, other: seq<Token>, a: nat)
    requires 0 <= start <= end < |tokens|
  {
    a + (end - start) < |other| &&
    forall j | a <= j <= a + (end - start) :: TokenLemma(u, other[j]) == TokenLemma(u, tokens[start + (j - a)])
  }

  lemma PhraseOccurs(
      u: Unicode, lang: string, tokens: seq<Token>, start: int, end: int, rows: seq<VocabEntry>, row: VocabEntry,
      other: seq<Token>, a: nat)
    requires K.WellFormed(u) && ':' !in lang && 0 <= start <= end < |tokens| && OneWordEach(u, tokens, start, end)
    requires row in rows && !row.deleted && row.kind == "phrase" &&
      row.entryKey == K.PhraseKey(u, lang, tokens, start, end)
    requires SameLemmas(u, tokens, start, end, other, a)
    ensures Occurs(u, rows, other, PhraseMatch(row, a, a + (end - start)))
  {
    hide K.NormalForm, K.LemmaOf, K.PhraseLemmasOf, K.PhraseKey, K.IsWord;
    assert forall k | start <= k <= end :: K.IsWord(u, TokenLemma(u, tokens[k]));
    K.PhraseKeyRoundTrip(u, lang, tokens, start, end, row.Lemma);
    var lemmas := LemmasOfEntry(u, row);
    assert |lemmas| == end - start + 1;
    forall i | 0 <= i < |lemmas| ensures TokenLemma(u, other[a + i]) == lemmas[i] {
      assert lemmas[i] == TokenLemma(u, tokens[start + i]);
      assert tokens[start + i] == tokens[start + ((a + i) - a)];
    }
  }

  /** A captured phrase is found at every token of every range with the same lemmas, in any article. */
  lemma CapturedPhraseMatches(
      u: Unicode, page: Page, entries: map<string, VocabEntry>, e: LookupEvent, rows: seq<VocabEntry>,
      other: seq<Token>, a: nat, k: nat)
    requires K.WellFormed(u) && Tidy(u, entries) && Genuine(u, page, e) && e.Kind == "phrase"
    requires forall key | key in Upsert(entries, e) :: Upsert(entries, e)[key] in rows
    requires 0 <= e.SpanStart <= e.SpanEnd < |page.tokens| && OneWordEach(u, page.tokens, e.SpanStart, e.SpanEnd)
    requires SameLemmas(u, page.tokens, e.SpanStart, e.SpanEnd, other, a) && a <= k <= a + (e.SpanEnd - e.SpanStart)
    ensures MatchPhrase(u, IndexOf(u, rows), other, k).Some?
  {
    hide K.NormalForm, K.LemmaOf, K.PhraseKey, IndexOf, Genuine, Tidy, Upsert, Occurs, SameLemmas, OneWordEach,
      MatchPhrase;
    UpsertKeeps(u, page, entries, e);
    var base := EventKey(u, page, e);
    var row := Upsert(entries, e)[e.EntryKey];
    GenuineLang(u, page, e);
    PhraseOccurs(u, page.targetLang, page.tokens, e.SpanStart, e.SpanEnd, rows, row, other, a);
    RangeFits(u, page.tokens, e.SpanStart, e.SpanEnd, other, a);
    MatchPhraseRefinesBruteForce(u, rows, other, k);
    assert Covers(PhraseMatch(row, a, a + (e.SpanEnd - e.SpanStart)), k);
  }

  lemma GenuineLang(u: Unicode, page: Page, e: LookupEvent)
    requires Genuine(u, page, e)
    ensures ':' !in page.targetLang
  {
  }

  lemma RangeFits(u: Unicode, tokens: seq<Token>, start: int, end: int, other: seq<Token>, a: nat)
    requires 0 <= start <= end < |tokens| && SameLemmas(u, tokens, start, end, other, a)
    ensures a + (end - start) < |other|
  {
  }

  /** A phrase matches the very range it was captured at exactly when each of its tokens normalises to one word:
      a hyphenated or contracted token puts more words into the key than there are tokens. */
  lemma PhraseFindsItselfIff(
      u: Unicode, lang: string, tokens: seq<Token>, start: nat, end: nat, rows: seq<VocabEntry>, row: VocabEntry)
    requires K.WellFormed(u) && ':' !in lang && start <= end < |tokens|
    requires row in rows && !row.deleted && row.kind == "phrase" &&
      row.entryKey == K.PhraseKey(u, lang, tokens, start, end)
    ensures Occurs(u, rows, tokens, PhraseMatch(row, start, end)) <==> OneWordEach(u, tokens, start, end)
  {
    hide K.NormalForm, K.LemmaOf, K.PhraseLemmasOf, K.IsWord, K.Words, K.Lower;
    if OneWordEach(u, tokens, start, end) {
      PhraseOccurs(u, lang, tokens, start, end, rows, row, tokens, start);
    }
    var base := K.Join(K.Lemmas(u, tokens[start..end + 1]), ' ');
    K.PhraseLemmasInvertKey(u, lang, base, row.Lemma);
    K.WordsAreWords(u, K.Lower(u, base));
    var ws := LemmasOfEntry(u, row);
    if Occurs(u, rows, tokens, PhraseMatch(row, start, end)) {
      forall k | start <= k <= end ensures K.IsWord(u, TokenLemma(u, tokens[k])) {
        assert TokenLemma(u, tokens[start + (k - start)]) == ws[k - start];
      }
    }
  }

  lemma LowerCaseRun(u: Unicode, w: string)
    requires AsciiText(u) && w != "" && forall c | c in w :: 'a' <= c <= 'z'
    ensures K.IsWord(u, w) && K.Words(u, w) == [w] && K.Lower(u, w) == w
  {
    forall i | 0 <= i < |w| ensures K.Keep(u, w[i]) && u.lower(w[i]) == w[i] {
      assert w[i] in w;
    }
    K.WordsOfWord(u, w);
  }

  lemma CompoundNormal(u: Unicode, a: string, join: char, b: string)
    requires AsciiText(u) && a != "" && b != "" && (join == '-' || join == '\'')
    requires forall c | c in a || c in b :: 'a' <= c <= 'z'
    ensures K.Lower(u, a + [join] + b) == a + [join] + b
    ensures K.NormalForm(u, a + [join] + b) == a + " " + b
  {
    hide K.Words, AsciiText;
    LowerCaseRun(u, a);
    LowerCaseRun(u, b);
    Punctuation(u, join);
    assert K.Lower(u, a + [join] + b) == K.Lower(u, a) + [join] + K.Lower(u, b);
    K.WordsSeparated(u, a, join, b);
    assert [a] + [b] == [a, b];
    K.JoinSnoc([a], ' ', b);
    assert K.Join([a], ' ') == a;
  }

  lemma Punctuation(u: Unicode, c: char)
    requires AsciiText(u) && (c == '-' || c == '\'' || c == ' ')
    ensures !K.Keep(u, c) && u.lower(c) == c
  {
    assert c in " .-'";
  }

  lemma CompoundTokenized(u: Unicode, a: string, join: char, b: string)
    requires AsciiText(u) && a != "" && b != "" && (join == '-' || join == '\'')
    requires forall c | c in a || c in b :: 'a' <= c <= 'z'
    ensures var s := a + [join] + b; T.IsTokenization(u, Lift(s), [Token(0, s, 0, |s|, "")])
  {
    hide T.IsTokenization, Off, Lift;
    var s := a + [join] + b;
    forall k | 0 <= k < |s| ensures s[k] as int < 0x80 {
      assert k < |a| ==> s[k] == a[k] && a[k] in a;
      assert k > |a| ==> s[k] == b[k - |a| - 1] && b[k - |a| - 1] in b;
    }
    AsciiOff(s, |s|);
    T.CompoundIsOneToken(u, a, [join], b);
  }

  /** Two lower-case runs with a hyphen or an apostrophe between them: one token, whose normal form is two words. */
  lemma CompoundSplitsInKey(u: Unicode, a: string, join: char, b: string, tok: Token)
    requires AsciiText(u) && a != "" && b != "" && (join == '-' || join == '\'')
    requires forall c | c in a || c in b :: 'a' <= c <= 'z'
    requires tok == Token(0, a + [join] + b, 0, |a| + 1 + |b|, "")
    ensures T.IsTokenization(u, Lift(tok.Text), [tok])
    ensures TokenLemma(u, tok) == a + " " + b && !OneWordEach(u, [tok], 0, 0)
  {
    hide K.NormalForm, K.Lower, T.IsTokenization;
    CompoundTokenized(u, a, join, b);
    CompoundNormal(u, a, join, b);
    Punctuation(u, ' ');
    hide AsciiText, K.Keep;
    var norm := TokenLemma(u, tok);
    assert norm == a + " " + b;
    assert norm[|a|] == ' ';
    assert !K.IsWord(u, TokenLemma(u, [tok][0]));
  }

  /** "well-known" is one token, and a phrase saved on it is not found at its own place. */
  lemma WellKnownNotFound(u: Unicode, lang: string, rows: seq<VocabEntry>, row: VocabEntry)
    requires K.WellFormed(u) && AsciiText(u) && ':' !in lang
    requires var tokens := [Token(0, "well-known", 0, 10, "")];
      row in rows && !row.deleted && row.kind == "phrase" && row.entryKey == K.PhraseKey(u, lang, tokens, 0, 0)
    ensures var tokens := [Token(0, "well-known", 0, 10, "")];
      && T.IsTokenization(u, Lift("well-known"), tokens)
      && TokenLemma(u, tokens[0]) == "well known"
      && !OneWordEach(u, tokens, 0, 0) && !Occurs(u, rows, tokens, PhraseMatch(row, 0, 0))
  {
    hide T.IsTokenization, OneWordEach, Occurs, TokenLemma, K.PhraseKey, K.WellFormed, AsciiText;
    var tok := Token(0, "well-known", 0, 10, "");
    assert "well" + ['-'] + "known" == "well-known" && "well" + " " + "known" == "well known";
    CompoundSplitsInKey(u, "well", '-', "known", tok);
    PhraseFindsItselfIff(u, lang, [tok], 0, 0, rows, row);
  }

  /** A captured word is found at every token with its lemma, whatever the inflection. */
  lemma CapturedWordMatches(
      u: Unicode, page: Page, entries: map<string, VocabEntry>, e: LookupEvent, rows: seq<VocabEntry>, tok: Token)
    requires Tidy(u, entries) && Genuine(u, page, e) && e.Kind == "word" && e.SpanEnd == e.SpanStart
    requires forall key | key in Upsert(entries, e) :: Upsert(entries, e)[key] in rows
    requires 0 <= e.SpanStart < |page.tokens| && TokenLemma(u, tok) == TokenLemma(u, page.tokens[e.SpanStart])
    ensures MatchWord(u, IndexOf(u, rows), tok).Some?
  {
    hide K.NormalForm, K.LemmaOf, IndexOf, Tidy, Upsert, Genuine;
    UpsertKeeps(u, page, entries, e);
    var row := Upsert(entries, e)[e.EntryKey];
    KeyNotBare(u, page, e);
    WordMaps(u, rows, TokenLemma(u, tok));
    assert LiveWord(rows, row);
  }

  lemma KeyNotBare(u: Unicode, page: Page, e: LookupEvent)
    requires Genuine(u, page, e) && e.Kind == "word"
    ensures 0 <= e.SpanStart < |page.tokens| && TokenLemma(u, page.tokens[e.SpanStart]) != ""
  {
    hide K.NormalForm, K.LemmaOf, SliceText, KnownTranslation, Display;
  }

  // ---------------------------------------------------------------- what a capture records

  lemma {:induction false} NoColonInWords(u: Unicode, ws: seq<string>)
    requires K.WellFormed(u) && forall k | 0 <= k < |ws| :: K.IsWord(u, ws[k])
    ensures ':' !in K.Join(ws, ' ')
  {
    if |ws| > 1 {
      NoColonInWords(u, K.Front(ws));
    }
  }

  /** A key is bare exactly when nothing is left of what it was built from. */
  lemma BareKey(u: Unicode, kind: string, lang: string, base: string)
    requires K.WellFormed(u)
    ensures Unkeyed(K.Key(u, kind, lang, base)) <==> K.NormalForm(u, base) == ""
  {
    var n := K.NormalForm(u, base);
    K.WordsAreWords(u, K.Lower(u, base));
    NoColonInWords(u, K.Words(u, K.Lower(u, base)));
    var key := K.Key(u, kind, lang, base);
    assert key == (kind + ":" + lang) + ([':'] + n);
    assert key[|key| - 1] == ([':'] + n)[|n|];
    if n != "" {
      assert key[|key| - 1] == n[|n| - 1] && n[|n| - 1] in n;
    }
  }

  /** What there is to key at a span: the token's lemma, or the lemmas of a range. */
  predicate Keyable(u: Unicode, page: Page, phrase: bool, start: int, end: int) {
    0 <= start < |page.tokens| &&
    if phrase then
      start <= end < |page.tokens| && K.NormalForm(u, K.Join(K.Lemmas(u, page.tokens[start..end + 1]), ' ')) != ""
    else TokenLemma(u, page.tokens[start]) != ""
  }

  lemma KeyableMeans(u: Unicode, page: Page, phrase: bool, start: int, end: int)
    requires K.WellFormed(u) && 0 <= start < |page.tokens|
    ensures Unkeyed(KeyFor(u, page, phrase, start, end)) <==> !Keyable(u, page, phrase, start, end)
  {
    hide K.NormalForm, K.LemmaOf, K.Lemmas, K.Join, Unkeyed;
    EmptyIsUnkeyed();
    if phrase {
      if start <= end < |page.tokens| {
        BareKey(u, "phrase", page.targetLang, K.Join(K.Lemmas(u, page.tokens[start..end + 1]), ' '));
      }
    } else {
      BareKey(u, "word", page.targetLang, K.LemmaOf(u, page.tokens[start]));
    }
  }

  lemma EmptyIsUnkeyed()
    ensures Unkeyed("")
  {
  }

  /** A tap is recorded exactly when there are letters or digits to key it by; it records what the panel showed, and
      where. */
  lemma LookupRecords(u: Unicode, page: Page, c: Content)
    requires K.WellFormed(u)
    ensures var r := BuildLookupEvent(u, page, c);
      var start, end := if c.PhraseContent? then c.startIndex else c.tokenIndex,
                        if c.PhraseContent? then c.endIndex else c.tokenIndex;
      && (r.Some? <==> Keyable(u, page, c.PhraseContent?, start, end))
      && (r.Some? ==>
            var e := r.value;
            && e.Translation == c.translation && e.Surface == c.original && e.SpanStart == start && e.SpanEnd == end
            && e.Kind == (if c.PhraseContent? then "phrase" else "word")
            && (c.WordContent? ==> e.CEFRLevel == c.cefrLevel && e.Lemma == K.LemmaOf(u, page.tokens[start]))
            && (c.PhraseContent? ==> e.PhraseType == c.phraseType)
            && e.ArticleID == page.articleId && e.ArticleTitle == page.articleTitle && e.Context == page.context
            && e.ID == page.id && e.OccurredAt == page.now && e.Source != "manual")
  {
    hide K.NormalForm, K.LemmaOf, K.Lemmas, KeyFor, Unkeyed, Keyable;
    var start, end := if c.PhraseContent? then c.startIndex else c.tokenIndex,
                      if c.PhraseContent? then c.endIndex else c.tokenIndex;
    if 0 <= start < |page.tokens| {
      KeyableMeans(u, page, c.PhraseContent?, start, end);
    } else {
      OutOfText(u, page, c.PhraseContent?, start, end);
    }
  }

  lemma OutOfText(u: Unicode, page: Page, phrase: bool, start: int, end: int)
    requires start < 0 || start >= |page.tokens|
    ensures !Keyable(u, page, phrase, start, end)
  {
  }

  /** p is the first annotation of the list on exactly these tokens. */
  predicate FirstOn(phrases: seq<Phrase>, start: int, end: int, p: Phrase) {
    exists i | 0 <= i < |phrases| ::
      && phrases[i] == p && p.StartIndex == start && p.EndIndex == end
      && forall j | 0 <= j < i :: phrases[j].StartIndex != start || phrases[j].EndIndex != end
  }

  predicate FirstAt(words: seq<DifficultWord>, start: int, w: DifficultWord) {
    exists i | 0 <= i < |words| ::
      words[i] == w && w.TokenIndex == start && forall j | 0 <= j < i :: words[j].TokenIndex != start
  }

  lemma {:induction false} FirstExactMeans(phrases: seq<Phrase>, start: int, end: int)
    ensures FirstExact(phrases, start, end).Some? ==>
      FirstOn(phrases, start, end, FirstExact(phrases, start, end).value)
    ensures FirstExact(phrases, start, end).None? ==>
      forall p | p in phrases :: p.StartIndex != start || p.EndIndex != end
  {
    if phrases != [] && (phrases[0].StartIndex != start || phrases[0].EndIndex != end) {
      var rest := phrases[1..];
      FirstExactMeans(rest, start, end);
      assert phrases == [phrases[0]] + rest;
      if FirstExact(rest, start, end).Some? {
        var p := FirstExact(rest, start, end).value;
        var i :| 0 <= i < |rest| && rest[i] == p && p.StartIndex == start && p.EndIndex == end &&
          forall j | 0 <= j < i :: rest[j].StartIndex != start || rest[j].EndIndex != end;
        assert phrases[i + 1] == rest[i] && forall j | 1 <= j < i + 1 :: phrases[j] == rest[j - 1];
      }
    }
  }

  lemma {:induction false} FirstWordMeans(words: seq<DifficultWord>, start: int)
    ensures FirstWord(words, start).Some? ==> FirstAt(words, start, FirstWord(words, start).value)
    ensures FirstWord(words, start).None? ==> forall w | w in words :: w.TokenIndex != start
  {
    if words != [] && words[0].TokenIndex != start {
      var rest := words[1..];
      FirstWordMeans(rest, start);
      assert words == [words[0]] + rest;
      if FirstWord(rest, start).Some? {
        var w := FirstWord(rest, start).value;
        var i :| 0 <= i < |rest| && rest[i] == w && w.TokenIndex == start &&
          forall j | 0 <= j < i :: rest[j].TokenIndex != start;
        assert words[i + 1] == rest[i] && forall j | 1 <= j < i + 1 :: words[j] == rest[j - 1];
      }
    }
  }

  /** A term saved by hand takes the translation the article holds for exactly its tokens, with its level or type; it
      has none when the article says nothing of them, and then it is queued to be translated. */
  lemma ManualRecords(u: Unicode, page: Page, phrase: bool, start: int, end: int)
    requires K.WellFormed(u)
    ensures var r := BuildManualEvent(u, page, phrase, start, end);
      && (r.Some? <==> start <= end < |page.tokens| && Keyable(u, page, phrase, start, end))
      && (r.Some? ==>
            var e := r.value;
            && e.SpanStart == start && e.SpanEnd == end && e.Source == "manual"
            && e.Kind == (if phrase then "phrase" else "word")
            && e.Surface == SliceText(page.tokens, start, end, page.text)
            && e.Lemma == K.Join(K.Lemmas(u, page.tokens[start..end + 1]), ' ')
            && e.ArticleID == page.articleId && e.Context == page.context && e.ID == page.id && e.OccurredAt == page.now
            && (phrase && e.Translation != "" ==>
                  exists p :: FirstOn(page.enrichment.Phrases, start, end, p) && e.Translation == p.Translation &&
                    e.PhraseType == p.Type)
            && (phrase && e.Translation == "" ==>
                  forall p | FirstOn(page.enrichment.Phrases, start, end, p) :: p.Translation == "")
            && (!phrase && e.Translation != "" ==>
                  exists w :: FirstAt(page.enrichment.DifficultWords, start, w) && e.Translation == w.Translation &&
                    e.CEFRLevel == w.CEFRLevel)
            && (!phrase && e.Translation == "" ==>
                  forall w | FirstAt(page.enrichment.DifficultWords, start, w) :: w.Translation == "")
            && (Queued(e, true).ManualLookup? <==> e.Translation == ""))
  {
    hide K.NormalForm, K.LemmaOf, K.Lemmas, KeyFor, Unkeyed, Keyable, SliceText, FirstOn, FirstAt;
    if 0 <= start <= end < |page.tokens| {
      KeyableMeans(u, page, phrase, start, end);
      FirstExactMeans(page.enrichment.Phrases, start, end);
      FirstWordMeans(page.enrichment.DifficultWords, start);
      forall p | FirstOn(page.enrichment.Phrases, start, end, p)
        ensures FirstExact(page.enrichment.Phrases, start, end) == Some(p)
      {
        OnlyFirst(page.enrichment.Phrases, start, end, p);
      }
      forall w | FirstAt(page.enrichment.DifficultWords, start, w)
        ensures FirstWord(page.enrichment.DifficultWords, start) == Some(w)
      {
        OnlyFirstWord(page.enrichment.DifficultWords, start, w);
      }
    } else if start < 0 {
      OutOfText(u, page, phrase, start, end);
    }
  }

  lemma OnlyFirst(phrases: seq<Phrase>, start: int, end: int, p: Phrase)
    requires FirstOn(phrases, start, end, p)
    ensures FirstExact(phrases, start, end) == Some(p)
  {
    FirstExactMeans(phrases, start, end);
    var i :| 0 <= i < |phrases| && phrases[i] == p && p.StartIndex == start && p.EndIndex == end &&
      forall j | 0 <= j < i :: phrases[j].StartIndex != start || phrases[j].EndIndex != end;
    assert p in phrases;
  }

  lemma OnlyFirstWord(words: seq<DifficultWord>, start: int, w: DifficultWord)
    requires FirstAt(words, start, w)
    ensures FirstWord(words, start) == Some(w)
  {
    FirstWordMeans(words, start);
    var i :| 0 <= i < |words| && words[i] == w && w.TokenIndex == start &&
      forall j | 0 <= j < i :: words[j].TokenIndex != start;
    assert w in words;
  }

  /** A session takes two lookups for the same exactly when the server's log would, ids aside. */
  lemma PositionMeans(a: LookupEvent, b: LookupEvent)
    ensures Position(a) == Position(b) <==>
      a.ArticleID == b.ArticleID && a.Kind == b.Kind && a.SpanStart == b.SpanStart
    ensures a.ID != b.ID ==> (Position(a) == Position(b) <==> Clashes(a, b))
  {
  }

  // ---------------------------------------------------------------- what the local rows come to

  function UpsertAll(entries: map<string, VocabEntry>, events: seq<LookupEvent>): map<string, VocabEntry> {
    if events == [] then entries else Upsert(UpsertAll(entries, events[..|events| - 1]), events[|events| - 1])
  }

  /** The last of the texts the events of a key bring along that is not empty; what was there before when none is. */
  function LastSaid(events: seq<LookupEvent>, key: string, field: Field, before: string): string {
    if events == [] then before
    else
      var last := events[|events| - 1];
      if last.EntryKey == key && Said(last, field) != "" then Said(last, field)
      else LastSaid(events[..|events| - 1], key, field, before)
  }

  datatype Field = ItsTranslation | ItsLevel | ItsType

  function Said(e: LookupEvent, field: Field): string {
    match field
    case ItsTranslation => e.Translation
    case ItsLevel => e.CEFRLevel
    case ItsType => e.PhraseType
  }

  lemma {:induction false} NothingSaid(events: seq<LookupEvent>, key: string, field: Field, before: string)
    requires forall e | e in events :: e.EntryKey != key
    ensures LastSaid(events, key, field, before) == before
  {
    if events != [] {
      assert events[|events| - 1] in events;
      NothingSaid(events[..|events| - 1], key, field, before);
    }
  }

  /** The row after the events, when it was `was` before them or `was` is what the first of them made. */
  predicate ComesTo(row: VocabEntry, was: VocabEntry, events: seq<LookupEvent>, key: string) {
    && row.entryKey == was.entryKey && row.kind == was.kind && row.Lemma == was.Lemma
    && row.surfaceForms == was.surfaceForms
    && row.translation == LastSaid(events, key, ItsTranslation, was.translation)
    && row.cefrLevel == LastSaid(events, key, ItsLevel, was.cefrLevel)
    && row.phraseType == LastSaid(events, key, ItsType, was.phraseType)
    && (row.deleted <==> was.deleted && forall e | e in events :: e.EntryKey != key)
  }

  lemma ComesOn(row: VocabEntry, was: VocabEntry, front: seq<LookupEvent>, e: LookupEvent, key: string)
    requires ComesTo(row, was, front, key)
    ensures e.EntryKey != key ==> ComesTo(row, was, front + [e], key)
    ensures e.EntryKey == key ==> ComesTo(Upsert(map[key := row], e)[key], was, front + [e], key)
  {
    assert (front + [e])[..|front|] == front;
  }

  lemma ComesFirst(front: seq<LookupEvent>, e: LookupEvent, row: VocabEntry)
    requires forall x | x in front :: x.EntryKey != e.EntryKey
    requires row ==
      VocabEntry(e.EntryKey, e.Kind, e.Lemma, [e.Surface], false, e.Translation, e.CEFRLevel, e.PhraseType)
    ensures ComesTo(row, row, front + [e], e.EntryKey)
  {
    assert (front + [e])[..|front|] == front;
    NothingSaid(front, e.EntryKey, ItsTranslation, row.translation);
    NothingSaid(front, e.EntryKey, ItsLevel, row.cefrLevel);
    NothingSaid(front, e.EntryKey, ItsType, row.phraseType);
  }

  /** After any captures a row is live when it was or was captured; it shows, each by itself, the last translation,
      level and type that said something; the rest of the row is what the first capture made it. */
  lemma {:induction false} RowsAfterCaptures(entries: map<string, VocabEntry>, events: seq<LookupEvent>, key: string)
    ensures var rows := UpsertAll(entries, events);
      && (key in rows <==> key in entries || exists e | e in events :: e.EntryKey == key)
      && (key in rows ==>
            ComesTo(rows[key], if key in entries then entries[key] else FirstRow(events, key), events, key))
  {
    if events != [] {
      var front, last := events[..|events| - 1], events[|events| - 1];
      assert events == front + [last];
      RowsAfterCaptures(entries, front, key);
      var rows := UpsertAll(entries, front);
      hide ComesTo;
      if key in rows {
        ComesOn(rows[key], if key in entries then entries[key] else FirstRow(front, key), front, last, key);
      } else if last.EntryKey == key {
        ComesFirst(front, last, Upsert(rows, last)[key]);
      }
    }
  }

  /** The row the first event of a key makes. */
  function FirstRow(events: seq<LookupEvent>, key: string): VocabEntry {
    if events == [] then VocabEntry(key, "", "", [], true, "", "", "")
    else
      var front, e := events[..|events| - 1], events[|events| - 1];
      if e.EntryKey == key && forall x | x in front :: x.EntryKey != key then
        VocabEntry(key, e.Kind, e.Lemma, [e.Surface], false, e.Translation, e.CEFRLevel, e.PhraseType)
      else FirstRow(front, key)
  }
}
