/** frontend/src/lib/vocab/overlay.ts: matching the collected vocabulary against an article's tokens. */
module Overlay {
  import opened Model
  import opened Text
  import K = VocabKey

  datatype VocabEntry = VocabEntry(
    entryKey: string, kind: string, Lemma: string, surfaceForms: seq<string>, deleted: bool, translation: string,
    cefrLevel: string, phraseType: string)

  /** A phrase entry with the lemma sequence it matches on. */
  datatype Candidate = Candidate(entry: VocabEntry, lemmas: seq<string>)

  datatype VocabIndex = VocabIndex(
    words: map<string, VocabEntry>,
    wordSurfaces: map<string, VocabEntry>,
    phrases: map<string, seq<Candidate>>)

  datatype PhraseMatch = PhraseMatch(entry: VocabEntry, startIndex: nat, endIndex: nat)

  const EMPTY_INDEX := VocabIndex(map[], map[], map[])

  function LemmasOfEntry(u: Unicode, e: VocabEntry): seq<string> {
    K.PhraseLemmasOf(u, e.entryKey, e.Lemma)
  }

  /** The normal form an article token is matched by. */
  function TokenLemma(u: Unicode, tok: Token): string {
    K.NormalForm(u, K.LemmaOf(u, tok))
  }

  // ---------------------------------------------------------------- what a match is, without an index

  predicate LivePhrase(u: Unicode, entries: seq<VocabEntry>, e: VocabEntry) {
    e in entries && !e.deleted && e.kind == "phrase" && LemmasOfEntry(u, e) != []
  }

  /** The tokens from `start` have exactly this lemma sequence. */
  predicate Spells(u: Unicode, tokens: seq<Token>, start: nat, lemmas: seq<string>) {
    start + |lemmas| <= |tokens| && forall i | 0 <= i < |lemmas| :: TokenLemma(u, tokens[start + i]) == lemmas[i]
  }

  /** A live phrase entry occurs over tokens m.startIndex..m.endIndex. */
  predicate Occurs(u: Unicode, entries: seq<VocabEntry>, tokens: seq<Token>, m: PhraseMatch) {
    && LivePhrase(u, entries, m.entry)
    && m.endIndex + 1 == m.startIndex + |LemmasOfEntry(u, m.entry)|
    && Spells(u, tokens, m.startIndex, LemmasOfEntry(u, m.entry))
  }

  predicate Covers(m: PhraseMatch, k: nat) {
    m.startIndex <= k <= m.endIndex
  }

  // ---------------------------------------------------------------- buildVocabIndex

  function Bucket(ix: VocabIndex, head: string): seq<Candidate> {
    if head in ix.phrases then ix.phrases[head] else []
  }

  function AddForms(u: Unicode, surfaces: map<string, VocabEntry>, e: VocabEntry, forms: seq<string>)
      : map<string, VocabEntry>
  {
    if forms == [] then surfaces
    else
      var s := AddForms(u, surfaces, e, forms[..|forms| - 1]);
      var norm := K.NormalForm(u, forms[|forms| - 1]);
      if norm != "" && norm !in s then s[norm := e] else s
  }

  function AddEntry(u: Unicode, ix: VocabIndex, e: VocabEntry): VocabIndex {
    if e.deleted then ix
    else if e.kind == "phrase" then
      var lemmas := LemmasOfEntry(u, e);
      if lemmas == [] then ix
      else ix.(phrases := ix.phrases[lemmas[0] := Bucket(ix, lemmas[0]) + [Candidate(e, lemmas)]])
    else
      var norm' := K.NormalForm(u, e.Lemma);
      var words := if norm' != "" && norm' !in ix.words then ix.words[norm' := e] else ix.words;
      VocabIndex(words, AddForms(u, ix.wordSurfaces, e, e.surfaceForms), ix.phrases)
  }

  function Unsorted(u: Unicode, entries: seq<VocabEntry>): VocabIndex {
    if entries == [] then EMPTY_INDEX
    else AddEntry(u, Unsorted(u, entries[..|entries| - 1]), entries[|entries| - 1])
  }

  predicate LongestFirst(b: seq<Candidate>) {
    forall i, j | 0 <= i < j < |b| :: |b[i].lemmas| >= |b[j].lemmas|
  }

  /** Inserts behind every candidate that is at least as long: the stable order of Array.prototype.sort. */
  function InsertLong(b: seq<Candidate>, c: Candidate): seq<Candidate> {
    if b == [] || |b[|b| - 1].lemmas| >= |c.lemmas| then b + [c]
    else InsertLong(b[..|b| - 1], c) + [b[|b| - 1]]
  }

  function SortLongest(b: seq<Candidate>): seq<Candidate> {
    if b == [] then [] else InsertLong(SortLongest(b[..|b| - 1]), b[|b| - 1])
  }

  function IndexOf(u: Unicode, entries: seq<VocabEntry>): VocabIndex {
    var ix := Unsorted(u, entries);
    ix.(phrases := map head | head in ix.phrases :: SortLongest(ix.phrases[head]))
  }

  method BuildVocabIndex(u: Unicode, entries: seq<VocabEntry>) returns (index: VocabIndex)
    ensures index == IndexOf(u, entries)
  {
    hide K.NormalForm, LemmasOfEntry, SortLongest;
    index := EMPTY_INDEX;
    for n := 0 to |entries|
      invariant index == Unsorted(u, entries[..n])
    {
      var entry := entries[n];
      assert entries[..n + 1][..n] == entries[..n];
      ghost var before := index;
      if entry.deleted {
        continue;
      }
      if entry.kind == "phrase" {
        var lemmas := LemmasOfEntry(u, entry);
        if |lemmas| == 0 {
          continue;
        }
        var bucket := Bucket(index, lemmas[0]) + [Candidate(entry, lemmas)];
        index := index.(phrases := index.phrases[lemmas[0] := bucket]);
        continue;
      }
      var norm' := K.NormalForm(u, entry.Lemma);
      if norm' != "" && norm' !in index.words {
        index := index.(words := index.words[norm' := entry]);
      }
      var surfaces := AddSurfaceForms(u, index.wordSurfaces, entry);
      index := index.(wordSurfaces := surfaces);
    }
    assert entries[..|entries|] == entries;
    index := SortBuckets(index);
  }

  method AddSurfaceForms(u: Unicode, surfaces: map<string, VocabEntry>, entry: VocabEntry)
      returns (r: map<string, VocabEntry>)
    ensures r == AddForms(u, surfaces, entry, entry.surfaceForms)
  {
    hide K.NormalForm;
    r := surfaces;
    for n := 0 to |entry.surfaceForms|
      invariant r == AddForms(u, surfaces, entry, entry.surfaceForms[..n])
    {
      assert entry.surfaceForms[..n + 1][..n] == entry.surfaceForms[..n];
      var norm := K.NormalForm(u, entry.surfaceForms[n]);
      if norm != "" && norm !in r {
        r := r[norm := entry];
      }
    }
    assert entry.surfaceForms[..|entry.surfaceForms|] == entry.surfaceForms;
  }

  /** Sorts every bucket, longest sequence first. */
  method SortBuckets(index: VocabIndex) returns (r: VocabIndex)
    ensures r == index.(phrases := map head | head in index.phrases :: SortLongest(index.phrases[head]))
  {
    hide SortLongest;
    var phrases := index.phrases;
    var todo := index.phrases.Keys;
    while todo != {}
      invariant phrases.Keys == index.phrases.Keys && todo <= phrases.Keys
      invariant forall h | h in phrases ::
        phrases[h] == if h in todo then index.phrases[h] else SortLongest(index.phrases[h])
      decreases |todo|
    {
      var head :| head in todo;
      phrases := phrases[head := SortLongest(phrases[head])];
      todo := todo - {head};
    }
    r := index.(phrases := phrases);
  }

  lemma {:induction false} InsertLongMembers(b: seq<Candidate>, c: Candidate, x: Candidate)
    ensures x in InsertLong(b, c) <==> x in b || x == c
  {
    if b == [] || |b[|b| - 1].lemmas| >= |c.lemmas| {
    } else {
      InsertLongMembers(b[..|b| - 1], c, x);
      assert b == b[..|b| - 1] + [b[|b| - 1]];
    }
  }

  lemma {:induction false} InsertLongSorted(b: seq<Candidate>, c: Candidate)
    requires LongestFirst(b)
    ensures LongestFirst(InsertLong(b, c))
  {
    if b == [] || |b[|b| - 1].lemmas| >= |c.lemmas| {
    } else {
      var last := b[|b| - 1];
      InsertLongSorted(b[..|b| - 1], c);
      var r := InsertLong(b[..|b| - 1], c);
      forall i | 0 <= i < |r| ensures |r[i].lemmas| >= |last.lemmas| {
        InsertLongMembers(b[..|b| - 1], c, r[i]);
      }
    }
  }

  lemma {:induction false} SortLongestMembers(b: seq<Candidate>, x: Candidate)
    ensures x in SortLongest(b) <==> x in b
  {
    if b != [] {
      SortLongestMembers(b[..|b| - 1], x);
      InsertLongMembers(SortLongest(b[..|b| - 1]), b[|b| - 1], x);
      assert b == b[..|b| - 1] + [b[|b| - 1]];
    }
  }

  lemma {:induction false} SortLongestSorted(b: seq<Candidate>)
    ensures LongestFirst(SortLongest(b))
  {
    if b != [] {
      SortLongestSorted(b[..|b| - 1]);
      InsertLongSorted(SortLongest(b[..|b| - 1]), b[|b| - 1]);
    }
  }

  /** A bucket holds exactly the live phrase entries that begin with its head. */
  lemma {:induction false} UnsortedBucket(u: Unicode, entries: seq<VocabEntry>, head: string, c: Candidate)
    ensures c in Bucket(Unsorted(u, entries), head) <==>
      LivePhrase(u, entries, c.entry) && c.lemmas == LemmasOfEntry(u, c.entry) && c.lemmas[0] == head
  {
    hide LemmasOfEntry, K.NormalForm, AddForms;
    if entries != [] {
      var front, e := entries[..|entries| - 1], entries[|entries| - 1];
      UnsortedBucket(u, front, head, c);
      assert entries == front + [e];
    }
  }

  /** What the matcher relies on: sorted buckets, no empty sequence, every bucket under its head. */
  predicate Proper(ix: VocabIndex) {
    forall head | head in ix.phrases ::
      && LongestFirst(ix.phrases[head])
      && forall c | c in ix.phrases[head] :: c.lemmas != [] && c.lemmas[0] == head
  }

  lemma IndexBucket(u: Unicode, entries: seq<VocabEntry>, head: string, c: Candidate)
    ensures c in Bucket(IndexOf(u, entries), head) <==>
      LivePhrase(u, entries, c.entry) && c.lemmas == LemmasOfEntry(u, c.entry) && c.lemmas[0] == head
  {
    hide LemmasOfEntry, Unsorted, SortLongest;
    UnsortedBucket(u, entries, head, c);
    SortLongestMembers(Bucket(Unsorted(u, entries), head), c);
  }

  lemma IndexProper(u: Unicode, entries: seq<VocabEntry>)
    ensures Proper(IndexOf(u, entries))
  {
    hide LemmasOfEntry, Unsorted, SortLongest;
    var ix := IndexOf(u, entries);
    forall head | head in ix.phrases
      ensures LongestFirst(ix.phrases[head])
      ensures forall c | c in ix.phrases[head] :: c.lemmas != [] && c.lemmas[0] == head
    {
      SortLongestSorted(Unsorted(u, entries).phrases[head]);
      forall c | c in ix.phrases[head] ensures c.lemmas != [] && c.lemmas[0] == head {
        IndexBucket(u, entries, head, c);
      }
    }
  }

  // ---------------------------------------------------------------- matchWord

  function MatchWord(u: Unicode, ix: VocabIndex, tok: Token): Option<VocabEntry> {
    var byLemma := TokenLemma(u, tok);
    if byLemma in ix.words then Some(ix.words[byLemma])
    else
      var form := K.NormalForm(u, tok.Text);
      if form in ix.wordSurfaces then Some(ix.wordSurfaces[form]) else None
  }

  predicate LiveWord(entries: seq<VocabEntry>, e: VocabEntry) {
    e in entries && !e.deleted && e.kind != "phrase"
  }

  predicate HasForm(u: Unicode, e: VocabEntry, norm: string) {
    exists k | 0 <= k < |e.surfaceForms| :: K.NormalForm(u, e.surfaceForms[k]) == norm
  }

  lemma {:induction false} AddFormsSound(u: Unicode, surfaces: map<string, VocabEntry>, e: VocabEntry,
        forms: seq<string>, norm: string)
    ensures norm in AddForms(u, surfaces, e, forms) <==>
      norm in surfaces || (norm != "" && exists k | 0 <= k < |forms| :: K.NormalForm(u, forms[k]) == norm)
    ensures norm in surfaces ==> AddForms(u, surfaces, e, forms)[norm] == surfaces[norm]
    ensures norm in AddForms(u, surfaces, e, forms) && norm !in surfaces ==> AddForms(u, surfaces, e, forms)[norm] == e
  {
    hide K.NormalForm;
    if forms != [] {
      var front := forms[..|forms| - 1];
      AddFormsSound(u, surfaces, e, front, norm);
      if k :| 0 <= k < |front| && K.NormalForm(u, front[k]) == norm {
        assert forms[k] == front[k];
      }
      if k :| 0 <= k < |forms| && K.NormalForm(u, forms[k]) == norm && k < |front| {
        assert front[k] == forms[k];
      }
    }
  }

  /** The entry is the first live word entry of the list with that lemma. */
  predicate FirstByLemma(u: Unicode, entries: seq<VocabEntry>, norm: string, e: VocabEntry) {
    exists i | 0 <= i < |entries| ::
      && entries[i] == e && LiveWord(entries, e) && K.NormalForm(u, e.Lemma) == norm
      && forall j | 0 <= j < i :: !(LiveWord(entries, entries[j]) && K.NormalForm(u, entries[j].Lemma) == norm)
  }

  /** The entry is the first live word entry of the list with that surface form. */
  predicate FirstByForm(u: Unicode, entries: seq<VocabEntry>, norm: string, e: VocabEntry) {
    exists i | 0 <= i < |entries| ::
      && entries[i] == e && LiveWord(entries, e) && HasForm(u, e, norm)
      && forall j | 0 <= j < i :: !(LiveWord(entries, entries[j]) && HasForm(u, entries[j], norm))
  }

  lemma FirstLater(u: Unicode, front: seq<VocabEntry>, last: VocabEntry, norm: string, e: VocabEntry)
    ensures FirstByLemma(u, front, norm, e) ==> FirstByLemma(u, front + [last], norm, e)
    ensures FirstByForm(u, front, norm, e) ==> FirstByForm(u, front + [last], norm, e)
  {
    hide K.NormalForm, HasForm;
    var entries := front + [last];
    assert forall x | x in front :: LiveWord(front, x) <==> LiveWord(entries, x);
    if FirstByLemma(u, front, norm, e) {
      var i :|
        0 <= i < |front| && front[i] == e && LiveWord(front, e) && K.NormalForm(u, e.Lemma) == norm &&
        forall j | 0 <= j < i :: !(LiveWord(front, front[j]) && K.NormalForm(u, front[j].Lemma) == norm);
      assert entries[i] == e && forall j | 0 <= j < i :: entries[j] == front[j];
    }
    if FirstByForm(u, front, norm, e) {
      var i :|
        0 <= i < |front| && front[i] == e && LiveWord(front, e) && HasForm(u, e, norm) &&
        forall j | 0 <= j < i :: !(LiveWord(front, front[j]) && HasForm(u, front[j], norm));
      assert entries[i] == e && forall j | 0 <= j < i :: entries[j] == front[j];
    }
  }

  lemma FirstNow(u: Unicode, front: seq<VocabEntry>, last: VocabEntry, norm: string)
    requires !last.deleted && last.kind != "phrase"
    ensures K.NormalForm(u, last.Lemma) == norm &&
            (forall x | x in front :: !(LiveWord(front, x) && K.NormalForm(u, x.Lemma) == norm)) ==>
      FirstByLemma(u, front + [last], norm, last)
    ensures HasForm(u, last, norm) && (forall x | x in front :: !(LiveWord(front, x) && HasForm(u, x, norm))) ==>
      FirstByForm(u, front + [last], norm, last)
  {
    hide K.NormalForm, HasForm;
    var entries := front + [last];
    assert entries[|front|] == last && forall j | 0 <= j < |front| :: entries[j] == front[j];
    assert forall x | x in front :: LiveWord(front, x) <==> LiveWord(entries, x);
  }

  /** The word maps answer with the first live word entry of that lemma or form, and miss only when there is none. */
  lemma {:induction false} WordMaps(u: Unicode, entries: seq<VocabEntry>, norm: string)
    requires norm != ""
    ensures var ix := IndexOf(u, entries);
      && (norm in ix.words <==> exists e | e in entries :: LiveWord(entries, e) && K.NormalForm(u, e.Lemma) == norm)
      && (norm in ix.words ==> FirstByLemma(u, entries, norm, ix.words[norm]))
      && (norm in ix.wordSurfaces <==> exists e | e in entries :: LiveWord(entries, e) && HasForm(u, e, norm))
      && (norm in ix.wordSurfaces ==> FirstByForm(u, entries, norm, ix.wordSurfaces[norm]))
  {
    hide K.NormalForm, LemmasOfEntry, HasForm, FirstByLemma, FirstByForm;
    if entries != [] {
      var front, e := entries[..|entries| - 1], entries[|entries| - 1];
      assert entries == front + [e];
      WordMaps(u, front, norm);
      var a := Unsorted(u, front);
      AddFormsSound(u, a.wordSurfaces, e, e.surfaceForms, norm);
      FormOf(u, e, norm);
      if norm in a.words {
        FirstLater(u, front, e, norm, a.words[norm]);
      }
      if norm in a.wordSurfaces {
        FirstLater(u, front, e, norm, a.wordSurfaces[norm]);
      }
      if !e.deleted && e.kind != "phrase" {
        FirstNow(u, front, e, norm);
      }
      assert forall x | x in front :: LiveWord(front, x) <==> LiveWord(entries, x);
    }
  }

  lemma {:induction false} NoBlankKeys(u: Unicode, entries: seq<VocabEntry>)
    ensures "" !in IndexOf(u, entries).words && "" !in IndexOf(u, entries).wordSurfaces
  {
    hide K.NormalForm, LemmasOfEntry;
    if entries != [] {
      NoBlankKeys(u, entries[..|entries| - 1]);
      var e := entries[|entries| - 1];
      AddFormsSound(u, Unsorted(u, entries[..|entries| - 1]).wordSurfaces, e, e.surfaceForms, "");
    }
  }

  /** The user has collected the word: a live word entry has the token's normal lemma for its lemma, or the token's
      normal text among its forms. */
  predicate WordKnown(u: Unicode, entries: seq<VocabEntry>, tok: Token) {
    exists e | e in entries :: !e.deleted && e.kind != "phrase" && (ByLemma(u, e, tok) || ByForm(u, e, tok))
  }

  predicate ByLemma(u: Unicode, e: VocabEntry, tok: Token) {
    TokenLemma(u, tok) != "" && K.NormalForm(u, e.Lemma) == TokenLemma(u, tok)
  }

  predicate ByForm(u: Unicode, e: VocabEntry, tok: Token) {
    K.NormalForm(u, tok.Text) != "" &&
    exists k | 0 <= k < |e.surfaceForms| :: K.NormalForm(u, e.surfaceForms[k]) == K.NormalForm(u, tok.Text)
  }

  /** The look-up finds an entry exactly when the word is collected: by lemma when some entry has the lemma, by form
      otherwise; and it is the first such entry. */
  lemma MatchWordMeans(u: Unicode, entries: seq<VocabEntry>, tok: Token)
    ensures var r := MatchWord(u, IndexOf(u, entries), tok);
      && (r.Some? <==> WordKnown(u, entries, tok))
      && (r.Some? ==> r.value in entries && !r.value.deleted && r.value.kind != "phrase")
      && (r.Some? ==>
            if exists e | e in entries :: LiveWord(entries, e) && ByLemma(u, e, tok) then
              FirstByLemma(u, entries, TokenLemma(u, tok), r.value)
            else FirstByForm(u, entries, K.NormalForm(u, tok.Text), r.value))
  {
    hide K.NormalForm, TokenLemma, IndexOf;
    var ix := IndexOf(u, entries);
    var norm', form := TokenLemma(u, tok), K.NormalForm(u, tok.Text);
    NoBlankKeys(u, entries);
    if norm' != "" {
      WordMaps(u, entries, norm');
    }
    if form != "" {
      WordMaps(u, entries, form);
    }
    assert forall e :: ByForm(u, e, tok) <==> form != "" && HasForm(u, e, form);
  }

  lemma FormOf(u: Unicode, e: VocabEntry, norm: string)
    ensures HasForm(u, e, norm) <==> exists k | 0 <= k < |e.surfaceForms| :: K.NormalForm(u, e.surfaceForms[k]) == norm
  {
  }

  // ---------------------------------------------------------------- matchPhraseAt

  predicate Fits(u: Unicode, tokens: seq<Token>, start: nat, k: nat, c: Candidate) {
    k < start + |c.lemmas| && Spells(u, tokens, start, c.lemmas)
  }

  function FirstFit(u: Unicode, tokens: seq<Token>, start: nat, k: nat, b: seq<Candidate>): Option<Candidate> {
    if b == [] then None
    else if Fits(u, tokens, start, k, b[0]) then Some(b[0])
    else FirstFit(u, tokens, start, k, b[1..])
  }

  /** The best match that starts at or before `start`: later starts first, then bucket order. */
  function MatchFrom(u: Unicode, ix: VocabIndex, tokens: seq<Token>, k: nat, start: nat): Option<PhraseMatch>
    requires start <= k < |tokens|
  {
    match FirstFit(u, tokens, start, k, Bucket(ix, TokenLemma(u, tokens[start])))
    case Some(c) => if |c.lemmas| == 0 then None else Some(PhraseMatch(c.entry, start, start + |c.lemmas| - 1))
    case None => if start == 0 then None else MatchFrom(u, ix, tokens, k, start - 1)
  }

  function MatchPhrase(u: Unicode, ix: VocabIndex, tokens: seq<Token>, k: nat): Option<PhraseMatch>
    requires k < |tokens|
  {
    MatchFrom(u, ix, tokens, k, k)
  }

  method SequenceMatches(u: Unicode, tokens: seq<Token>, start: nat, lemmas: seq<string>) returns (r: bool)
    ensures r <==> Spells(u, tokens, start, lemmas)
  {
    hide TokenLemma;
    var i := 0;
    while i < |lemmas|
      invariant 0 <= i <= |lemmas|
      invariant i > 0 ==> start + i <= |tokens|
      invariant forall j | 0 <= j < i :: TokenLemma(u, tokens[start + j]) == lemmas[j]
    {
      if start + i >= |tokens| {
        return false;
      }
      if TokenLemma(u, tokens[start + i]) != lemmas[i] {
        return false;
      }
      i := i + 1;
    }
    return start + |lemmas| <= |tokens|;
  }

  lemma {:induction false} NoFit(u: Unicode, tokens: seq<Token>, start: nat, k: nat, b: seq<Candidate>)
    requires forall c | c in b :: !Fits(u, tokens, start, k, c)
    ensures FirstFit(u, tokens, start, k, b) == None
  {
    if b != [] {
      NoFit(u, tokens, start, k, b[1..]);
    }
  }

  /** Below k - longest + 1 no candidate reaches k, so the bounded scan loses nothing. */
  lemma {:induction false} BelowReach(u: Unicode, ix: VocabIndex, tokens: seq<Token>, k: nat, start: nat, longest: nat)
    requires Proper(ix) && start <= k < |tokens| && start + longest <= k
    requires forall head | head in ix.phrases && ix.phrases[head] != [] :: |ix.phrases[head][0].lemmas| <= longest
    ensures MatchFrom(u, ix, tokens, k, start) == None
    decreases start
  {
    hide TokenLemma, Spells;
    var b := Bucket(ix, TokenLemma(u, tokens[start]));
    forall c | c in b ensures !Fits(u, tokens, start, k, c) {
      var i :| 0 <= i < |b| && b[i] == c;
      assert |b[0].lemmas| >= |b[i].lemmas|;
    }
    NoFit(u, tokens, start, k, b);
    if start > 0 {
      BelowReach(u, ix, tokens, k, start - 1, longest);
    }
  }

  method LongestPhrase(ix: VocabIndex) returns (longest: nat)
    ensures forall head | head in ix.phrases && ix.phrases[head] != [] :: |ix.phrases[head][0].lemmas| <= longest
  {
    longest := 0;
    var todo := ix.phrases.Keys;
    while todo != {}
      invariant todo <= ix.phrases.Keys
      invariant forall head | head in ix.phrases && head !in todo && ix.phrases[head] != [] ::
        |ix.phrases[head][0].lemmas| <= longest
      decreases |todo|
    {
      var head :| head in todo;
      var bucket := ix.phrases[head];
      if |bucket| > 0 && |bucket[0].lemmas| > longest {
        longest := |bucket[0].lemmas|;
      }
      todo := todo - {head};
    }
  }

  lemma FromHit(u: Unicode, ix: VocabIndex, tokens: seq<Token>, k: nat, start: nat, c: Candidate)
    requires Proper(ix) && start <= k < |tokens|
    requires FirstFit(u, tokens, start, k, Bucket(ix, TokenLemma(u, tokens[start]))) == Some(c)
    ensures c.lemmas != [] &&
      MatchFrom(u, ix, tokens, k, start) == Some(PhraseMatch(c.entry, start, start + |c.lemmas| - 1))
  {
    hide TokenLemma, Spells;
    ProperFit(u, tokens, start, k, Bucket(ix, TokenLemma(u, tokens[start])));
  }

  lemma FromMiss(u: Unicode, ix: VocabIndex, tokens: seq<Token>, k: nat, start: nat)
    requires start <= k < |tokens|
    requires FirstFit(u, tokens, start, k, Bucket(ix, TokenLemma(u, tokens[start]))) == None
    ensures MatchFrom(u, ix, tokens, k, start) == if start == 0 then None else MatchFrom(u, ix, tokens, k, start - 1)
  {
    hide TokenLemma, FirstFit;
  }

  method MatchPhraseAt(u: Unicode, ix: VocabIndex, tokens: seq<Token>, k: nat) returns (m: Option<PhraseMatch>)
    requires Proper(ix) && k < |tokens|
    ensures m == MatchPhrase(u, ix, tokens, k)
  {
    hide TokenLemma, Spells, MatchFrom, FirstFit, Proper;
    if |ix.phrases| == 0 {
      BelowReach(u, ix, tokens, k, k, 0);
      return None;
    }
    var longest := LongestPhrase(ix);
    var low := if k < longest then 0 else k - longest + 1;
    var start := k + 1;
    while start > low
      invariant start <= k + 1 && low <= k + 1 && (start < low ==> start == k + 1)
      invariant start > 0 ==> MatchFrom(u, ix, tokens, k, start - 1) == MatchPhrase(u, ix, tokens, k)
      invariant start == 0 ==> MatchPhrase(u, ix, tokens, k) == None
    {
      start := start - 1;
      var head := TokenLemma(u, tokens[start]);
      if head in ix.phrases {
        var c := FindFit(u, tokens, start, k, ix.phrases[head]);
        if c.Some? {
          FromHit(u, ix, tokens, k, start, c.value);
          return Some(PhraseMatch(c.value.entry, start, start + |c.value.lemmas| - 1));
        }
      } else {
        NoFit(u, tokens, start, k, []);
      }
      FromMiss(u, ix, tokens, k, start);
    }
    if start > 0 {
      BelowReach(u, ix, tokens, k, start - 1, longest);
    }
    return None;
  }

  lemma {:induction false} ProperFit(u: Unicode, tokens: seq<Token>, start: nat, k: nat, b: seq<Candidate>)
    requires FirstFit(u, tokens, start, k, b).Some?
    ensures var c := FirstFit(u, tokens, start, k, b).value; c in b && Fits(u, tokens, start, k, c)
  {
    if !Fits(u, tokens, start, k, b[0]) {
      ProperFit(u, tokens, start, k, b[1..]);
    }
  }

  /** The inner loop: longest-first order means the first full match wins. */
  method FindFit(u: Unicode, tokens: seq<Token>, start: nat, k: nat, b: seq<Candidate>) returns (r: Option<Candidate>)
    ensures r == FirstFit(u, tokens, start, k, b)
  {
    hide Spells;
    var n := 0;
    while n < |b|
      invariant 0 <= n <= |b|
      invariant FirstFit(u, tokens, start, k, b[n..]) == FirstFit(u, tokens, start, k, b)
    {
      var candidate := b[n];
      var end := start + |candidate.lemmas| - 1;
      assert b[n..][1..] == b[n + 1..];
      if k <= end < |tokens| {
        var full := SequenceMatches(u, tokens, start, candidate.lemmas);
        if full {
          return Some(candidate);
        }
      } else {
        Unreachable(u, tokens, start, k, candidate);
      }
      n := n + 1;
    }
    return None;
  }

  lemma Unreachable(u: Unicode, tokens: seq<Token>, start: nat, k: nat, c: Candidate)
    requires start + |c.lemmas| <= k || start + |c.lemmas| > |tokens|
    ensures !Fits(u, tokens, start, k, c)
  {
  }

  // ---------------------------------------------------------------- the matcher against brute force

  lemma {:induction false} FirstFitLongest(u: Unicode, tokens: seq<Token>, start: nat, k: nat, b: seq<Candidate>,
        c: Candidate)
    requires LongestFirst(b) && c in b && Fits(u, tokens, start, k, c)
    ensures var f := FirstFit(u, tokens, start, k, b);
      f.Some? && f.value in b && Fits(u, tokens, start, k, f.value) && |f.value.lemmas| >= |c.lemmas|
  {
    hide Fits;
    var i :| 0 <= i < |b| && b[i] == c;
    if !Fits(u, tokens, start, k, b[0]) {
      assert c == b[1..][i - 1];
      FirstFitLongest(u, tokens, start, k, b[1..], c);
    }
  }

  lemma OccurrenceFits(u: Unicode, entries: seq<VocabEntry>, tokens: seq<Token>, m: PhraseMatch, k: nat)
    requires Occurs(u, entries, tokens, m) && Covers(m, k)
    ensures k < |tokens|
    ensures var c := Candidate(m.entry, LemmasOfEntry(u, m.entry));
      Fits(u, tokens, m.startIndex, k, c) && c in Bucket(IndexOf(u, entries), TokenLemma(u, tokens[m.startIndex]))
  {
    hide IndexOf, TokenLemma;
    var c := Candidate(m.entry, LemmasOfEntry(u, m.entry));
    assert TokenLemma(u, tokens[m.startIndex + 0]) == c.lemmas[0];
    IndexBucket(u, entries, TokenLemma(u, tokens[m.startIndex]), c);
  }

  lemma FitOccurs(u: Unicode, entries: seq<VocabEntry>, tokens: seq<Token>, start: nat, k: nat, c: Candidate)
    requires start <= k < |tokens| && c in Bucket(IndexOf(u, entries), TokenLemma(u, tokens[start])) &&
      Fits(u, tokens, start, k, c)
    ensures c.lemmas != []
    ensures var m := PhraseMatch(c.entry, start, start + |c.lemmas| - 1); Occurs(u, entries, tokens, m) && Covers(m, k)
  {
    hide IndexOf, TokenLemma, LemmasOfEntry;
    IndexBucket(u, entries, TokenLemma(u, tokens[start]), c);
  }

  /** m is at least as good as x: a later start, or the same start and no shorter. */
  predicate NoWorse(m: PhraseMatch, x: PhraseMatch) {
    m.startIndex > x.startIndex || (m.startIndex == x.startIndex && m.endIndex >= x.endIndex)
  }

  lemma BucketSorted(ix: VocabIndex, head: string)
    requires Proper(ix)
    ensures LongestFirst(Bucket(ix, head))
  {
  }

  lemma {:induction false} MatchFromBest(u: Unicode, entries: seq<VocabEntry>, tokens: seq<Token>, k: nat, start: nat)
    requires start <= k < |tokens|
    ensures var r := MatchFrom(u, IndexOf(u, entries), tokens, k, start);
      && (r.Some? ==> Occurs(u, entries, tokens, r.value) && Covers(r.value, k) && r.value.startIndex <= start)
      && (forall x | Occurs(u, entries, tokens, x) && Covers(x, k) && x.startIndex <= start ::
        r.Some? && NoWorse(r.value, x))
    decreases start
  {
    hide IndexOf, TokenLemma, LemmasOfEntry, Fits, Occurs, Covers, FirstFit, Bucket;
    var ix := IndexOf(u, entries);
    IndexProper(u, entries);
    var b := Bucket(ix, TokenLemma(u, tokens[start]));
    BucketSorted(ix, TokenLemma(u, tokens[start]));
    var f := FirstFit(u, tokens, start, k, b);
    if f.Some? {
      ProperFit(u, tokens, start, k, b);
      FitOccurs(u, entries, tokens, start, k, f.value);
    } else if start > 0 {
      MatchFromBest(u, entries, tokens, k, start - 1);
    }
    forall x | Occurs(u, entries, tokens, x) && Covers(x, k) && x.startIndex == start
      ensures f.Some? && start + |f.value.lemmas| - 1 >= x.endIndex
    {
      OccurrenceFits(u, entries, tokens, x, k);
      FirstFitLongest(u, tokens, start, k, b, Candidate(x.entry, LemmasOfEntry(u, x.entry)));
      OccursLength(u, entries, tokens, x);
    }
  }

  lemma OccursLength(u: Unicode, entries: seq<VocabEntry>, tokens: seq<Token>, x: PhraseMatch)
    requires Occurs(u, entries, tokens, x)
    ensures x.endIndex + 1 == x.startIndex + |LemmasOfEntry(u, x.entry)|
  {
  }

  /** The bucketed matcher refines brute force: it misses only when no live phrase occurs over the token,
      and what it finds is an occurrence with the latest start and, among those, the greatest length. */
  lemma MatchPhraseRefinesBruteForce(u: Unicode, entries: seq<VocabEntry>, tokens: seq<Token>, k: nat)
    requires k < |tokens|
    ensures var r := MatchPhrase(u, IndexOf(u, entries), tokens, k);
      && (r.None? <==> forall x | Occurs(u, entries, tokens, x) :: !Covers(x, k))
      && (r.Some? ==> Occurs(u, entries, tokens, r.value) && Covers(r.value, k))
      && (r.Some? ==> forall x | Occurs(u, entries, tokens, x) && Covers(x, k) :: NoWorse(r.value, x))
  {
    hide IndexOf, Occurs;
    MatchFromBest(u, entries, tokens, k, k);
  }

  // ---------------------------------------------------------------- buildOverlayIndices

  /** The tokens the overlay decorates. */
  predicate Decorated(u: Unicode, ix: VocabIndex, tokens: seq<Token>, annotated: set<int>, k: int) {
    0 <= k < |tokens| && k !in annotated &&
    (MatchPhrase(u, ix, tokens, k).Some? || MatchWord(u, ix, tokens[k]).Some?)
  }

  /** The token belongs to something the user has collected: a phrase occurrence covers it, or its word is known. */
  ghost predicate Collected(u: Unicode, entries: seq<VocabEntry>, tokens: seq<Token>, k: nat)
    requires k < |tokens|
  {
    (exists m :: Occurs(u, entries, tokens, m) && Covers(m, k)) || WordKnown(u, entries, tokens[k])
  }

  method BuildOverlayIndices(u: Unicode, entries: seq<VocabEntry>, ix: VocabIndex, tokens: seq<Token>,
        annotated: set<int>)
      returns (marked: set<int>)
    requires ix == IndexOf(u, entries)
    ensures forall k :: k in marked <==> Decorated(u, ix, tokens, annotated, k)
    ensures forall k :: k in marked <==> 0 <= k < |tokens| && k !in annotated && Collected(u, entries, tokens, k)
  {
    hide MatchWord, IndexOf, Collected;
    IndexProper(u, entries);
    forall k: nat | k < |tokens|
      ensures Decorated(u, ix, tokens, annotated, k) <==> k !in annotated && Collected(u, entries, tokens, k)
    {
      DecoratedMeans(u, entries, tokens, annotated, k);
    }
    marked := {};
    if |ix.words| == 0 && |ix.wordSurfaces| == 0 && |ix.phrases| == 0 {
      forall k | 0 <= k < |tokens| ensures !Decorated(u, ix, tokens, annotated, k) {
        BelowReach(u, ix, tokens, k, k, 0);
        NoWord(u, ix, tokens[k]);
      }
      return;
    }
    for i := 0 to |tokens|
      invariant forall k | k in marked :: Decorated(u, ix, tokens, annotated, k)
      invariant forall k | 0 <= k < i && Decorated(u, ix, tokens, annotated, k) :: k in marked
    {
      if i in annotated {
        continue;
      }
      var phrase := MatchPhraseAt(u, ix, tokens, i);
      if phrase.Some? {
        MatchPhraseRefinesBruteForce(u, entries, tokens, i);
        CoveredTokensDecorated(u, entries, tokens, annotated, phrase.value);
        marked := MarkRange(marked, phrase.value.startIndex, phrase.value.endIndex, annotated);
        continue;
      }
      if MatchWord(u, ix, tokens[i]).Some? {
        marked := marked + {i};
      }
    }
  }

  lemma NoWord(u: Unicode, ix: VocabIndex, tok: Token)
    requires |ix.words| == 0 && |ix.wordSurfaces| == 0
    ensures MatchWord(u, ix, tok).None?
  {
  }

  method MarkRange(marked: set<int>, start: nat, end: nat, annotated: set<int>) returns (r: set<int>)
    ensures forall k :: k in r <==> k in marked || (start <= k <= end && k !in annotated)
  {
    r := marked;
    var k := start;
    while k <= end
      invariant start <= k && (k <= end + 1 || k == start)
      invariant forall j :: j in r <==> j in marked || (start <= j < k && j <= end && j !in annotated)
    {
      if k !in annotated {
        r := r + {k};
      }
      k := k + 1;
    }
  }

  lemma CoveredTokensDecorated(u: Unicode, entries: seq<VocabEntry>, tokens: seq<Token>, annotated: set<int>,
        m: PhraseMatch)
    requires Occurs(u, entries, tokens, m)
    ensures forall k | m.startIndex <= k <= m.endIndex && k !in annotated ::
      Decorated(u, IndexOf(u, entries), tokens, annotated, k)
  {
    hide IndexOf, TokenLemma;
    forall k | m.startIndex <= k <= m.endIndex && k !in annotated
      ensures Decorated(u, IndexOf(u, entries), tokens, annotated, k)
    {
      MatchPhraseRefinesBruteForce(u, entries, tokens, k);
      assert Covers(m, k);
    }
  }

  /** The overlay decorates exactly the unannotated tokens that a phrase occurrence covers or whose word a live word
      entry has, as its lemma or among its forms. */
  lemma DecoratedMeans(u: Unicode, entries: seq<VocabEntry>, tokens: seq<Token>, annotated: set<int>, k: nat)
    requires k < |tokens|
    ensures Decorated(u, IndexOf(u, entries), tokens, annotated, k) <==>
      k !in annotated && Collected(u, entries, tokens, k)
  {
    hide IndexOf, MatchWord, Occurs, WordKnown;
    MatchPhraseRefinesBruteForce(u, entries, tokens, k);
    MatchWordMeans(u, entries, tokens[k]);
  }
}
