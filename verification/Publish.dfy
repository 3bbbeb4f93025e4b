/** internal/publish/render.go: laying out sentence translations and the uncovered source as paragraphs. */
module Publish {
  import opened Model
  import opened Text
  import T = Tokenizer

  datatype PageSegment = PageSegment(Text: seq<Piece>, Translated: bool)
  datatype Block = Block(Segments: seq<PageSegment>)

  datatype Payload = Payload(OriginalText: seq<Piece>, Tokens: seq<Token>, Sentences: seq<Sentence>)

  predicate Blank(u: Unicode, p: Piece) {
    p.Rune? && u.space(p.c)
  }

  // ---------------------------------------------------------------- strings.TrimSpace

  function TrimLeft(u: Unicode, s: seq<Piece>): seq<Piece> {
    if s != [] && Blank(u, s[0]) then TrimLeft(u, s[1..]) else s
  }

  function TrimRight(u: Unicode, s: seq<Piece>): seq<Piece> {
    if s != [] && Blank(u, s[|s| - 1]) then TrimRight(u, s[..|s| - 1]) else s
  }

  function TrimSpace(u: Unicode, s: seq<Piece>): seq<Piece> {
    TrimRight(u, TrimLeft(u, s))
  }

  /** The pieces of a text that are not white space, in order. */
  function Ink(u: Unicode, s: seq<Piece>): seq<Piece> {
    if s == [] then []
    else if Blank(u, s[|s| - 1]) then Ink(u, s[..|s| - 1])
    else Ink(u, s[..|s| - 1]) + [s[|s| - 1]]
  }

  lemma {:induction false} InkConcat(u: Unicode, a: seq<Piece>, b: seq<Piece>)
    ensures Ink(u, a + b) == Ink(u, a) + Ink(u, b)
  {
    if b == [] {
      assert a + b == a;
    } else {
      assert (a + b)[..|a + b| - 1] == a + b[..|b| - 1];
      InkConcat(u, a, b[..|b| - 1]);
    }
  }

  lemma InkOne(u: Unicode, p: Piece)
    ensures Ink(u, [p]) == if Blank(u, p) then [] else [p]
  {
    assert [p][..0] == [];
  }

  lemma {:induction false} TrimLeftInk(u: Unicode, s: seq<Piece>)
    ensures Ink(u, TrimLeft(u, s)) == Ink(u, s)
    ensures TrimLeft(u, s) != [] ==> !Blank(u, TrimLeft(u, s)[0])
  {
    if s != [] && Blank(u, s[0]) {
      TrimLeftInk(u, s[1..]);
      assert s == [s[0]] + s[1..];
      InkConcat(u, [s[0]], s[1..]);
      InkOne(u, s[0]);
    }
  }

  lemma {:induction false} TrimRightInk(u: Unicode, s: seq<Piece>)
    ensures Ink(u, TrimRight(u, s)) == Ink(u, s)
  {
    if s != [] && Blank(u, s[|s| - 1]) {
      TrimRightInk(u, s[..|s| - 1]);
    }
  }

  lemma TrimInk(u: Unicode, s: seq<Piece>)
    ensures Ink(u, TrimSpace(u, s)) == Ink(u, s)
  {
    TrimLeftInk(u, s);
    TrimRightInk(u, TrimLeft(u, s));
  }

  // ---------------------------------------------------------------- paragraph separators

  predicate IsNewline(p: Piece) {
    p == Rune('\n')
  }

  /** A blank line may hold blanks, tabs and carriage returns. */
  predicate IsPad(p: Piece) {
    p == Rune(' ') || p == Rune('\t') || p == Rune('\r')
  }

  /** Where a separator that starts at a newline at k ends, if there is one: newline, padding, newline. */
  function SepEnd(s: seq<Piece>, k: nat): (r: Option<nat>)
    requires k <= |s|
    ensures r.Some? ==> k < r.value <= |s|
    decreases |s| - k
  {
    if k == |s| then None
    else if IsNewline(s[k]) then Some(k + 1)
    else if IsPad(s[k]) then SepEnd(s, k + 1)
    else None
  }

  /** The first separator: where it starts and ends. */
  function FirstSep(s: seq<Piece>, k: nat): (r: Option<(nat, nat)>)
    requires k <= |s|
    ensures r.Some? ==> k <= r.value.0 < r.value.1 <= |s|
    decreases |s| - k
  {
    if k == |s| then None
    else if IsNewline(s[k]) && SepEnd(s, k + 1).Some? then Some((k, SepEnd(s, k + 1).value))
    else FirstSep(s, k + 1)
  }

  /** paragraphSep.Split(raw, -1). */
  function Paragraphs(s: seq<Piece>): (parts: seq<seq<Piece>>)
    ensures parts != []
    decreases |s|
  {
    match FirstSep(s, 0)
    case None => [s]
    case Some(sep) => [s[..sep.0]] + Paragraphs(s[sep.1..])
  }

  /** What the page relies on from the Unicode tables: separators are white space, closing punctuation is no letter
      or digit. */
  ghost predicate Typographic(u: Unicode) {
    u.space('\n') && u.space(' ') && u.space('\t') && u.space('\r') &&
    forall c | c in CLOSING_PUNCT :: !u.letter(c) && !u.digit(c)
  }

  lemma {:induction false} SepBlank(u: Unicode, s: seq<Piece>, k: nat)
    requires Typographic(u) && k <= |s| && SepEnd(s, k).Some?
    ensures Ink(u, s[k..SepEnd(s, k).value]) == []
    decreases |s| - k
  {
    var e := SepEnd(s, k).value;
    assert s[k..e] == [s[k]] + s[k + 1..e];
    InkConcat(u, [s[k]], s[k + 1..e]);
    InkOne(u, s[k]);
    if !IsNewline(s[k]) {
      SepBlank(u, s, k + 1);
    }
  }

  lemma {:induction false} FirstSepBlank(u: Unicode, s: seq<Piece>, k: nat)
    requires Typographic(u) && k <= |s| && FirstSep(s, k).Some?
    ensures Ink(u, s[FirstSep(s, k).value.0..FirstSep(s, k).value.1]) == []
    decreases |s| - k
  {
    if IsNewline(s[k]) && SepEnd(s, k + 1).Some? {
      var e := SepEnd(s, k + 1).value;
      SepBlank(u, s, k + 1);
      assert s[k..e] == [s[k]] + s[k + 1..e];
      InkConcat(u, [s[k]], s[k + 1..e]);
      InkOne(u, s[k]);
    } else {
      FirstSepBlank(u, s, k + 1);
    }
  }

  function InkAll(u: Unicode, parts: seq<seq<Piece>>): seq<Piece> {
    if parts == [] then [] else Ink(u, parts[0]) + InkAll(u, parts[1..])
  }

  /** Splitting into paragraphs drops white space only. */
  lemma {:induction false} ParagraphsInk(u: Unicode, s: seq<Piece>)
    requires Typographic(u)
    ensures InkAll(u, Paragraphs(s)) == Ink(u, s)
    decreases |s|
  {
    hide Ink, FirstSep;
    match FirstSep(s, 0)
    case None =>
      InkAllCons(u, s, []);
    case Some(sep) =>
      ParagraphsInk(u, s[sep.1..]);
      FirstSepBlank(u, s, 0);
      ThreeInk(u, s, sep.0, sep.1);
      InkAllCons(u, s[..sep.0], Paragraphs(s[sep.1..]));
  }

  lemma InkAllCons(u: Unicode, part: seq<Piece>, parts: seq<seq<Piece>>)
    ensures InkAll(u, [part] + parts) == Ink(u, part) + InkAll(u, parts)
    ensures [part] + [] == [part] && Ink(u, part) + InkAll(u, []) == Ink(u, part)
  {
    hide Ink;
    assert ([part] + parts)[1..] == parts;
  }

  lemma ThreeInk(u: Unicode, s: seq<Piece>, a: nat, b: nat)
    requires a <= b <= |s|
    ensures Ink(u, s) == Ink(u, s[..a]) + Ink(u, s[a..b]) + Ink(u, s[b..])
  {
    hide Ink;
    assert s == s[..a] + s[a..b] + s[b..];
    InkConcat(u, s[..a] + s[a..b], s[b..]);
    InkConcat(u, s[..a], s[a..b]);
  }

  // ---------------------------------------------------------------- absorbTrailingPunct

  const CLOSING_PUNCT := ".?!,;:\U{2026})]}\"'\U{00BB}\U{201D}\U{2019}"

  predicate Closing(p: Piece) {
    p.Rune? && p.c in CLOSING_PUNCT
  }

  function Absorbed(t: seq<Piece>, k: nat): (e: nat)
    requires k <= |t|
    ensures k <= e <= |t|
    ensures forall i | k <= i < e :: Closing(t[i])
    decreases |t| - k
  {
    if k < |t| && Closing(t[k]) then Absorbed(t, k + 1) else k
  }

  /** On byte offsets, as the source has it. */
  method AbsorbTrailingPunct(t: seq<Piece>, end: nat, ghost k0: nat) returns (e: nat)
    requires k0 <= |t| && end == Off(t, k0)
    ensures e == Off(t, Absorbed(t, k0))
  {
    hide At, Closing, Off;
    AtOff(t, k0);
    e := end;
    var k := At(t, end);
    while k < |t|
      invariant k <= |t| && e == Off(t, k) && Absorbed(t, k) == Absorbed(t, k0)
    {
      if !Closing(t[k]) {
        break;
      }
      OffNext(t, k);
      e := e + Size(t[k]);
      k := k + 1;
    }
  }

  lemma OffNext(t: seq<Piece>, k: nat)
    requires k < |t|
    ensures Off(t, k + 1) == Off(t, k) + Size(t[k])
  {
  }

  // ---------------------------------------------------------------- orderedSentences

  predicate Usable(u: Unicode, p: Payload, s: Sentence) {
    0 <= s.StartIndex <= s.EndIndex < |p.Tokens| && TrimSpace(u, Lift(s.Translation)) != []
  }

  function UsableOf(u: Unicode, p: Payload, list: seq<Sentence>): seq<Sentence> {
    if list == [] then []
    else
      var r := UsableOf(u, p, list[..|list| - 1]);
      if Usable(u, p, list[|list| - 1]) then r + [list[|list| - 1]] else r
  }

  /** Inserts behind every sentence that starts no later: a stable order. */
  function InsertStable(sorted: seq<Sentence>, s: Sentence): seq<Sentence> {
    if sorted == [] || sorted[|sorted| - 1].StartIndex <= s.StartIndex then sorted + [s]
    else InsertStable(sorted[..|sorted| - 1], s) + [sorted[|sorted| - 1]]
  }

  /** sort.SliceStable by start. */
  function SortStable(list: seq<Sentence>): seq<Sentence> {
    if list == [] then [] else InsertStable(SortStable(list[..|list| - 1]), list[|list| - 1])
  }

  function LastEnd(kept: seq<Sentence>): int {
    if kept == [] then -1 else kept[|kept| - 1].EndIndex
  }

  function Dedup(list: seq<Sentence>): seq<Sentence> {
    if list == [] then []
    else
      var r := Dedup(list[..|list| - 1]);
      if list[|list| - 1].StartIndex <= LastEnd(r) then r else r + [list[|list| - 1]]
  }

  function OrderedSentences(u: Unicode, p: Payload): seq<Sentence> {
    Dedup(SortStable(UsableOf(u, p, p.Sentences)))
  }

  lemma {:induction false} DedupShorter(list: seq<Sentence>)
    ensures |Dedup(list)| <= |list|
  {
    if list != [] {
      DedupShorter(list[..|list| - 1]);
    }
  }

  lemma DedupNone()
    ensures Dedup([]) == []
  {
  }

  lemma DedupNext(list: seq<Sentence>, i: nat)
    requires i < |list|
    ensures Dedup(list[..i + 1]) ==
      if list[i].StartIndex <= LastEnd(Dedup(list[..i])) then Dedup(list[..i]) else Dedup(list[..i]) + [list[i]]
  {
    assert list[..i + 1][..i] == list[..i];
  }

  /** The survivors are written over the front of the same array. */
  method DedupInPlace(a: array<Sentence>) returns (n: nat)
    modifies a
    ensures n <= a.Length && a[..n] == Dedup(old(a[..]))
  {
    hide Dedup;
    ghost var list := a[..];
    DedupNone();
    n := 0;
    var prevEnd := -1;
    for i := 0 to a.Length
      invariant n <= i && a[i..] == list[i..] && a[..n] == Dedup(list[..i]) && prevEnd == LastEnd(a[..n])
    {
      var s := a[i];
      assert s == list[i..][0] == list[i];
      DedupNext(list, i);
      if s.StartIndex <= prevEnd {
        continue;
      }
      a[n] := s;
      n := n + 1;
      prevEnd := s.EndIndex;
    }
    assert list[..a.Length] == list;
  }

  method OrderSentences(u: Unicode, p: Payload) returns (kept: seq<Sentence>)
    ensures kept == OrderedSentences(u, p)
  {
    hide TrimSpace;
    var out: seq<Sentence> := [];
    for i := 0 to |p.Sentences|
      invariant out == UsableOf(u, p, p.Sentences[..i])
    {
      assert p.Sentences[..i + 1][..i] == p.Sentences[..i];
      var s := p.Sentences[i];
      if s.StartIndex < 0 || s.EndIndex < s.StartIndex || s.EndIndex >= |p.Tokens| {
        continue;
      }
      if TrimSpace(u, Lift(s.Translation)) == [] {
        continue;
      }
      out := out + [s];
    }
    assert p.Sentences[..|p.Sentences|] == p.Sentences;
    var sorted := SortStable(out);
    var a := new Sentence[|sorted|](i requires 0 <= i < |sorted| => sorted[i]);
    assert a[..] == sorted;
    var n := DedupInPlace(a);
    kept := a[..n];
  }

  predicate SortedByStart(list: seq<Sentence>) {
    forall i, j | 0 <= i < j < |list| :: list[i].StartIndex <= list[j].StartIndex
  }

  lemma {:induction false} UsableMembers(u: Unicode, p: Payload, list: seq<Sentence>, s: Sentence)
    ensures s in UsableOf(u, p, list) <==> s in list && Usable(u, p, s)
  {
    hide Usable;
    if list != [] {
      UsableMembers(u, p, list[..|list| - 1], s);
      assert list == list[..|list| - 1] + [list[|list| - 1]];
    }
  }

  lemma {:induction false} InsertStableMembers(sorted: seq<Sentence>, s: Sentence)
    ensures multiset(InsertStable(sorted, s)) == multiset(sorted) + multiset{s}
  {
    if sorted == [] || sorted[|sorted| - 1].StartIndex <= s.StartIndex {
    } else {
      InsertStableMembers(sorted[..|sorted| - 1], s);
      assert sorted == sorted[..|sorted| - 1] + [sorted[|sorted| - 1]];
    }
  }

  lemma {:induction false} InsertStableSorted(sorted: seq<Sentence>, s: Sentence)
    requires SortedByStart(sorted)
    ensures SortedByStart(InsertStable(sorted, s))
  {
    if sorted == [] || sorted[|sorted| - 1].StartIndex <= s.StartIndex {
    } else {
      var front, last := sorted[..|sorted| - 1], sorted[|sorted| - 1];
      InsertStableSorted(front, s);
      var r := InsertStable(front, s);
      forall i | 0 <= i < |r| ensures r[i].StartIndex <= last.StartIndex {
        InsertStableMembers(front, s);
        assert r[i] in multiset(r);
      }
    }
  }

  lemma {:induction false} SortStableFacts(list: seq<Sentence>)
    ensures SortedByStart(SortStable(list))
    ensures multiset(SortStable(list)) == multiset(list)
  {
    if list != [] {
      SortStableFacts(list[..|list| - 1]);
      InsertStableSorted(SortStable(list[..|list| - 1]), list[|list| - 1]);
      InsertStableMembers(SortStable(list[..|list| - 1]), list[|list| - 1]);
      assert list == list[..|list| - 1] + [list[|list| - 1]];
    }
  }

  /** Kept sentences follow one another without overlap. */
  predicate InTurn(kept: seq<Sentence>) {
    forall i, j | 0 <= i < j < |kept| :: kept[i].EndIndex < kept[j].StartIndex
  }

  predicate Overlap(a: Sentence, b: Sentence) {
    a.StartIndex <= b.EndIndex && b.StartIndex <= a.EndIndex
  }

  lemma {:induction false} DedupSubset(list: seq<Sentence>, s: Sentence)
    requires s in Dedup(list)
    ensures s in list
  {
    if s in Dedup(list[..|list| - 1]) {
      DedupSubset(list[..|list| - 1], s);
    }
  }

  lemma {:induction false} DedupInTurn(list: seq<Sentence>)
    requires forall s | s in list :: s.StartIndex <= s.EndIndex
    ensures InTurn(Dedup(list)) && forall s | s in Dedup(list) :: s.EndIndex <= LastEnd(Dedup(list))
  {
    if list != [] {
      var front, last := list[..|list| - 1], list[|list| - 1];
      assert list == front + [last];
      DedupInTurn(front);
      assert last in list;
      var r := Dedup(front);
      forall i | 0 <= i < |r| ensures r[i].EndIndex <= LastEnd(r) {
        assert r[i] in r;
      }
    }
  }

  /** The last survivor is what a dropped sentence overlaps. */
  lemma DropsForOverlap(list: seq<Sentence>)
    requires SortedByStart(list) && list != [] && forall x | x in list :: 0 <= x.StartIndex <= x.EndIndex
    requires var r := Dedup(list[..|list| - 1]); r != [] && list[|list| - 1].StartIndex <= LastEnd(r)
    ensures var x := Dedup(list[..|list| - 1])[|Dedup(list[..|list| - 1])| - 1]; var last := list[|list| - 1];
      Overlap(x, last) && x.StartIndex <= last.StartIndex
  {
    hide Dedup;
    var front, last := list[..|list| - 1], list[|list| - 1];
    var x := Dedup(front)[|Dedup(front)| - 1];
    DedupSubset(front, x);
    var m :| 0 <= m < |front| && front[m] == x;
    assert list[m] == x && last in list;
  }

  lemma {:induction false} DedupKeepsOrOverlaps(list: seq<Sentence>, s: Sentence)
    requires SortedByStart(list) && s in list && forall x | x in list :: 0 <= x.StartIndex <= x.EndIndex
    ensures s !in Dedup(list) ==> exists x | x in Dedup(list) :: Overlap(x, s) && x.StartIndex <= s.StartIndex
  {
    hide Overlap;
    var front, last := list[..|list| - 1], list[|list| - 1];
    var r := Dedup(front);
    var i :| 0 <= i < |list| && list[i] == s;
    if i < |front| {
      assert front[i] == s;
      DedupKeepsOrOverlaps(front, s);
    } else if r != [] && last.StartIndex <= LastEnd(r) {
      DropsForOverlap(list);
      assert r[|r| - 1] in Dedup(list);
    }
  }

  /** The page's sentences: usable, in source order, apart; a usable sentence is dropped only for one that starts
      no later and overlaps it. */
  lemma OrderedSentencesMean(u: Unicode, p: Payload)
    ensures var kept := OrderedSentences(u, p);
      && InTurn(kept)
      && (forall s | s in kept :: s in p.Sentences && Usable(u, p, s))
      && (forall s | s in p.Sentences && Usable(u, p, s) && s !in kept ::
            exists x | x in kept :: Overlap(x, s) && x.StartIndex <= s.StartIndex)
  {
    hide TrimSpace, UsableOf, SortStable, Dedup, InTurn, SortedByStart, Overlap, LastEnd;
    var list := UsableOf(u, p, p.Sentences);
    SortStableFacts(list);
    forall s ensures s in SortStable(list) <==> s in p.Sentences && Usable(u, p, s) {
      UsableMembers(u, p, p.Sentences, s);
      assert s in multiset(SortStable(list)) <==> s in multiset(list);
    }
    DedupInTurn(SortStable(list));
    forall s | s in OrderedSentences(u, p) ensures s in p.Sentences && Usable(u, p, s) {
      DedupSubset(SortStable(list), s);
    }
    forall s | s in p.Sentences && Usable(u, p, s) && s !in OrderedSentences(u, p)
      ensures exists x | x in OrderedSentences(u, p) :: Overlap(x, s) && x.StartIndex <= s.StartIndex
    {
      DedupKeepsOrOverlaps(SortStable(list), s);
    }
  }

  // ---------------------------------------------------------------- the builder

  /** What Blocks asks of its builder. */
  datatype Event = Put(text: seq<Piece>, translated: bool) | Break

  datatype Sheet = Sheet(out: seq<Block>, cur: seq<PageSegment>)

  function Play1(u: Unicode, b: Sheet, e: Event): Sheet {
    match e
    case Put(text, translated) =>
      var text := TrimSpace(u, text);
      if text == [] then b else b.(cur := b.cur + [PageSegment(text, translated)])
    case Break => if b.cur == [] then b else Sheet(b.out + [Block(b.cur)], [])
  }

  function Play(u: Unicode, b: Sheet, events: seq<Event>): Sheet {
    if events == [] then b else Play1(u, Play(u, b, events[..|events| - 1]), events[|events| - 1])
  }

  function Finished(u: Unicode, events: seq<Event>): seq<Block> {
    Play(u, Sheet([], []), events + [Break]).out
  }

  function GapEvents(parts: seq<seq<Piece>>): seq<Event> {
    if parts == [] then []
    else if |parts| == 1 then [Put(parts[0], false)]
    else GapEvents(parts[..|parts| - 1]) + [Break, Put(parts[|parts| - 1], false)]
  }

  lemma {:induction false} PlayConcat(u: Unicode, b: Sheet, x: seq<Event>, y: seq<Event>)
    ensures Play(u, b, x + y) == Play(u, Play(u, b, x), y)
  {
    if y == [] {
      assert x + y == x;
    } else {
      assert (x + y)[..|x + y| - 1] == x + y[..|y| - 1];
      PlayConcat(u, b, x, y[..|y| - 1]);
    }
  }

  lemma PlayOne(u: Unicode, b: Sheet, e: Event)
    ensures Play(u, b, [e]) == Play1(u, b, e)
  {
    assert [e][..0] == [];
  }

  class Builder {
    var out: seq<Block>
    var cur: seq<PageSegment>

    ghost function Value(): Sheet
      reads this
    {
      Sheet(out, cur)
    }

    constructor ()
      ensures Value() == Sheet([], [])
    {
      out, cur := [], [];
    }

    method Add(u: Unicode, text: seq<Piece>, translated: bool)
      modifies this
      ensures Value() == Play1(u, old(Value()), Put(text, translated))
    {
      var text := TrimSpace(u, text);
      if text == [] {
        return;
      }
      cur := cur + [PageSegment(text, translated)];
    }

    method Br(u: Unicode)
      modifies this
      ensures Value() == Play1(u, old(Value()), Break)
    {
      if |cur| == 0 {
        return;
      }
      out := out + [Block(cur)];
      cur := [];
    }

    method Gap(u: Unicode, raw: seq<Piece>)
      modifies this
      ensures Value() == Play(u, old(Value()), GapEvents(Paragraphs(raw)))
    {
      hide TrimSpace, Paragraphs, Play1, Play;
      var parts := Paragraphs(raw);
      ghost var start := Value();
      Rest(u, start);
      for i := 0 to |parts|
        invariant Value() == Play(u, start, GapEvents(parts[..i]))
      {
        GapNext(u, start, parts, i);
        if i > 0 {
          Br(u);
        }
        Add(u, parts[i], false);
      }
      assert parts[..|parts|] == parts;
    }

    lemma Rest(u: Unicode, b: Sheet)
      ensures Play(u, b, GapEvents([])) == b
    {
    }

    lemma GapNext(u: Unicode, b: Sheet, parts: seq<seq<Piece>>, i: nat)
      requires i < |parts|
      ensures parts[..0] == []
      ensures var before := Play(u, b, GapEvents(parts[..i]));
        Play(u, b, GapEvents(parts[..i + 1])) ==
          Play1(u, if i > 0 then Play1(u, before, Break) else before, Put(parts[i], false))
    {
      hide Play1;
      assert parts[..i + 1][..i] == parts[..i];
      if i > 0 {
        PlayConcat(u, b, GapEvents(parts[..i]), [Break, Put(parts[i], false)]);
        assert [Break, Put(parts[i], false)] == [Break] + [Put(parts[i], false)];
        PlayConcat(u, Play(u, b, GapEvents(parts[..i])), [Break], [Put(parts[i], false)]);
        PlayOne(u, Play(u, b, GapEvents(parts[..i])), Break);
        PlayOne(u, Play1(u, Play(u, b, GapEvents(parts[..i])), Break), Put(parts[i], false));
      } else {
        PlayOne(u, b, Put(parts[0], false));
      }
    }

    method Done(u: Unicode) returns (blocks: seq<Block>)
      modifies this
      ensures Value() == Play1(u, old(Value()), Break) && blocks == Value().out
    {
      Br(u);
      blocks := out;
    }
  }

  // ---------------------------------------------------------------- Blocks

  /** Where a kept sentence starts in the text, and where it ends with the punctuation it absorbs. */
  function StartOf(p: Payload, s: Sentence): nat
    requires 0 <= s.StartIndex < |p.Tokens|
  {
    At(p.OriginalText, p.Tokens[s.StartIndex].Start)
  }

  function EndOf(p: Payload, s: Sentence): nat
    requires 0 <= s.EndIndex < |p.Tokens|
  {
    Absorbed(p.OriginalText, At(p.OriginalText, p.Tokens[s.EndIndex].End))
  }

  predicate InRange(p: Payload, kept: seq<Sentence>) {
    forall k | 0 <= k < |kept| :: 0 <= kept[k].StartIndex <= kept[k].EndIndex < |p.Tokens|
  }

  /** How far the page has got in the text. */
  function CursorAfter(p: Payload, kept: seq<Sentence>): nat
    requires InRange(p, kept)
  {
    if kept == [] then 0 else EndOf(p, kept[|kept| - 1])
  }

  ghost predicate Laid(p: Payload, kept: seq<Sentence>)
    requires InRange(p, kept)
  {
    CursorAfter(p, kept) <= |p.OriginalText| &&
    forall k | 0 <= k < |kept| ::
      CursorAfter(p, kept[..k]) <= StartOf(p, kept[k]) < EndOf(p, kept[k]) <= |p.OriginalText|
  }

  lemma AbsorbStops(t: seq<Piece>, k: nat, m: nat)
    requires k <= m < |t| && !Closing(t[m])
    ensures Absorbed(t, k) <= m
  {
  }

  /** A sentence, with what it absorbs, ends before the next one starts: the skip of Blocks is never taken. */
  lemma KeptAreLaid(u: Unicode, p: Payload, kept: seq<Sentence>)
    requires Typographic(u) && T.IsTokenization(u, p.OriginalText, p.Tokens) && InRange(p, kept) && InTurn(kept)
    ensures Laid(p, kept)
  {
    hide T.IsTokenization, Off, At, Absorbed, Closing;
    var t := p.OriginalText;
    forall k | 0 <= k < |kept|
      ensures CursorAfter(p, kept[..k]) <= StartOf(p, kept[k]) < EndOf(p, kept[k]) <= |t|
    {
      var a := T.TokenRange(u, t, p.Tokens, kept[k].StartIndex);
      var b := T.TokenRange(u, t, p.Tokens, kept[k].EndIndex);
      AtOff(t, a.first);
      AtOff(t, b.last + 1);
      TokenOrder(u, p, kept[k].StartIndex, kept[k].EndIndex, a, b);
      if k > 0 {
        var c := T.TokenRange(u, t, p.Tokens, kept[k - 1].EndIndex);
        AtOff(t, c.last + 1);
        TokenOrder(u, p, kept[k - 1].EndIndex, kept[k].StartIndex, c, a);
        WordNotClosing(u, t[a.first]);
        AbsorbStops(t, c.last + 1, a.first);
        assert kept[..k][|kept[..k]| - 1] == kept[k - 1];
      }
    }
  }

  lemma WordNotClosing(u: Unicode, p: Piece)
    requires Typographic(u) && T.Word(u, p)
    ensures !Closing(p)
  {
  }

  lemma TokenOrder(u: Unicode, p: Payload, i: nat, j: nat, a: T.Range, b: T.Range)
    requires T.IsTokenization(u, p.OriginalText, p.Tokens) && i <= j < |p.Tokens|
    requires a.first <= a.last < |p.OriginalText| && b.first <= b.last < |p.OriginalText|
    requires p.Tokens[i].Start == Off(p.OriginalText, a.first) && p.Tokens[i].End == Off(p.OriginalText, a.last + 1)
    requires p.Tokens[j].Start == Off(p.OriginalText, b.first) && p.Tokens[j].End == Off(p.OriginalText, b.last + 1)
    ensures i < j ==> a.last + 1 <= b.first
    ensures a.first <= b.last
  {
    hide T.IsTokenization, Off;
    T.TokensOrdered(u, p.OriginalText, p.Tokens);
    if i < j && b.first <= a.last + 1 { OffMono(p.OriginalText, b.first, a.last + 1); }
    if b.last + 1 <= a.first { OffMono(p.OriginalText, b.last + 1, a.first); }
  }

  lemma OffMono(t: seq<Piece>, i: nat, j: nat)
    requires i <= j <= |t|
    ensures Off(t, i) <= Off(t, j)
  {
    if i < j { OffMonotone(t, i, j); }
  }

  /** What Blocks asks for the first sentences: the gap before each, then its translation. */
  function Plan(p: Payload, kept: seq<Sentence>): seq<Event>
    requires InRange(p, kept)
  {
    if kept == [] then []
    else
      var front, s := kept[..|kept| - 1], kept[|kept| - 1];
      Plan(p, front) + GapPlan(p, CursorAfter(p, front), StartOf(p, s)) + [Put(Lift(s.Translation), true)]
  }

  function GapPlan(p: Payload, a: nat, b: nat): seq<Event> {
    if a < b <= |p.OriginalText| then GapEvents(Paragraphs(p.OriginalText[a..b])) else []
  }

  function WholePlan(p: Payload, kept: seq<Sentence>): seq<Event>
    requires InRange(p, kept)
  {
    Plan(p, kept) + GapPlan(p, CursorAfter(p, kept), |p.OriginalText|)
  }

  lemma KeptInRange(u: Unicode, p: Payload)
    ensures InRange(p, OrderedSentences(u, p)) && InTurn(OrderedSentences(u, p))
  {
    hide OrderedSentences, TrimSpace;
    OrderedSentencesMean(u, p);
    var kept := OrderedSentences(u, p);
    assert forall k | 0 <= k < |kept| :: kept[k] in kept;
  }

  lemma OffOrder(t: seq<Piece>, a: nat, b: nat)
    requires a <= b <= |t|
    ensures Off(t, a) <= Off(t, b) && (a < b <==> Off(t, a) < Off(t, b))
  {
    OffMono(t, a, b);
    if a < b { OffMonotone(t, a, b); }
  }

  lemma TokenAtPieces(u: Unicode, p: Payload, s: Sentence)
    requires T.IsTokenization(u, p.OriginalText, p.Tokens) && 0 <= s.StartIndex <= s.EndIndex < |p.Tokens|
    ensures p.Tokens[s.StartIndex].Start == Off(p.OriginalText, StartOf(p, s))
    ensures p.Tokens[s.EndIndex].End == Off(p.OriginalText, At(p.OriginalText, p.Tokens[s.EndIndex].End))
  {
    hide T.IsTokenization, Off, At;
    var a := T.TokenRange(u, p.OriginalText, p.Tokens, s.StartIndex);
    var b := T.TokenRange(u, p.OriginalText, p.Tokens, s.EndIndex);
    AtOff(p.OriginalText, a.first);
    AtOff(p.OriginalText, b.last + 1);
  }

  lemma StartPlan(u: Unicode, p: Payload, kept: seq<Sentence>)
    ensures kept[..0] == [] && Off(p.OriginalText, 0) == 0
    ensures Play(u, Sheet([], []), Plan(p, [])) == Sheet([], [])
  {
  }

  lemma InRangePrefix(p: Payload, kept: seq<Sentence>, k: nat)
    requires InRange(p, kept) && k <= |kept|
    ensures InRange(p, kept[..k])
  {
  }

  lemma PlanNext(u: Unicode, p: Payload, kept: seq<Sentence>, k: nat)
    requires InRange(p, kept) && k < |kept| && InRange(p, kept[..k]) && InRange(p, kept[..k + 1])
    ensures var before := Play(u, Sheet([], []), Plan(p, kept[..k]));
      Play(u, Sheet([], []), Plan(p, kept[..k + 1])) ==
        Play1(u, Play(u, before, GapPlan(p, CursorAfter(p, kept[..k]), StartOf(p, kept[k]))),
          Put(Lift(kept[k].Translation), true))
  {
    hide Play1, GapPlan, StartOf, EndOf, Lift, CursorAfter;
    var b := Sheet([], []);
    assert kept[..k + 1][..k] == kept[..k];
    var gap, one := GapPlan(p, CursorAfter(p, kept[..k]), StartOf(p, kept[k])), [Put(Lift(kept[k].Translation), true)];
    PlayConcat(u, b, Plan(p, kept[..k]) + gap, one);
    PlayConcat(u, b, Plan(p, kept[..k]), gap);
    PlayOne(u, Play(u, b, Plan(p, kept[..k]) + gap), one[0]);
  }

  lemma PlanEnd(u: Unicode, p: Payload, kept: seq<Sentence>)
    requires InRange(p, kept)
    ensures var before := Play(u, Sheet([], []), Plan(p, kept));
      Finished(u, WholePlan(p, kept)) ==
        Play1(u, Play(u, before, GapPlan(p, CursorAfter(p, kept), |p.OriginalText|)), Break).out
  {
    hide Play1, GapPlan, Plan, CursorAfter;
    var b := Sheet([], []);
    PlayConcat(u, b, WholePlan(p, kept), [Break]);
    PlayConcat(u, b, Plan(p, kept), GapPlan(p, CursorAfter(p, kept), |p.OriginalText|));
    PlayOne(u, Play(u, b, WholePlan(p, kept)), Break);
  }

  /** A gap plan is empty or the paragraphs of the gap, in byte offsets. */
  lemma GapByOffsets(u: Unicode, b: Sheet, p: Payload, a: nat, e: nat)
    requires a <= e <= |p.OriginalText|
    ensures Off(p.OriginalText, a) <= Off(p.OriginalText, e)
    ensures Play(u, b, GapPlan(p, a, e)) ==
      if Off(p.OriginalText, a) < Off(p.OriginalText, e)
      then Play(u, b, GapEvents(Paragraphs(Cut(p.OriginalText, Off(p.OriginalText, a), Off(p.OriginalText, e)))))
      else b
  {
    hide Off, Cut, GapEvents, Paragraphs, Play1;
    OffOrder(p.OriginalText, a, e);
    CutAt(p.OriginalText, a, e);
  }

  method Blocks(u: Unicode, p: Payload) returns (blocks: seq<Block>)
    requires Typographic(u) && T.IsTokenization(u, p.OriginalText, p.Tokens)
    ensures InRange(p, OrderedSentences(u, p)) && Laid(p, OrderedSentences(u, p))
    ensures blocks == Finished(u, WholePlan(p, OrderedSentences(u, p)))
  {
    hide OrderedSentences, T.IsTokenization, Play, Play1, Off, At, Cut, GapEvents, Paragraphs, Typographic, Plan,
      WholePlan, Finished;
    hide StartOf, EndOf, InTurn, CursorAfter, GapPlan, InRange, Laid, Absorbed;
    var t := p.OriginalText;
    var kept := OrderSentences(u, p);
    KeptInRange(u, p);
    KeptAreLaid(u, p, kept);
    var b := new Builder();
    var cursor := 0;
    ghost var empty := Sheet([], []);
    StartPlan(u, p, kept);
    CursorAtStart(p);
    InRangePrefix(p, kept, 0);
    for k := 0 to |kept|
      invariant fresh(b) && InRange(p, kept[..k]) && CursorAfter(p, kept[..k]) <= |t|
      invariant b.Value() == Play(u, empty, Plan(p, kept[..k])) && cursor == Off(t, CursorAfter(p, kept[..k]))
    {
      var s := kept[k];
      KeptAt(p, kept, k);
      InRangePrefix(p, kept, k + 1);
      ghost var c, i := CursorAfter(p, kept[..k]), StartOf(p, s);
      TokenAtPieces(u, p, s);
      var start := p.Tokens[s.StartIndex].Start;
      var end := AbsorbTrailingPunct(t, p.Tokens[s.EndIndex].End, At(t, p.Tokens[s.EndIndex].End));
      EndByOffset(p, s);
      // the source skips a sentence that ends by the cursor: there is none
      OffOrder(t, i, EndOf(p, s));
      GapByOffsets(u, b.Value(), p, c, i);
      assert end > cursor;
      PlanNext(u, p, kept, k);
      if start > cursor {
        b.Gap(u, Cut(t, cursor, start));
      }
      b.Add(u, Lift(s.Translation), true);
      CursorNext(p, kept, k);
      cursor := end;
    }
    assert kept[..|kept|] == kept;
    CursorInText(p, kept);
    GapByOffsets(u, b.Value(), p, CursorAfter(p, kept), |t|);
    PlanEnd(u, p, kept);
    if cursor < Off(t, |t|) {
      b.Gap(u, Cut(t, cursor, Off(t, |t|)));
    }
    blocks := b.Done(u);
  }

  lemma KeptAt(p: Payload, kept: seq<Sentence>, k: nat)
    requires InRange(p, kept) && Laid(p, kept) && k < |kept|
    ensures 0 <= kept[k].StartIndex <= kept[k].EndIndex < |p.Tokens| && InRange(p, kept[..k])
    ensures CursorAfter(p, kept[..k]) <= StartOf(p, kept[k]) < EndOf(p, kept[k]) <= |p.OriginalText|
  {
  }

  lemma EndByOffset(p: Payload, s: Sentence)
    requires 0 <= s.EndIndex < |p.Tokens|
    ensures EndOf(p, s) == Absorbed(p.OriginalText, At(p.OriginalText, p.Tokens[s.EndIndex].End))
  {
  }

  lemma CursorInText(p: Payload, kept: seq<Sentence>)
    requires InRange(p, kept) && Laid(p, kept)
    ensures CursorAfter(p, kept) <= |p.OriginalText|
  {
  }

  lemma CursorAtStart(p: Payload)
    ensures CursorAfter(p, []) == 0
  {
  }

  lemma CursorNext(p: Payload, kept: seq<Sentence>, k: nat)
    requires InRange(p, kept) && k < |kept|
    ensures CursorAfter(p, kept[..k + 1]) == EndOf(p, kept[k])
  {
  }

  // ---------------------------------------------------------------- the page loses nothing

  /** What a reader sees, in order: a translation, or a piece of the source that is not white space. */
  datatype Mark = Said(text: seq<Piece>) | Shown(piece: Piece)

  function ShownMarks(ink: seq<Piece>): seq<Mark> {
    seq(|ink|, i requires 0 <= i < |ink| => Shown(ink[i]))
  }

  function SegmentMarks(u: Unicode, s: PageSegment): seq<Mark> {
    if s.Translated then [Said(s.Text)] else ShownMarks(Ink(u, s.Text))
  }

  function LineMarks(u: Unicode, segs: seq<PageSegment>): seq<Mark> {
    if segs == [] then [] else LineMarks(u, segs[..|segs| - 1]) + SegmentMarks(u, segs[|segs| - 1])
  }

  function PageMarks(u: Unicode, blocks: seq<Block>): seq<Mark> {
    if blocks == [] then [] else PageMarks(u, blocks[..|blocks| - 1]) + LineMarks(u, blocks[|blocks| - 1].Segments)
  }

  function EventMarks(u: Unicode, e: Event): seq<Mark> {
    match e
    case Put(text, translated) =>
      if !translated then ShownMarks(Ink(u, text))
      else if TrimSpace(u, text) == [] then []
      else [Said(TrimSpace(u, text))]
    case Break => []
  }

  function EventsMarks(u: Unicode, events: seq<Event>): seq<Mark> {
    if events == [] then [] else EventsMarks(u, events[..|events| - 1]) + EventMarks(u, events[|events| - 1])
  }

  function SheetMarks(u: Unicode, b: Sheet): seq<Mark> {
    PageMarks(u, b.out) + LineMarks(u, b.cur)
  }

  /** No empty block, no empty segment. */
  predicate Full(blocks: seq<Block>) {
    forall b | b in blocks :: b.Segments != [] && forall s | s in b.Segments :: s.Text != []
  }

  predicate FullSheet(b: Sheet) {
    Full(b.out) && forall s | s in b.cur :: s.Text != []
  }

  lemma LineSnoc(u: Unicode, segs: seq<PageSegment>, s: PageSegment)
    ensures LineMarks(u, segs + [s]) == LineMarks(u, segs) + SegmentMarks(u, s)
  {
    assert (segs + [s])[..|segs|] == segs;
  }

  lemma PageSnoc(u: Unicode, blocks: seq<Block>, b: Block)
    ensures PageMarks(u, blocks + [b]) == PageMarks(u, blocks) + LineMarks(u, b.Segments)
  {
    assert (blocks + [b])[..|blocks|] == blocks;
  }

  lemma Play1Marks(u: Unicode, b: Sheet, e: Event)
    requires FullSheet(b)
    ensures FullSheet(Play1(u, b, e))
    ensures SheetMarks(u, Play1(u, b, e)) == SheetMarks(u, b) + EventMarks(u, e)
  {
    hide Ink, PageMarks, LineMarks, TrimSpace;
    LineNone(u);
    match e
    case Put(text, translated) =>
      TrimInk(u, text);
      InkNone(u);
      LineSnoc(u, b.cur, PageSegment(TrimSpace(u, text), translated));
    case Break => PageSnoc(u, b.out, Block(b.cur));
  }

  lemma LineNone(u: Unicode)
    ensures LineMarks(u, []) == []
  {
  }

  lemma InkNone(u: Unicode)
    ensures Ink(u, []) == []
  {
  }

  lemma {:induction false} PlayMarks(u: Unicode, b: Sheet, events: seq<Event>)
    requires FullSheet(b)
    ensures FullSheet(Play(u, b, events))
    ensures SheetMarks(u, Play(u, b, events)) == SheetMarks(u, b) + EventsMarks(u, events)
  {
    hide Play1, SheetMarks, EventMarks, FullSheet;
    if events != [] {
      PlayMarks(u, b, events[..|events| - 1]);
      Play1Marks(u, Play(u, b, events[..|events| - 1]), events[|events| - 1]);
    }
  }

  lemma {:induction false} EventsConcat(u: Unicode, x: seq<Event>, y: seq<Event>)
    ensures EventsMarks(u, x + y) == EventsMarks(u, x) + EventsMarks(u, y)
  {
    hide EventMarks;
    if y == [] {
      assert x + y == x;
    } else {
      assert (x + y)[..|x + y| - 1] == x + y[..|y| - 1];
      EventsConcat(u, x, y[..|y| - 1]);
    }
  }

  lemma EventsOne(u: Unicode, e: Event)
    ensures EventsMarks(u, [e]) == EventMarks(u, e)
  {
    assert [e][..0] == [];
  }

  lemma {:induction false} InkAllSnoc(u: Unicode, parts: seq<seq<Piece>>, part: seq<Piece>)
    ensures InkAll(u, parts + [part]) == InkAll(u, parts) + Ink(u, part)
  {
    hide Ink;
    if parts == [] {
      assert ([] + [part])[1..] == [];
    } else {
      assert (parts + [part])[1..] == parts[1..] + [part];
      InkAllSnoc(u, parts[1..], part);
    }
  }

  lemma {:induction false} GapMarks(u: Unicode, parts: seq<seq<Piece>>)
    ensures EventsMarks(u, GapEvents(parts)) == ShownMarks(InkAll(u, parts))
  {
    hide Ink;
    if |parts| == 1 {
      EventsOne(u, Put(parts[0], false));
      assert parts[1..] == [];
    } else if |parts| > 1 {
      var front, last := parts[..|parts| - 1], parts[|parts| - 1];
      assert parts == front + [last];
      GapMarks(u, front);
      InkAllSnoc(u, front, last);
      EventsConcat(u, GapEvents(front), [Break, Put(last, false)]);
      PartMarks(u, last);
      ShownConcat(InkAll(u, front), Ink(u, last));
      hide EventsMarks, InkAll, ShownMarks;
    }
  }

  lemma PartMarks(u: Unicode, part: seq<Piece>)
    ensures EventsMarks(u, [Break, Put(part, false)]) == ShownMarks(Ink(u, part))
  {
    hide Ink, EventsMarks;
    assert [Break, Put(part, false)] == [Break] + [Put(part, false)];
    EventsConcat(u, [Break], [Put(part, false)]);
    EventsOne(u, Break);
    EventsOne(u, Put(part, false));
  }

  lemma ShownConcat(a: seq<Piece>, b: seq<Piece>)
    ensures ShownMarks(a + b) == ShownMarks(a) + ShownMarks(b)
  {
  }

  /** The source text a gap carries over. */
  function GapText(p: Payload, a: nat, b: nat): seq<Piece> {
    if a <= b <= |p.OriginalText| then p.OriginalText[a..b] else []
  }

  lemma GapPlanMarks(u: Unicode, p: Payload, a: nat, b: nat)
    requires Typographic(u)
    ensures EventsMarks(u, GapPlan(p, a, b)) == ShownMarks(Ink(u, GapText(p, a, b)))
  {
    hide Ink, InkAll, Paragraphs, GapEvents;
    InkNone(u);
    if a < b <= |p.OriginalText| {
      GapMarks(u, Paragraphs(p.OriginalText[a..b]));
      ParagraphsInk(u, p.OriginalText[a..b]);
    } else {
      assert GapText(p, a, b) == [];
    }
  }

  /** What the page should show for the first sentences: the ink of the gap before each, then its translation. */
  function Expected(u: Unicode, p: Payload, kept: seq<Sentence>): seq<Mark>
    requires InRange(p, kept)
  {
    if kept == [] then []
    else
      var front, s := kept[..|kept| - 1], kept[|kept| - 1];
      Expected(u, p, front) + ShownMarks(Ink(u, GapText(p, CursorAfter(p, front), StartOf(p, s)))) +
      [Said(TrimSpace(u, Lift(s.Translation)))]
  }

  lemma {:induction false} PlanMarks(u: Unicode, p: Payload, kept: seq<Sentence>)
    requires Typographic(u) && InRange(p, kept) && forall s | s in kept :: Usable(u, p, s)
    ensures EventsMarks(u, Plan(p, kept)) == Expected(u, p, kept)
  {
    hide Ink, TrimSpace, GapPlan, StartOf, EndOf, Lift, GapText, CursorAfter;
    if kept != [] {
      var front, s := kept[..|kept| - 1], kept[|kept| - 1];
      PlanMarks(u, p, front);
      var gap, one := GapPlan(p, CursorAfter(p, front), StartOf(p, s)), Put(Lift(s.Translation), true);
      EventsConcat(u, Plan(p, front) + gap, [one]);
      EventsConcat(u, Plan(p, front), gap);
      EventsOne(u, one);
      GapPlanMarks(u, p, CursorAfter(p, front), StartOf(p, s));
      assert s in kept;
    }
  }

  /** The page shows, in source order, one translated segment per kept sentence and all the ink of the gaps;
      no block and no segment is empty. */
  lemma PageConserves(u: Unicode, p: Payload)
    requires Typographic(u) && InRange(p, OrderedSentences(u, p))
    ensures var kept := OrderedSentences(u, p); var blocks := Finished(u, WholePlan(p, kept));
      && Full(blocks)
      && PageMarks(u, blocks) == Expected(u, p, kept) +
           ShownMarks(Ink(u, GapText(p, CursorAfter(p, kept), |p.OriginalText|)))
  {
    hide Ink, TrimSpace, GapPlan, GapText, CursorAfter, Plan, Expected, OrderedSentences, PageMarks, Play, EventMarks,
      ShownMarks;
    hide InRange;
    var kept := OrderedSentences(u, p);
    OrderedSentencesMean(u, p);
    var events := WholePlan(p, kept) + [Break];
    PlayMarks(u, Sheet([], []), events);
    EventsConcat(u, WholePlan(p, kept), [Break]);
    EventsConcat(u, Plan(p, kept), GapPlan(p, CursorAfter(p, kept), |p.OriginalText|));
    EventsOne(u, Break);
    PlanMarks(u, p, kept);
    GapPlanMarks(u, p, CursorAfter(p, kept), |p.OriginalText|);
    BlankSheet(u);
    LastBreak(u, WholePlan(p, kept));
  }

  lemma BlankSheet(u: Unicode)
    ensures SheetMarks(u, Sheet([], [])) == [] && EventMarks(u, Break) == []
  {
  }

  lemma LastBreak(u: Unicode, events: seq<Event>)
    ensures var b := Play(u, Sheet([], []), events + [Break]); b.cur == [] && SheetMarks(u, b) == PageMarks(u, b.out)
  {
    hide PageMarks;
    PlayConcat(u, Sheet([], []), events, [Break]);
    PlayOne(u, Play(u, Sheet([], []), events), Break);
    LineNone(u);
  }

  /** Gaps and spans put back together. */
  function Tiled(p: Payload, kept: seq<Sentence>): seq<Piece>
    requires InRange(p, kept)
  {
    if kept == [] then []
    else
      var front, s := kept[..|kept| - 1], kept[|kept| - 1];
      Tiled(p, front) + GapText(p, CursorAfter(p, front), StartOf(p, s)) + GapText(p, StartOf(p, s), EndOf(p, s))
  }

  lemma {:induction false} TiledPrefix(p: Payload, kept: seq<Sentence>)
    requires InRange(p, kept) && Laid(p, kept)
    ensures CursorAfter(p, kept) <= |p.OriginalText| && Tiled(p, kept) == p.OriginalText[..CursorAfter(p, kept)]
  {
    CursorInText(p, kept);
    if kept != [] {
      hide StartOf, EndOf, Laid, InRange;
      LaidFront(p, kept);
      var front, s := kept[..|kept| - 1], kept[|kept| - 1];
      TiledPrefix(p, front);
      Glue(p.OriginalText, CursorAfter(p, front), StartOf(p, s), EndOf(p, s));
      hide CursorAfter;
    }
  }

  /** The kept spans, with the punctuation they absorb, and the gaps partition the text. */
  lemma SpansAndGapsPartition(p: Payload, kept: seq<Sentence>)
    requires InRange(p, kept) && Laid(p, kept)
    ensures Tiled(p, kept) + GapText(p, CursorAfter(p, kept), |p.OriginalText|) == p.OriginalText
  {
    hide Tiled, Laid, CursorAfter, InRange;
    TiledPrefix(p, kept);
    var c := CursorAfter(p, kept);
    assert p.OriginalText[..c] + p.OriginalText[c..|p.OriginalText|] == p.OriginalText;
  }

  lemma LaidFront(p: Payload, kept: seq<Sentence>)
    requires InRange(p, kept) && Laid(p, kept) && kept != []
    ensures var front := kept[..|kept| - 1];
      InRange(p, front) && Laid(p, front) && CursorAfter(p, front) <= StartOf(p, kept[|kept| - 1])
    ensures StartOf(p, kept[|kept| - 1]) < EndOf(p, kept[|kept| - 1]) <= |p.OriginalText|
  {
    hide StartOf, EndOf;
    var front := kept[..|kept| - 1];
    forall k | 0 <= k < |front|
      ensures CursorAfter(p, front[..k]) <= StartOf(p, front[k]) < EndOf(p, front[k]) <= |p.OriginalText|
    {
      assert front[..k] == kept[..k];
    }
  }

  lemma Glue(t: seq<Piece>, a: nat, b: nat, c: nat)
    requires a <= b <= c <= |t|
    ensures t[..a] + t[a..b] + t[b..c] == t[..c]
  {
  }
}
