/** internal/publish/render.go: where the page breaks. Source text is split at its blank lines, and the blocks of the
    page are the paragraphs of source text and translations, read on from one to the next. */
module PageLayout {
  import opened Model
  import opened Text
  import opened Publish

  // ---------------------------------------------------------------- blank lines

  predicate Newline(p: Piece) {
    p == Rune('\n')
  }

  /** What a blank line may hold: spaces, tabs and carriage returns. */
  predicate Padding(p: Piece) {
    p == Rune(' ') || p == Rune('\t') || p == Rune('\r')
  }

  /** A blank line begins at i: a newline, then nothing but padding up to another. */
  predicate BlankLineAt(s: seq<Piece>, i: nat) {
    i < |s| && Newline(s[i]) &&
    exists j | i < j < |s| :: Newline(s[j]) && forall k | i < k < j :: Padding(s[k])
  }

  /** A separator: two newlines with nothing but padding in between. */
  predicate IsSep(s: seq<Piece>) {
    |s| >= 2 && Newline(s[0]) && Newline(s[|s| - 1]) && forall k | 0 < k < |s| - 1 :: Padding(s[k])
  }

  lemma {:induction false} SepEndMeans(s: seq<Piece>, k: nat)
    requires k <= |s|
    ensures var r := SepEnd(s, k);
      && (r.Some? ==> Newline(s[r.value - 1]) && forall m | k <= m < r.value - 1 :: Padding(s[m]))
      && (r.None? ==> forall j | k <= j < |s| && Newline(s[j]) :: exists m | k <= m < j :: !Padding(s[m]))
    decreases |s| - k
  {
    if k < |s| && !Newline(s[k]) && Padding(s[k]) {
      SepEndMeans(s, k + 1);
    }
  }

  lemma SepAtMeans(s: seq<Piece>, i: nat)
    requires i < |s| && Newline(s[i])
    ensures SepEnd(s, i + 1).Some? <==> BlankLineAt(s, i)
    ensures SepEnd(s, i + 1).Some? ==> IsSep(s[i..SepEnd(s, i + 1).value])
  {
    hide Newline, Padding, SepEnd;
    SepEndMeans(s, i + 1);
    var r := SepEnd(s, i + 1);
    if r.Some? {
      SepCut(s, i, r.value);
    }
  }

  lemma SepCut(s: seq<Piece>, a: nat, b: nat)
    requires a + 1 < b <= |s| && Newline(s[a]) && Newline(s[b - 1]) && forall k | a < k < b - 1 :: Padding(s[k])
    ensures IsSep(s[a..b])
  {
    hide Newline, Padding;
  }

  lemma {:induction false} FirstSepMeans(s: seq<Piece>, k: nat)
    requires k <= |s|
    ensures var r := FirstSep(s, k);
      && (r.Some? ==> IsSep(s[r.value.0..r.value.1]) && forall i | k <= i < r.value.0 :: !BlankLineAt(s, i))
      && (r.None? ==> forall i | k <= i < |s| :: !BlankLineAt(s, i))
    decreases |s| - k
  {
    hide BlankLineAt, IsSep, SepEnd;
    if k < |s| {
      if Newline(s[k]) {
        SepAtMeans(s, k);
      } else {
        NoNewline(s, k);
      }
      if !(Newline(s[k]) && SepEnd(s, k + 1).Some?) {
        FirstSepMeans(s, k + 1);
      }
    }
  }

  lemma NoNewline(s: seq<Piece>, i: nat)
    requires i < |s| && !Newline(s[i])
    ensures !BlankLineAt(s, i)
  {
  }

  lemma BlankLineInFront(s: seq<Piece>, n: nat, i: nat)
    requires n <= |s| && BlankLineAt(s[..n], i)
    ensures i < n && BlankLineAt(s, i)
  {
    var j :| i < j < n && Newline(s[..n][j]) && forall k | i < k < j :: Padding(s[..n][k]);
    assert Newline(s[j]) && forall k | i < k < j :: Padding(s[k]);
  }

  /** The parts with the separators between them. */
  function Woven(parts: seq<seq<Piece>>, seps: seq<seq<Piece>>): seq<Piece>
    requires |parts| == |seps| + 1
  {
    if seps == [] then parts[0] else parts[0] + seps[0] + Woven(parts[1..], seps[1..])
  }

  predicate NoBlankLine(s: seq<Piece>) {
    forall i | 0 <= i < |s| :: !BlankLineAt(s, i)
  }

  /** The paragraphs hold no blank line, and with a blank line between each two they are the text. */
  lemma {:induction false} ParagraphsMean(s: seq<Piece>) returns (seps: seq<seq<Piece>>)
    ensures var parts := Paragraphs(s);
      && |parts| == |seps| + 1 && (forall k | 0 <= k < |seps| :: IsSep(seps[k])) && Woven(parts, seps) == s
      && (forall k | 0 <= k < |parts| :: NoBlankLine(parts[k]))
    decreases |s|
  {
    hide BlankLineAt, IsSep, FirstSep;
    FirstSepMeans(s, 0);
    match FirstSep(s, 0)
    case None => seps := [];
    case Some(sep) =>
      var rest := ParagraphsMean(s[sep.1..]);
      seps := [s[sep.0..sep.1]] + rest;
      var tail := Paragraphs(s[sep.1..]);
      assert ([s[..sep.0]] + tail)[1..] == tail && seps[1..] == rest;
      assert s == s[..sep.0] + s[sep.0..sep.1] + s[sep.1..];
      forall i | 0 <= i < sep.0 ensures !BlankLineAt(s[..sep.0], i) {
        if BlankLineAt(s[..sep.0], i) {
          BlankLineInFront(s, sep.0, i);
        }
      }
  }

  /** A text is one paragraph exactly when it holds no blank line. */
  lemma OneParagraphIff(s: seq<Piece>)
    ensures Paragraphs(s) == [s] <==> NoBlankLine(s)
  {
    hide BlankLineAt, IsSep;
    FirstSepMeans(s, 0);
    var seps := ParagraphsMean(s);
    if FirstSep(s, 0).Some? {
      SepIsBlankLine(s, FirstSep(s, 0).value.0, FirstSep(s, 0).value.1);
    }
  }

  lemma SepIsBlankLine(s: seq<Piece>, a: nat, b: nat)
    requires a < b <= |s| && IsSep(s[a..b])
    ensures BlankLineAt(s, a)
  {
    var t := s[a..b];
    assert s[a] == t[0] && s[b - 1] == t[|t| - 1];
    forall k | a < k < b - 1 ensures Padding(s[k]) { assert s[k] == t[k - a]; }
  }

  // ---------------------------------------------------------------- the blocks of the page

  /** A text on its way to the page: what is shown, and where it is cut into paragraphs. */
  datatype Flow = Of(mark: Mark) | Cut

  function Flowed(marks: seq<Mark>): seq<Flow> {
    seq(|marks|, i requires 0 <= i < |marks| => Of(marks[i]))
  }

  /** What lies between the cuts. */
  function Lines(f: seq<Flow>): (lines: seq<seq<Mark>>)
    ensures lines != []
  {
    if f == [] then [[]]
    else
      var lines := Lines(f[..|f| - 1]);
      match f[|f| - 1]
      case Cut => lines + [[]]
      case Of(m) => lines[..|lines| - 1] + [lines[|lines| - 1] + [m]]
  }

  function NonEmpty(lines: seq<seq<Mark>>): seq<seq<Mark>> {
    if lines == [] then []
    else
      var r := NonEmpty(lines[..|lines| - 1]);
      if lines[|lines| - 1] == [] then r else r + [lines[|lines| - 1]]
  }

  /** The paragraphs of a gap, cut from one another. */
  function Cuts(u: Unicode, parts: seq<seq<Piece>>): seq<Flow> {
    if parts == [] then []
    else if |parts| == 1 then Flowed(ShownMarks(Ink(u, parts[0])))
    else Cuts(u, parts[..|parts| - 1]) + [Cut] + Flowed(ShownMarks(Ink(u, parts[|parts| - 1])))
  }

  function GapFlow(u: Unicode, text: seq<Piece>): seq<Flow> {
    if text == [] then [] else Cuts(u, Paragraphs(text))
  }

  /** The whole article: the gap before each kept sentence, cut at its blank lines, and the translation. */
  function Article(u: Unicode, p: Payload, kept: seq<Sentence>): seq<Flow>
    requires InRange(p, kept)
  {
    if kept == [] then []
    else
      var front, s := kept[..|kept| - 1], kept[|kept| - 1];
      Article(u, p, front) + GapFlow(u, GapText(p, CursorAfter(p, front), StartOf(p, s))) +
      [Of(Said(TrimSpace(u, Lift(s.Translation))))]
  }

  function BlockLines(u: Unicode, blocks: seq<Block>): seq<seq<Mark>> {
    if blocks == [] then []
    else BlockLines(u, blocks[..|blocks| - 1]) + [LineMarks(u, blocks[|blocks| - 1].Segments)]
  }

  function EventFlow(u: Unicode, e: Event): seq<Flow> {
    match e
    case Put(_, _) => Flowed(EventMarks(u, e))
    case Break => [Cut]
  }

  function EventsFlow(u: Unicode, events: seq<Event>): seq<Flow> {
    if events == [] then [] else EventsFlow(u, events[..|events| - 1]) + EventFlow(u, events[|events| - 1])
  }

  lemma {:induction false} FlowConcat(u: Unicode, x: seq<Event>, y: seq<Event>)
    ensures EventsFlow(u, x + y) == EventsFlow(u, x) + EventsFlow(u, y)
  {
    hide EventFlow;
    if y == [] {
      assert x + y == x;
    } else {
      assert (x + y)[..|x + y| - 1] == x + y[..|y| - 1];
      FlowConcat(u, x, y[..|y| - 1]);
    }
  }

  lemma FlowOne(u: Unicode, e: Event)
    ensures EventsFlow(u, [e]) == EventFlow(u, e)
  {
    assert [e][..0] == [];
  }

  lemma LinesSnoc(f: seq<Flow>, x: Flow)
    ensures Lines(f + [x]) ==
      match x
      case Cut => Lines(f) + [[]]
      case Of(m) => Lines(f)[..|Lines(f)| - 1] + [Lines(f)[|Lines(f)| - 1] + [m]]
  {
    assert (f + [x])[..|f|] == f;
  }

  /** More marks on the last line. */
  function Longer(lines: seq<seq<Mark>>, marks: seq<Mark>): seq<seq<Mark>>
    requires lines != []
  {
    lines[..|lines| - 1] + [lines[|lines| - 1] + marks]
  }

  lemma LongerTwice(lines: seq<seq<Mark>>, a: seq<Mark>, m: Mark)
    requires lines != []
    ensures Longer(Longer(lines, a), [m]) == Longer(lines, a + [m]) && Longer(lines, []) == lines
  {
    var l := lines[|lines| - 1];
    assert (l + a) + [m] == l + (a + [m]) && l + [] == l;
    assert (lines[..|lines| - 1] + [l + a])[..|lines| - 1] == lines[..|lines| - 1];
  }

  lemma FlowedSnoc(f: seq<Flow>, marks: seq<Mark>, m: Mark)
    ensures f + Flowed(marks + [m]) == (f + Flowed(marks)) + [Of(m)] && f + Flowed([]) == f
  {
    assert Flowed(marks + [m]) == Flowed(marks) + [Of(m)];
  }

  lemma {:induction false} LinesGrow(f: seq<Flow>, marks: seq<Mark>)
    ensures Lines(f + Flowed(marks)) == Longer(Lines(f), marks)
  {
    hide Lines, Longer, Flowed;
    if marks == [] {
      FlowedSnoc(f, [], Shown(BadByte));
      LongerTwice(Lines(f), [], Shown(BadByte));
    } else {
      var front, m := marks[..|marks| - 1], marks[|marks| - 1];
      LinesGrow(f, front);
      FlowedSnoc(f, front, m);
      LongerTwice(Lines(f), front, m);
      LineLonger(f + Flowed(front), m);
      assert marks == front + [m];
    }
  }

  lemma LineLonger(f: seq<Flow>, m: Mark)
    ensures Lines(f + [Of(m)]) == Longer(Lines(f), [m])
  {
    LinesSnoc(f, Of(m));
  }

  lemma NonEmptySnoc(lines: seq<seq<Mark>>, line: seq<Mark>)
    ensures NonEmpty(lines + [line]) == if line == [] then NonEmpty(lines) else NonEmpty(lines) + [line]
  {
    assert (lines + [line])[..|lines|] == lines;
  }

  lemma BlockSnoc(u: Unicode, blocks: seq<Block>, b: Block)
    ensures BlockLines(u, blocks + [b]) == BlockLines(u, blocks) + [LineMarks(u, b.Segments)]
  {
    assert (blocks + [b])[..|blocks|] == blocks;
  }

  /** The sheet has one block for each non-empty line that is finished, and the current segments are the last line. */
  ghost predicate Matches(u: Unicode, b: Sheet, f: seq<Flow>) {
    var lines := Lines(f);
    BlockLines(u, b.out) == NonEmpty(lines[..|lines| - 1]) && LineMarks(u, b.cur) == lines[|lines| - 1] &&
    (b.cur != [] ==> LineMarks(u, b.cur) != [])
  }

  /** A trimmed text that is left has ink. */
  lemma TrimmedHasInk(u: Unicode, s: seq<Piece>)
    requires TrimSpace(u, s) != []
    ensures Ink(u, s) != []
  {
    TrimLeftInk(u, s);
    var r := TrimLeft(u, s);
    InkConcat(u, [r[0]], r[1..]);
    InkOne(u, r[0]);
    assert r == [r[0]] + r[1..];
  }

  lemma PutMatches(u: Unicode, b: Sheet, f: seq<Flow>, text: seq<Piece>, translated: bool)
    requires Matches(u, b, f)
    ensures Matches(u, Play1(u, b, Put(text, translated)), f + EventFlow(u, Put(text, translated)))
  {
    hide Ink, TrimSpace, LineMarks, BlockLines, Lines, NonEmpty;
    TrimInk(u, text);
    InkNone(u);
    if TrimSpace(u, text) != [] {
      TrimmedHasInk(u, text);
    }
    LinesGrow(f, EventMarks(u, Put(text, translated)));
    LineSnoc(u, b.cur, PageSegment(TrimSpace(u, text), translated));
    assert LineMarks(u, b.cur) + [] == LineMarks(u, b.cur);
  }

  lemma BreakMatches(u: Unicode, b: Sheet, f: seq<Flow>)
    requires Matches(u, b, f)
    ensures Matches(u, Play1(u, b, Break), f + [Cut])
  {
    hide LineMarks, BlockLines, Lines, NonEmpty;
    var lines := Lines(f);
    LinesSnoc(f, Cut);
    NonEmptySnoc(lines[..|lines| - 1], lines[|lines| - 1]);
    assert lines == lines[..|lines| - 1] + [lines[|lines| - 1]];
    assert (lines + [[]])[..|lines|] == lines;
    BlockSnoc(u, b.out, Block(b.cur));
    LineNone(u);
  }

  lemma {:induction false} PlayMatches(u: Unicode, events: seq<Event>)
    ensures Matches(u, Play(u, Sheet([], []), events), EventsFlow(u, events))
  {
    hide Play1, EventFlow, Matches;
    if events == [] {
      StartMatches(u);
    } else {
      var front, e := events[..|events| - 1], events[|events| - 1];
      PlayMatches(u, front);
      match e
      case Put(text, translated) =>
        PutMatches(u, Play(u, Sheet([], []), front), EventsFlow(u, front), text, translated);
      case Break =>
        BreakMatches(u, Play(u, Sheet([], []), front), EventsFlow(u, front));
        BreakFlow(u);
    }
  }

  lemma BreakFlow(u: Unicode)
    ensures EventFlow(u, Break) == [Cut]
  {
  }

  lemma StartMatches(u: Unicode)
    ensures Matches(u, Sheet([], []), [])
  {
    assert Lines([])[..0] == [];
  }

  lemma NoFlow(u: Unicode)
    ensures EventsFlow(u, []) == []
  {
  }

  lemma BreakAndPart(u: Unicode, part: seq<Piece>)
    ensures EventsFlow(u, [Break, Put(part, false)]) == [Cut] + Flowed(ShownMarks(Ink(u, part)))
    ensures EventsFlow(u, [Put(part, false)]) == Flowed(ShownMarks(Ink(u, part)))
  {
    hide Ink, ShownMarks, Flowed, EventsFlow;
    assert [Break, Put(part, false)] == [Break] + [Put(part, false)];
    FlowConcat(u, [Break], [Put(part, false)]);
    FlowOne(u, Break);
    FlowOne(u, Put(part, false));
  }

  lemma {:induction false} GapEventsFlow(u: Unicode, parts: seq<seq<Piece>>)
    ensures EventsFlow(u, GapEvents(parts)) == Cuts(u, parts)
  {
    hide Ink, ShownMarks, Flowed, EventsFlow;
    if parts == [] {
      NoFlow(u);
    } else {
      var front, last := parts[..|parts| - 1], parts[|parts| - 1];
      BreakAndPart(u, last);
      if |parts| > 1 {
        GapEventsFlow(u, front);
        FlowConcat(u, GapEvents(front), [Break, Put(last, false)]);
        assert Cuts(u, front) + ([Cut] + Flowed(ShownMarks(Ink(u, last)))) ==
          Cuts(u, front) + [Cut] + Flowed(ShownMarks(Ink(u, last)));
      }
    }
  }

  lemma GapPlanFlow(u: Unicode, p: Payload, a: nat, b: nat)
    ensures EventsFlow(u, GapPlan(p, a, b)) == GapFlow(u, GapText(p, a, b))
  {
    hide Paragraphs, Cuts, GapEvents;
    if a < b <= |p.OriginalText| {
      GapEventsFlow(u, Paragraphs(p.OriginalText[a..b]));
    }
  }

  lemma {:induction false} PlanFlow(u: Unicode, p: Payload, kept: seq<Sentence>)
    requires InRange(p, kept) && forall s | s in kept :: Usable(u, p, s)
    ensures EventsFlow(u, Plan(p, kept)) == Article(u, p, kept)
  {
    hide Ink, TrimSpace, GapPlan, StartOf, EndOf, Lift, GapText, CursorAfter, GapFlow;
    if kept != [] {
      var front, s := kept[..|kept| - 1], kept[|kept| - 1];
      PlanFlow(u, p, front);
      var gap, one := GapPlan(p, CursorAfter(p, front), StartOf(p, s)), Put(Lift(s.Translation), true);
      FlowConcat(u, Plan(p, front) + gap, [one]);
      FlowConcat(u, Plan(p, front), gap);
      FlowOne(u, one);
      GapPlanFlow(u, p, CursorAfter(p, front), StartOf(p, s));
      assert s in kept;
    }
  }

  /** The blocks of the page are the non-empty lines of the article, cut at the blank lines of its gaps and nowhere
      else: a translation stands in one block with what precedes and follows it up to the next blank line. */
  lemma PageBreaks(u: Unicode, p: Payload)
    requires InRange(p, OrderedSentences(u, p))
    ensures var kept := OrderedSentences(u, p);
      BlockLines(u, Finished(u, WholePlan(p, kept))) ==
        NonEmpty(Lines(Article(u, p, kept) + GapFlow(u, GapText(p, CursorAfter(p, kept), |p.OriginalText|))))
  {
    hide GapPlan, GapText, CursorAfter, Plan, Article, OrderedSentences, BlockLines, Lines, NonEmpty, Play, Play1;
    hide InRange, GapFlow, Usable, LineMarks;
    var kept := OrderedSentences(u, p);
    OrderedSentencesMean(u, p);
    var events := WholePlan(p, kept);
    PlayMatches(u, events);
    PlayConcat(u, Sheet([], []), events, [Break]);
    PlayOne(u, Play(u, Sheet([], []), events), Break);
    BreakMatches(u, Play(u, Sheet([], []), events), EventsFlow(u, events));
    LinesSnoc(EventsFlow(u, events), Cut);
    var lines := Lines(EventsFlow(u, events));
    assert (lines + [[]])[..|lines|] == lines;
    FlowConcat(u, Plan(p, kept), GapPlan(p, CursorAfter(p, kept), |p.OriginalText|));
    PlanFlow(u, p, kept);
    GapPlanFlow(u, p, CursorAfter(p, kept), |p.OriginalText|);
  }

  // ---------------------------------------------------------------- punctuation that goes with a sentence

  /** Full stop, question and exclamation mark, comma, semicolon, colon, ellipsis, closing brackets and quotes. */
  predicate ClosingMark(p: Piece) {
    p.Rune? && (
      p.c == '.' || p.c == '?' || p.c == '!' || p.c == ',' || p.c == ';' || p.c == ':' || p.c == '\U{2026}' ||
      p.c == ')' || p.c == ']' || p.c == '}' || p.c == '"' || p.c == '\'' ||
      p.c == '\U{00BB}' || p.c == '\U{201D}' || p.c == '\U{2019}')
  }

  lemma ClosingMeans(p: Piece)
    ensures Closing(p) <==> ClosingMark(p)
  {
    if p.Rune? {
      var s := CLOSING_PUNCT;
      assert s == ".?!,;:" + ['\U{2026}'] + ")]}\"'" + ['\U{00BB}', '\U{201D}', '\U{2019}'];
    }
  }

  /** What is absorbed is the closing punctuation up to the first other character, all of it. */
  lemma {:induction false} AbsorbedMeans(t: seq<Piece>, k: nat)
    requires k <= |t|
    ensures var e := Absorbed(t, k);
      && k <= e <= |t| && (forall i | k <= i < e :: ClosingMark(t[i])) && (e < |t| ==> !ClosingMark(t[e]))
    decreases |t| - k
  {
    hide Closing, ClosingMark;
    if k < |t| {
      ClosingMeans(t[k]);
      if Closing(t[k]) {
        AbsorbedMeans(t, k + 1);
      }
    }
  }

  lemma {:induction false} TrimmedAway(u: Unicode, s: seq<Piece>)
    ensures TrimSpace(u, s) == [] <==> forall k | 0 <= k < |s| :: Blank(u, s[k])
  {
    if TrimSpace(u, s) != [] {
      TrimmedHasInk(u, s);
      InkIsThere(u, s);
    } else {
      TrimInk(u, s);
      InkNone(u);
      forall k | 0 <= k < |s| ensures Blank(u, s[k]) {
        if !Blank(u, s[k]) {
          InkShows(u, s, k);
        }
      }
    }
  }

  lemma {:induction false} InkIsThere(u: Unicode, s: seq<Piece>)
    requires Ink(u, s) != []
    ensures exists k | 0 <= k < |s| :: !Blank(u, s[k])
  {
    if Blank(u, s[|s| - 1]) {
      InkIsThere(u, s[..|s| - 1]);
      var k :| 0 <= k < |s| - 1 && !Blank(u, s[..|s| - 1][k]);
      assert !Blank(u, s[k]);
    }
  }

  lemma {:induction false} InkShows(u: Unicode, s: seq<Piece>, k: nat)
    requires k < |s| && !Blank(u, s[k])
    ensures Ink(u, s) != []
  {
    if k < |s| - 1 {
      InkShows(u, s[..|s| - 1], k);
    }
  }

  /** A sentence the page can use: a range of the tokens, with a translation that is not all white space. */
  lemma UsableMeans(u: Unicode, p: Payload, s: Sentence)
    ensures Usable(u, p, s) <==>
      0 <= s.StartIndex <= s.EndIndex < |p.Tokens| &&
      exists k | 0 <= k < |s.Translation| :: !u.space(s.Translation[k])
  {
    TrimmedAway(u, Lift(s.Translation));
    assert forall k | 0 <= k < |s.Translation| ::
      Blank(u, Lift(s.Translation)[k]) <==> u.space(s.Translation[k]);
  }
}
