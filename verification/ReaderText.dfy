/** frontend/src/lib/components/reader/reader-utils.ts: from byte offsets to UTF-16 indices, and the rendered text. */
module ReaderText {
  import opened Model
  import opened Text
  import T = Tokenizer

  /** A code point in UTF-16 (section 2.1 of RFC 2781). */
  function Encode16(c: char): (r: seq<int>)
    ensures |r| == 1 || |r| == 2
  {
    var cp := c as int;
    if cp < 0x10000 then [cp]
    else [0xD800 + (cp - 0x10000) / 0x400, 0xDC00 + (cp - 0x10000) % 0x400]
  }

  /** The JavaScript string: its UTF-16 code units. */
  function Units(s: string): seq<int> {
    if s == "" then [] else Units(s[..|s| - 1]) + Encode16(s[|s| - 1])
  }

  /** The characters a sequence of code units stands for (section 2.2 of RFC 2781). */
  function FromUnits(units: seq<int>): string {
    if units == [] then ""
    else
      var n := |units|;
      var last := units[n - 1];
      if n >= 2 && 0xDC00 <= last < 0xE000 && 0xD800 <= units[n - 2] < 0xDC00 then
        FromUnits(units[..n - 2]) + [(0x10000 + (units[n - 2] - 0xD800) * 0x400 + (last - 0xDC00)) as char]
      else if 0 <= last < 0xD800 || 0xE000 <= last < 0x10000 then FromUnits(units[..n - 1]) + [last as char]
      else FromUnits(units[..n - 1])
  }

  lemma NoUnits()
    ensures Units("") == [] && FromUnits([]) == ""
  {
  }

  /** No character is lost or changed in the JavaScript string. */
  lemma {:induction false} UnitsDecode(s: string)
    ensures FromUnits(Units(s)) == s
  {
    hide FromUnits, Encode16;
    if s == "" {
      NoUnits();
    } else {
      var front, c := s[..|s| - 1], s[|s| - 1];
      UnitsDecode(front);
      DecodeOne(Units(front), c);
      assert s == front + [c];
    }
  }

  lemma DecodeOne(units: seq<int>, c: char)
    ensures FromUnits(units + Encode16(c)) == FromUnits(units) + [c]
  {
    var all := units + Encode16(c);
    if |Encode16(c)| == 1 {
      assert all[..|all| - 1] == units;
    } else {
      assert all[..|all| - 2] == units;
    }
  }

  /** The bytes of a character (section 3 of RFC 3629): its bits in groups of six from the right. */
  function Encode8(c: char): seq<int> {
    var a := c as int;
    var b := a / 0x40;
    var d := b / 0x40;
    if a <= 0x7F then [a]
    else if a <= 0x7FF then [0xC0 + b, 0x80 + a % 0x40]
    else if a <= 0xFFFF then [0xE0 + d, 0x80 + b % 0x40, 0x80 + a % 0x40]
    else [0xF0 + d / 0x40, 0x80 + d % 0x40, 0x80 + b % 0x40, 0x80 + a % 0x40]
  }

  function Decode8(b: seq<int>): int
    requires 1 <= |b| <= 4
  {
    if |b| == 1 then b[0]
    else if |b| == 2 then (b[0] - 0xC0) * 0x40 + (b[1] - 0x80)
    else if |b| == 3 then ((b[0] - 0xE0) * 0x40 + (b[1] - 0x80)) * 0x40 + (b[2] - 0x80)
    else (((b[0] - 0xF0) * 0x40 + (b[1] - 0x80)) * 0x40 + (b[2] - 0x80)) * 0x40 + (b[3] - 0x80)
  }

  lemma SixBits(x: nat)
    ensures x == x / 0x40 * 0x40 + x % 0x40
  {
  }

  /** The size of a character is the number of bytes it is encoded in: the first tells how many, the others are marked
      as going on, and together they give the character back. */
  lemma Utf8LenMeans(c: char)
    ensures var b := Encode8(c);
      && 1 <= |b| <= 4 && |b| == Utf8Len(c) && Decode8(b) == c as int
      && (forall k | 1 <= k < |b| :: 0x80 <= b[k] < 0xC0)
      && (|b| == 1 <==> 0 <= b[0] < 0x80) && (|b| == 2 <==> 0xC0 <= b[0] < 0xE0)
      && (|b| == 3 <==> 0xE0 <= b[0] < 0xF0) && (|b| == 4 <==> 0xF0 <= b[0] < 0xF8)
  {
    var x := c as int;
    SixBits(x);
    SixBits(x / 0x40);
    SixBits(x / 0x40 / 0x40);
  }

  /** The string index of character k. */
  function Pos(s: string, k: nat): nat
    requires k <= |s|
  {
    |Units(s[..k])|
  }

  lemma {:induction false} UnitsConcat(a: string, b: string)
    ensures Units(a + b) == Units(a) + Units(b)
  {
    if b == "" {
      assert a + b == a;
    } else {
      assert (a + b)[..|a + b| - 1] == a + b[..|b| - 1];
      UnitsConcat(a, b[..|b| - 1]);
    }
  }

  lemma UnitsSlice(s: string, i: nat, j: nat)
    requires i <= j <= |s|
    ensures Pos(s, i) <= Pos(s, j) <= |Units(s)|
    ensures i < j ==> Pos(s, i) < Pos(s, j)
    ensures Units(s)[Pos(s, i)..Pos(s, j)] == Units(s[i..j])
  {
    hide Units;
    var x, y, z := s[..i], s[i..j], s[j..];
    assert s[..j] == x + y;
    assert s == s[..j] + z;
    UnitsConcat(x, y);
    UnitsConcat(s[..j], z);
    UnitsSome(y);
    Middle(Units(x), Units(y), Units(z));
  }

  lemma Middle(a: seq<int>, b: seq<int>, c: seq<int>)
    ensures (a + b + c)[|a|..|a + b|] == b
  {
  }

  lemma UnitsSome(s: string)
    ensures s != "" ==> Units(s) != []
  {
  }

  // ---------------------------------------------------------------- buildByteToStrMap

  /** Every byte of a character maps to the character's string index. */
  function ByteMap(s: string): seq<int> {
    if s == "" then []
    else ByteMap(s[..|s| - 1]) + seq(Utf8Len(s[|s| - 1]), _ => |Units(s[..|s| - 1])|)
  }

  method BuildByteToStrMap(text: string) returns (m: seq<int>)
    ensures m == ByteMap(text) + [|Units(text)|]
  {
    m := [];
    var s, i := 0, 0;
    while i < |text|
      invariant 0 <= i <= |text| && s == |Units(text[..i])| && m == ByteMap(text[..i])
    {
      assert text[..i + 1][..i] == text[..i];
      var cp := text[i];
      var utf16 := if cp as int > 0xffff then 2 else 1;
      var bytes := Utf8Len(cp);
      m := m + seq(bytes, _ => s);
      s := s + utf16;
      i := i + 1;
    }
    assert text[..i] == text;
    m := m + [s];
  }

  lemma LiftFront(s: string)
    requires s != ""
    ensures Lift(s)[..|s| - 1] == Lift(s[..|s| - 1])
    ensures Off(Lift(s), |s|) == Off(Lift(s[..|s| - 1]), |s| - 1) + Utf8Len(s[|s| - 1])
    ensures forall k | 0 <= k < |s| :: Off(Lift(s), k) == Off(Lift(s[..|s| - 1]), k)
  {
    assert Lift(s)[..|s| - 1] == Lift(s[..|s| - 1]);
    forall k | 0 <= k < |s| ensures Off(Lift(s), k) == Off(Lift(s[..|s| - 1]), k) {
      OffPrefix(Lift(s), |s| - 1, k);
    }
  }

  lemma {:induction false} ByteMapLength(s: string)
    ensures |ByteMap(s)| == Off(Lift(s), |s|)
  {
    if s != "" {
      LiftFront(s);
      ByteMapLength(s[..|s| - 1]);
    }
  }

  /** A character boundary in UTF-8 maps to the same boundary in UTF-16. */
  lemma {:induction false} ByteMapBoundaries(s: string, k: nat)
    requires k <= |s|
    ensures Off(Lift(s), k) < |ByteMap(s) + [|Units(s)|]|
    ensures (ByteMap(s) + [|Units(s)|])[Off(Lift(s), k)] == Pos(s, k)
  {
    hide Units, Off;
    ByteMapLength(s);
    if k == |s| {
      assert s[..k] == s;
    } else {
      var front := s[..|s| - 1];
      LiftFront(s);
      ByteMapLength(front);
      ByteMapBoundaries(front, k);
      assert front[..k] == s[..k];
      if k < |front| { OffMonotone(Lift(front), k, |front|); }
      if k == |front| { assert front[..k] == front; }
    }
  }

  /** The map never goes back. */
  lemma {:induction false} ByteMapMonotone(s: string, a: nat, b: nat)
    requires a <= b < |ByteMap(s) + [|Units(s)|]|
    ensures (ByteMap(s) + [|Units(s)|])[a] <= (ByteMap(s) + [|Units(s)|])[b] <= |Units(s)|
  {
    if s != "" {
      var front := s[..|s| - 1];
      assert |Units(front)| < |Units(s)|;
      hide Units;
      var m := ByteMap(front) + [|Units(front)|];
      ByteMapMonotone(front, if a < |m| then a else |m| - 1, if b < |m| then b else |m| - 1);
    }
  }

  // ---------------------------------------------------------------- buildRenderSegments

  /** A rendered unit; Embed is an image or a link. Gap text is kept as code units. */
  datatype Segment =
    | WordSegment(text: string, index: int)
    | GapSegment(units: seq<int>)
    | Embed(span: MarkdownSpan)

  /** A link or image found in the source, by string indices. */
  datatype MarkdownSpan = MarkdownSpan(start: int, end: int, image: bool, text: string, url: string)

  function StrIdx(text: string, byte: nat): int {
    var m := ByteMap(text) + [|Units(text)|];
    if byte < |m| then m[byte] else |Units(text)|
  }

  /** Tokens sit at increasing string ranges that hold their text. */
  predicate Placed(text: string, tokens: seq<Token>) {
    (forall k | 0 <= k < |tokens| ::
      var a, b := StrIdx(text, tokens[k].Start), StrIdx(text, tokens[k].End);
      0 <= a < b <= |Units(text)| && Units(text)[a..b] == Units(tokens[k].Text)) &&
    forall j, k | 0 <= j < k < |tokens| :: StrIdx(text, tokens[j].End) <= StrIdx(text, tokens[k].Start)
  }

  /** What a left-to-right search yields: spans inside the text, in order, apart. */
  predicate InOrder(text: string, spans: seq<MarkdownSpan>) {
    (forall k | 0 <= k < |spans| :: 0 <= spans[k].start < spans[k].end <= |Units(text)|) &&
    forall j, k | 0 <= j < k < |spans| :: spans[j].end <= spans[k].start
  }

  /** No token contains a span boundary. */
  predicate NoStraddle(text: string, tokens: seq<Token>, spans: seq<MarkdownSpan>) {
    forall k, j | 0 <= k < |tokens| && 0 <= j < |spans| ::
      var a, b := StrIdx(text, tokens[k].Start), StrIdx(text, tokens[k].End);
      !(a < spans[j].start < b) && !(a < spans[j].end < b)
  }

  predicate Inside(spans: seq<MarkdownSpan>, i: int) {
    exists j | 0 <= j < |spans| :: spans[j].start <= i < spans[j].end
  }

  /** The tokens that no span swallows, as word segments. */
  function WordsOutside(text: string, tokens: seq<Token>, spans: seq<MarkdownSpan>): seq<Segment> {
    if tokens == [] then []
    else
      var front, t := tokens[..|tokens| - 1], tokens[|tokens| - 1];
      var r := WordsOutside(text, front, spans);
      if Inside(spans, StrIdx(text, t.Start)) then r else r + [WordSegment(t.Text, t.Index)]
  }

  function WordsOf(segs: seq<Segment>): seq<Segment> {
    if segs == [] then []
    else
      var r := WordsOf(segs[..|segs| - 1]);
      if segs[|segs| - 1].WordSegment? then r + [segs[|segs| - 1]] else r
  }

  function SpansOf(segs: seq<Segment>): seq<MarkdownSpan> {
    if segs == [] then []
    else
      var r := SpansOf(segs[..|segs| - 1]);
      if segs[|segs| - 1].Embed? then r + [segs[|segs| - 1].span] else r
  }

  /** The source a segment stands for. */
  function SourceOf(text: seq<int>, g: Segment): seq<int> {
    match g
    case WordSegment(t, _) => Units(t)
    case GapSegment(units) => units
    case Embed(span) => if 0 <= span.start <= span.end <= |text| then text[span.start..span.end] else []
  }

  function Source(text: seq<int>, segs: seq<Segment>): seq<int> {
    if segs == [] then [] else Source(text, segs[..|segs| - 1]) + SourceOf(text, segs[|segs| - 1])
  }

  /** The segments spell the text up to the cursor, and no gap is empty. */
  ghost predicate Spelled(text: string, segs: seq<Segment>, cursor: int) {
    0 <= cursor <= |Units(text)| && Source(Units(text), segs) == Units(text)[..cursor] &&
    forall g | g in segs && g.GapSegment? :: g.units != []
  }

  /** The segments so far spell the text up to the cursor, with the first ti tokens and the first j spans dealt with. */
  ghost predicate Rendered(
      text: string, tokens: seq<Token>, spans: seq<MarkdownSpan>, segs: seq<Segment>, ti: nat, j: nat, cursor: int)
  {
    Spelled(text, segs, cursor) && ti <= |tokens| && j <= |spans| &&
    WordsOf(segs) == WordsOutside(text, tokens[..ti], spans) && SpansOf(segs) == spans[..j] &&
    (ti < |tokens| ==> cursor <= StrIdx(text, tokens[ti].Start)) &&
    (j > 0 ==> spans[j - 1].end <= cursor)
  }

  lemma Snoc(text: seq<int>, segs: seq<Segment>, g: Segment)
    ensures Source(text, segs + [g]) == Source(text, segs) + SourceOf(text, g)
    ensures WordsOf(segs + [g]) == if g.WordSegment? then WordsOf(segs) + [g] else WordsOf(segs)
    ensures SpansOf(segs + [g]) == if g.Embed? then SpansOf(segs) + [g.span] else SpansOf(segs)
  {
    assert (segs + [g])[..|segs|] == segs;
  }

  lemma NextWordOutside(text: string, tokens: seq<Token>, spans: seq<MarkdownSpan>, ti: nat)
    requires ti < |tokens|
    ensures WordsOutside(text, tokens[..ti + 1], spans) ==
      WordsOutside(text, tokens[..ti], spans) +
      (if Inside(spans, StrIdx(text, tokens[ti].Start)) then [] else [WordSegment(tokens[ti].Text, tokens[ti].Index)])
  {
    assert tokens[..ti + 1][..ti] == tokens[..ti];
  }

  lemma Extend(spans: seq<MarkdownSpan>, j: nat)
    requires j < |spans|
    ensures spans[..j + 1] == spans[..j] + [spans[j]]
  {
  }

  lemma Adjoin(s: seq<int>, a: nat, b: nat)
    requires a <= b <= |s|
    ensures s[..a] + s[a..b] == s[..b]
  {
  }

  lemma GapStep(text: string, tokens: seq<Token>, spans: seq<MarkdownSpan>, segs: seq<Segment>, ti: nat, j: nat,
        cursor: int, to: int)
    requires Rendered(text, tokens, spans, segs, ti, j, cursor)
    requires cursor < to <= |Units(text)| && (ti < |tokens| ==> to <= StrIdx(text, tokens[ti].Start))
    ensures Rendered(text, tokens, spans, segs + [GapSegment(Units(text)[cursor..to])], ti, j, to)
  {
    hide Units, StrIdx, WordsOutside, Source, WordsOf, SpansOf;
    var g := GapSegment(Units(text)[cursor..to]);
    Snoc(Units(text), segs, g);
    Adjoin(Units(text), cursor, to);
  }

  lemma WordStep(text: string, tokens: seq<Token>, spans: seq<MarkdownSpan>, segs: seq<Segment>, ti: nat, j: nat)
    requires ti < |tokens| && Rendered(text, tokens, spans, segs, ti, j, StrIdx(text, tokens[ti].Start))
    requires Placed(text, tokens) && !Inside(spans, StrIdx(text, tokens[ti].Start))
    ensures Rendered(text, tokens, spans, segs + [WordSegment(tokens[ti].Text, tokens[ti].Index)], ti + 1, j,
      StrIdx(text, tokens[ti].End))
  {
    hide Units, StrIdx, WordsOutside, Inside, Source, WordsOf, SpansOf;
    var a, b := StrIdx(text, tokens[ti].Start), StrIdx(text, tokens[ti].End);
    Snoc(Units(text), segs, WordSegment(tokens[ti].Text, tokens[ti].Index));
    NextWordOutside(text, tokens, spans, ti);
    Adjoin(Units(text), a, b);
  }

  /** The closure of buildRenderSegments: words and gaps up to string index hi. */
  method EmitWordsUntil(
      text: string, tokens: seq<Token>, ghost spans: seq<MarkdownSpan>, ghost j: nat,
      segs0: seq<Segment>, ti0: nat, cursor0: int, hi: int)
      returns (segs: seq<Segment>, ti: nat, cursor: int)
    requires Placed(text, tokens) && InOrder(text, spans) && NoStraddle(text, tokens, spans)
    requires Rendered(text, tokens, spans, segs0, ti0, j, cursor0) && cursor0 <= hi && ti0 <= |tokens|
    requires hi == if j < |spans| then spans[j].start else |Units(text)|
    ensures Rendered(text, tokens, spans, segs, ti, j, hi) && cursor == hi && ti <= |tokens|
  {
    hide Rendered, Units, StrIdx, Inside, Placed, NoStraddle, InOrder;
    segs, ti, cursor := segs0, ti0, cursor0;
    while ti < |tokens|
      invariant Rendered(text, tokens, spans, segs, ti, j, cursor) && cursor <= hi && ti <= |tokens|
    {
      var t := tokens[ti];
      var ts := StrIdx(text, t.Start);
      Bounds(text, tokens, spans, segs, ti, j, cursor, hi);
      if ts >= hi {
        break;
      }
      if ts > cursor {
        GapStep(text, tokens, spans, segs, ti, j, cursor, ts);
        segs := segs + [GapSegment(Units(text)[cursor..ts])];
      }
      WordStep(text, tokens, spans, segs, ti, j);
      segs := segs + [WordSegment(t.Text, t.Index)];
      cursor := StrIdx(text, t.End);
      ti := ti + 1;
    }
    EndBounds(text, tokens, spans, segs, ti, j, cursor, hi);
    if cursor < hi {
      GapStep(text, tokens, spans, segs, ti, j, cursor, hi);
      segs := segs + [GapSegment(Units(text)[cursor..hi])];
      cursor := hi;
    }
  }

  lemma NotInside(text: string, spans: seq<MarkdownSpan>, j: nat, a: int)
    requires InOrder(text, spans) && j <= |spans|
    requires (j > 0 ==> spans[j - 1].end <= a) && (j < |spans| ==> a < spans[j].start)
    ensures !Inside(spans, a)
  {
    hide Units;
    forall i | 0 <= i < |spans| ensures !(spans[i].start <= a < spans[i].end) {
      if i < j - 1 { assert spans[i].end <= spans[j - 1].start; }
      if j < i { assert spans[j].end <= spans[i].start; }
    }
  }

  /** A token that starts before the next boundary ends by it, and is in no span. */
  lemma Bounds(
      text: string, tokens: seq<Token>, spans: seq<MarkdownSpan>, segs: seq<Segment>, ti: nat, j: nat, cursor: int,
      hi: int)
    requires Placed(text, tokens) && InOrder(text, spans) && NoStraddle(text, tokens, spans) && ti < |tokens|
    requires Rendered(text, tokens, spans, segs, ti, j, cursor) && cursor <= hi
    requires hi == if j < |spans| then spans[j].start else |Units(text)|
    ensures 0 <= cursor <= StrIdx(text, tokens[ti].Start) <= StrIdx(text, tokens[ti].End) <= |Units(text)|
    ensures StrIdx(text, tokens[ti].Start) < hi ==>
      StrIdx(text, tokens[ti].End) <= hi && !Inside(spans, StrIdx(text, tokens[ti].Start))
  {
    Cursor(text, tokens, spans, segs, ti, j, cursor);
    hide Units, StrIdx, Rendered, InOrder, Inside;
    var a := StrIdx(text, tokens[ti].Start);
    if a < hi {
      NotInside(text, spans, j, a);
    }
  }

  lemma Cursor(text: string, tokens: seq<Token>, spans: seq<MarkdownSpan>, segs: seq<Segment>, ti: nat, j: nat,
        cursor: int)
    requires Rendered(text, tokens, spans, segs, ti, j, cursor)
    ensures j <= |spans| && ti <= |tokens| && 0 <= cursor <= |Units(text)|
    ensures ti < |tokens| ==> cursor <= StrIdx(text, tokens[ti].Start)
    ensures j > 0 ==> spans[j - 1].end <= cursor
  {
    hide Units, StrIdx, WordsOf, WordsOutside, SpansOf, Source;
  }

  lemma EndBounds(
      text: string, tokens: seq<Token>, spans: seq<MarkdownSpan>, segs: seq<Segment>, ti: nat, j: nat, cursor: int,
      hi: int)
    requires InOrder(text, spans) && Rendered(text, tokens, spans, segs, ti, j, cursor)
    requires hi == if j < |spans| then spans[j].start else |Units(text)|
    ensures 0 <= cursor && hi <= |Units(text)|
  {
    hide Units, StrIdx, WordsOf, WordsOutside, SpansOf, Source;
  }

  lemma NothingRendered(text: string, tokens: seq<Token>, spans: seq<MarkdownSpan>)
    requires Placed(text, tokens)
    ensures Rendered(text, tokens, spans, [], 0, 0, 0)
  {
    hide Units, StrIdx;
    assert tokens != [] ==> 0 <= StrIdx(text, tokens[0].Start);
    assert tokens[..0] == [];
  }

  lemma SpanBounds(text: string, spans: seq<MarkdownSpan>, j: nat)
    requires InOrder(text, spans) && j < |spans|
    ensures (if j == 0 then 0 else spans[j - 1].end) <= spans[j].start < spans[j].end <= |Units(text)|
  {
    hide Units;
  }

  lemma LastBounds(text: string, spans: seq<MarkdownSpan>)
    requires InOrder(text, spans)
    ensures (if spans == [] then 0 else spans[|spans| - 1].end) <= |Units(text)|
  {
    hide Units;
  }

  /** A token inside the span being embedded is dropped. */
  lemma SwallowStep(text: string, tokens: seq<Token>, spans: seq<MarkdownSpan>, segs: seq<Segment>, ti: nat, j: nat)
    requires j < |spans| && ti < |tokens| && Placed(text, tokens)
    requires Rendered(text, tokens, spans, segs, ti, j, spans[j].start)
    requires StrIdx(text, tokens[ti].Start) < spans[j].end
    ensures Rendered(text, tokens, spans, segs, ti + 1, j, spans[j].start)
  {
    hide Units, StrIdx, WordsOutside, Source, WordsOf, SpansOf;
    NextWordOutside(text, tokens, spans, ti);
    assert Inside(spans, StrIdx(text, tokens[ti].Start));
  }

  lemma EmbedStep(text: string, tokens: seq<Token>, spans: seq<MarkdownSpan>, segs: seq<Segment>, ti: nat, j: nat)
    requires j < |spans| && InOrder(text, spans)
    requires Rendered(text, tokens, spans, segs, ti, j, spans[j].start)
    requires ti < |tokens| ==> spans[j].end <= StrIdx(text, tokens[ti].Start)
    ensures Rendered(text, tokens, spans, segs + [Embed(spans[j])], ti, j + 1, spans[j].end)
  {
    SpanBounds(text, spans, j);
    EmbedSpells(text, segs, spans[j]);
    hide Units, StrIdx, WordsOutside, Source, WordsOf, SpansOf, InOrder, Spelled;
    Snoc(Units(text), segs, Embed(spans[j]));
    Extend(spans, j);
  }

  lemma EmbedSpells(text: string, segs: seq<Segment>, span: MarkdownSpan)
    requires Spelled(text, segs, span.start) && span.start <= span.end <= |Units(text)|
    ensures Spelled(text, segs + [Embed(span)], span.end)
  {
    hide Units, Source, WordsOf, SpansOf;
    Snoc(Units(text), segs, Embed(span));
    Adjoin(Units(text), span.start, span.end);
  }

  lemma AllRendered(text: string, tokens: seq<Token>, spans: seq<MarkdownSpan>, segs: seq<Segment>, ti: nat)
    requires Placed(text, tokens) && Rendered(text, tokens, spans, segs, ti, |spans|, |Units(text)|)
    ensures Source(Units(text), segs) == Units(text) && SpansOf(segs) == spans
    ensures WordsOf(segs) == WordsOutside(text, tokens, spans)
    ensures forall g | g in segs && g.GapSegment? :: g.units != []
  {
    hide Units, StrIdx, WordsOutside, Source, WordsOf, SpansOf;
    assert ti == |tokens|;
    assert tokens[..ti] == tokens && spans[..|spans|] == spans && Units(text)[..|Units(text)|] == Units(text);
  }

  /** The segments spell the article: words, gaps and the source of the embeds, in order; every span appears, in order,
      and so does every token outside them. `spans` are the links and images found in the text. */
  method BuildRenderSegments(tokens: seq<Token>, text: string, spans: seq<MarkdownSpan>) returns (segs: seq<Segment>)
    requires Placed(text, tokens) && InOrder(text, spans) && NoStraddle(text, tokens, spans)
    ensures tokens == [] ==> segs == []
    ensures tokens != [] ==>
      && Source(Units(text), segs) == Units(text)
      && WordsOf(segs) == WordsOutside(text, tokens, spans)
      && SpansOf(segs) == spans
      && forall g | g in segs && g.GapSegment? :: g.units != []
  {
    hide Rendered, Units, StrIdx, Placed, NoStraddle, InOrder;
    segs := [];
    if |tokens| == 0 {
      return;
    }
    var ti: nat, cursor: int := 0, 0;
    NothingRendered(text, tokens, spans);
    for j := 0 to |spans|
      invariant Rendered(text, tokens, spans, segs, ti, j, cursor) && ti <= |tokens|
      invariant cursor == if j == 0 then 0 else spans[j - 1].end
    {
      var span := spans[j];
      // the source skips a span that starts before the cursor: there is none
      SpanBounds(text, spans, j);
      assert span.start >= cursor;
      segs, ti, cursor := EmitWordsUntil(text, tokens, spans, j, segs, ti, cursor, span.start);
      ghost var before := segs;
      segs := segs + [Embed(span)];
      while ti < |tokens| && StrIdx(text, tokens[ti].Start) < span.end
        invariant Rendered(text, tokens, spans, before, ti, j, cursor) && ti <= |tokens|
      {
        SwallowStep(text, tokens, spans, before, ti, j);
        ti := ti + 1;
      }
      EmbedStep(text, tokens, spans, before, ti, j);
      cursor := span.end;
    }
    LastBounds(text, spans);
    segs, ti, cursor := EmitWordsUntil(text, tokens, spans, |spans|, segs, ti, cursor, |Units(text)|);
    AllRendered(text, tokens, spans, segs, ti);
  }

  // ---------------------------------------------------------------- tokenizer output meets those conditions

  lemma IdxAt(text: string, k: nat)
    requires k <= |text|
    ensures StrIdx(text, Off(Lift(text), k)) == Pos(text, k)
  {
    hide Units, ByteMap, Off, Pos;
    ByteMapBoundaries(text, k);
  }

  lemma IdxMonotone(text: string, a: nat, b: nat)
    requires a <= b <= Off(Lift(text), |text|)
    ensures StrIdx(text, a) <= StrIdx(text, b)
  {
    hide Units, ByteMap, Off;
    ByteMapLength(text);
    ByteMapMonotone(text, a, b);
    IdxIn(text, a);
    IdxIn(text, b);
    hide StrIdx;
  }

  lemma IdxIn(text: string, b: nat)
    requires b < |ByteMap(text) + [|Units(text)|]|
    ensures StrIdx(text, b) == (ByteMap(text) + [|Units(text)|])[b]
  {
    hide ByteMap, Units;
  }

  /** The characters a token stands on. */
  lemma TokenChars(u: Unicode, text: string, tokens: seq<Token>, k: nat) returns (i: nat, j: nat)
    requires T.IsTokenization(u, Lift(text), tokens) && k < |tokens|
    ensures i < j <= |text| && tokens[k].Start == Off(Lift(text), i) && tokens[k].End == Off(Lift(text), j)
    ensures text[i..j] == tokens[k].Text
  {
    hide Off, T.IsTokenization;
    T.TokensOrdered(u, Lift(text), tokens);
    assert T.SliceIs(Lift(text), tokens[k].Start, tokens[k].End, tokens[k].Text);
    i, j :| 0 <= i <= j <= |Lift(text)| && tokens[k].Start == Off(Lift(text), i) && tokens[k].End == Off(Lift(text), j)
      && Lift(text)[i..j] == Lift(tokens[k].Text);
    assert Lift(text)[i..j] == Lift(text[i..j]);
    LiftInjective(text[i..j], tokens[k].Text);
  }

  lemma TokensPlaced(u: Unicode, text: string, tokens: seq<Token>)
    requires T.IsTokenization(u, Lift(text), tokens)
    ensures Placed(text, tokens)
  {
    hide Off, Units, StrIdx, T.IsTokenization, Lift;
    T.TokensOrdered(u, Lift(text), tokens);
    forall k | 0 <= k < |tokens|
      ensures var a, b := StrIdx(text, tokens[k].Start), StrIdx(text, tokens[k].End);
        0 <= a < b <= |Units(text)| && Units(text)[a..b] == Units(tokens[k].Text)
    {
      var i, j := TokenChars(u, text, tokens, k);
      IdxAt(text, i);
      IdxAt(text, j);
      UnitsSlice(text, i, j);
    }
    forall j, k | 0 <= j < k < |tokens| ensures StrIdx(text, tokens[j].End) <= StrIdx(text, tokens[k].Start) {
      IdxMonotone(text, tokens[j].End, tokens[k].Start);
    }
  }

  /** A span that begins and ends with characters no token can hold: `[`, `!` and `)` in Markdown. */
  ghost predicate Delimited(u: Unicode, text: string, span: MarkdownSpan) {
    exists a, b | 0 <= a < b <= |text| ::
      span.start == Pos(text, a) && span.end == Pos(text, b) &&
      T.Hard(u, Rune(text[a])) && T.Hard(u, Rune(text[b - 1]))
  }

  lemma NoHardInside(u: Unicode, text: string, tokens: seq<Token>, k: nat, i: nat, j: nat)
    requires T.IsTokenization(u, Lift(text), tokens) && k < |tokens| && i < j <= |text|
    requires tokens[k].Start == Off(Lift(text), i) && tokens[k].End == Off(Lift(text), j)
    ensures forall m | i <= m < j :: !T.Hard(u, Rune(text[m]))
  {
    hide Off, T.IsTokenization, T.Hard;
    var r := T.TokenRange(u, Lift(text), tokens, k);
    SameOffset(Lift(text), i, r.first);
    SameOffset(Lift(text), j, r.last + 1);
    assert forall m | i <= m < j :: Lift(text)[m] == Rune(text[m]);
  }

  lemma SameOffset(t: seq<Piece>, a: nat, b: nat)
    requires a <= |t| && b <= |t| && Off(t, a) == Off(t, b)
    ensures a == b
  {
    AtOff(t, a);
    AtOff(t, b);
  }

  lemma {:induction false} PosOrder(text: string, a: nat, b: nat)
    requires a <= |text| && b <= |text|
    ensures Pos(text, a) < Pos(text, b) <==> a < b
  {
    hide Units;
    if a < b {
      UnitsSlice(text, a, b);
    } else {
      UnitsSlice(text, b, a);
    }
  }

  /** No token straddles such a span. */
  lemma DelimitedSpansFit(u: Unicode, text: string, tokens: seq<Token>, spans: seq<MarkdownSpan>)
    requires T.IsTokenization(u, Lift(text), tokens)
    requires forall j | 0 <= j < |spans| :: Delimited(u, text, spans[j])
    ensures NoStraddle(text, tokens, spans)
  {
    hide T.IsTokenization, Off, Pos, StrIdx, T.Hard, Lift;
    forall k, j | 0 <= k < |tokens| && 0 <= j < |spans|
      ensures var a, b := StrIdx(text, tokens[k].Start), StrIdx(text, tokens[k].End);
        !(a < spans[j].start < b) && !(a < spans[j].end < b)
    {
      var i, e := TokenChars(u, text, tokens, k);
      NoHardInside(u, text, tokens, k, i, e);
      IdxAt(text, i);
      IdxAt(text, e);
      assert Delimited(u, text, spans[j]);
      var a, b :| 0 <= a < b <= |text| && spans[j].start == Pos(text, a) && spans[j].end == Pos(text, b)
        && T.Hard(u, Rune(text[a])) && T.Hard(u, Rune(text[b - 1]));
      PosOrder(text, i, a);
      PosOrder(text, a, e);
      PosOrder(text, i, b);
      PosOrder(text, b, e);
    }
  }

  /** Go's JSON encoder replaces an invalid byte by U+FFFD, which is three bytes long in the reader's copy. */
  function AsJson(t: seq<Piece>): (s: string)
    ensures |s| == |t|
  {
    seq(|t|, k requires 0 <= k < |t| => if t[k].Rune? then t[k].c else '\U{FFFD}')
  }

  /** A token offset means the same place in the reader exactly when no invalid byte comes before it. */
  lemma {:induction false} OffsetsSurviveIffValid(t: seq<Piece>, k: nat)
    requires k <= |t|
    ensures Off(t, k) <= Off(Lift(AsJson(t)), k)
    ensures Off(t, k) == Off(Lift(AsJson(t)), k) <==> forall i | 0 <= i < k :: t[i].Rune?
  {
    if k > 0 {
      OffsetsSurviveIffValid(t, k - 1);
    }
  }

  /** An invalid byte before a word: the word's offset leads the reader to the replacement character. */
  lemma InvalidByteMovesWord(u: Unicode)
    requires AsciiText(u)
    ensures var t := [BadByte, Rune('a')];
      && T.IsTokenization(u, t, [Token(0, "a", 1, 2, "")])
      && AsJson(t)[1] == 'a' && Pos(AsJson(t), 1) == 1
      && StrIdx(AsJson(t), 1) == 0
  {
    var t := [BadByte, Rune('a')];
    OneLetterAfter(u, t);
    var s := AsJson(t);
    assert s == "\U{FFFD}a" && s[..1] == "\U{FFFD}" && s[..1][..0] == "";
    assert Units(s[..1]) == Units(s[..1][..0]) + Encode16('\U{FFFD}');
    assert ByteMap(s[..1]) == ByteMap(s[..1][..0]) + seq(3, _ => 0);
    assert ByteMap(s) == ByteMap(s[..1]) + seq(1, _ => 1);
  }

  lemma OneLetterAfter(u: Unicode, t: seq<Piece>)
    requires AsciiText(u) && t == [BadByte, Rune('a')]
    ensures T.IsTokenization(u, t, [Token(0, "a", 1, 2, "")])
  {
    var R := [T.Range(1, 1)];
    forall p {:trigger T.Covered(R, p)} | 0 <= p < |t| && T.Word(u, t[p]) ensures T.Covered(R, p) {
      assert T.Holds(R[0], p);
    }
    assert T.Covers(u, t, |t|, R) && T.Agrees(u, t, |t|, R);
    assert t[1..2] == [Rune('a')];
    LiftInjective(T.TextAt(t, R[0]), "a");
    assert Off(t, 1) == 1 && Off(t, 2) == 2;
    assert T.Render(t, R) == [Token(0, "a", 1, 2, "")];
  }
}
