/** internal/tokenize/tokenize.go: the one-pass word scanner and the specification it meets. */
module Tokenizer {
  import opened Model
  import opened Text

  // ---------------------------------------------------------------- character classes

  predicate Word(u: Unicode, p: Piece) {
    p.Rune? && (u.letter(p.c) || u.digit(p.c))
  }

  predicate Apostrophe(c: char) {
    c == '\'' || c == '\U{2019}'
  }

  /** A character that may sit inside a token, if what follows admits it. */
  predicate Join(u: Unicode, p: Piece) {
    p.Rune? && !Word(u, p) && (Apostrophe(p.c) || p.c == '-' || p.c == '.')
  }

  predicate Hard(u: Unicode, p: Piece) {
    !Word(u, p) && !Join(u, p)
  }

  // ---------------------------------------------------------------- declarative specification

  /** Whether the join character lets `after` continue a token whose last word rune is `before`. */
  predicate Admits(u: Unicode, join: char, before: char, after: char) {
    if Apostrophe(join) || join == '-' then u.letter(after)
    else u.digit(after) && u.digit(before)
  }

  /** i and j are word runes with no word rune between them. */
  predicate Neighbours(u: Unicode, t: seq<Piece>, i: int, j: int) {
    0 <= i < j < |t| && Word(u, t[i]) && Word(u, t[j]) && forall k | i < k < j :: !Word(u, t[k])
  }

  /** Two neighbouring word runes belong together: only join characters lie between them,
      and the last of those admits the pair. */
  predicate Linked(u: Unicode, t: seq<Piece>, i: int, j: int)
    requires Neighbours(u, t, i, j)
  {
    && (forall k | i < k < j :: Join(u, t[k]))
    && (j == i + 1 || Admits(u, t[j - 1].c, t[i].c, t[j].c))
  }

  /** Piece indices of a token's first and last rune. */
  datatype Range = Range(first: nat, last: nat)

  predicate Holds(r: Range, p: int) {
    r.first <= p <= r.last
  }

  ghost predicate Together(R: seq<Range>, i: int, j: int) {
    exists k :: 0 <= k < |R| && Holds(R[k], i) && Holds(R[k], j)
  }

  ghost predicate Covered(R: seq<Range>, p: int) {
    exists k :: 0 <= k < |R| && Holds(R[k], p)
  }

  ghost predicate Shaped(u: Unicode, t: seq<Piece>, n: nat, R: seq<Range>)
    requires n <= |t|
  {
    && (forall k | 0 <= k < |R| :: R[k].first <= R[k].last < n && Word(u, t[R[k].first]) && Word(u, t[R[k].last]))
    && (forall j, k | 0 <= j < k < |R| :: R[j].last < R[k].first)
  }

  /** Every word rune is in a token. */
  ghost predicate Covers(u: Unicode, t: seq<Piece>, n: nat, R: seq<Range>)
    requires n <= |t|
  {
    forall p {:trigger Covered(R, p)} | 0 <= p < n && Word(u, t[p]) :: Covered(R, p)
  }

  /** Neighbouring word runes share a token exactly when they are linked. */
  ghost predicate Agrees(u: Unicode, t: seq<Piece>, n: nat, R: seq<Range>)
    requires n <= |t|
  {
    forall i, j | Neighbours(u, t, i, j) && j < n :: Together(R, i, j) <==> Linked(u, t, i, j)
  }

  /** R is the tokenization of the first n pieces of t. */
  ghost predicate Segments(u: Unicode, t: seq<Piece>, n: nat, R: seq<Range>)
    requires n <= |t|
  {
    Shaped(u, t, n, R) && Covers(u, t, n, R) && Agrees(u, t, n, R)
  }

  ghost predicate Segmentation(u: Unicode, t: seq<Piece>, R: seq<Range>) {
    Segments(u, t, |t|, R)
  }

  lemma LinkedInside(u: Unicode, t: seq<Piece>, n: nat, R: seq<Range>, i: int, j: int)
    requires n <= |t| && Agrees(u, t, n, R)
    requires Neighbours(u, t, i, j) && j < n && Together(R, i, j)
    ensures Linked(u, t, i, j)
  {
  }

  /** A token holds word runes and join characters only, so its text is a valid string. */
  lemma {:induction false} RangeIsText(u: Unicode, t: seq<Piece>, n: nat, R: seq<Range>, r: Range, m: nat)
    requires n <= |t| && Agrees(u, t, n, R) && r in R && Holds(r, m)
    requires r.last < n && Word(u, t[r.first]) && Word(u, t[r.last])
    ensures Word(u, t[m]) || Join(u, t[m])
  {
    if !Word(u, t[m]) {
      var i := PrevWord(u, t, r.first, m);
      var j := NextWord(u, t, m, r.last);
      var k :| 0 <= k < |R| && R[k] == r;
      assert Holds(R[k], i) && Holds(R[k], j);
      LinkedInside(u, t, n, R, i, j);
    }
  }

  lemma PrevWord(u: Unicode, t: seq<Piece>, lo: nat, m: nat) returns (i: nat)
    requires lo < m <= |t| && Word(u, t[lo])
    ensures lo <= i < m && Word(u, t[i]) && forall k | i < k < m :: !Word(u, t[k])
  {
    i := m - 1;
    while !Word(u, t[i])
      invariant lo <= i < m && forall k | i < k < m :: !Word(u, t[k])
      decreases i
    {
      i := i - 1;
    }
  }

  lemma NextWord(u: Unicode, t: seq<Piece>, m: nat, hi: nat) returns (j: nat)
    requires m < hi < |t| && Word(u, t[hi])
    ensures m < j <= hi && Word(u, t[j]) && forall k | m < k < j :: !Word(u, t[k])
  {
    j := m + 1;
    while !Word(u, t[j])
      invariant m < j <= hi && forall k | m < k < j :: !Word(u, t[k])
      decreases hi - j
    {
      j := j + 1;
    }
  }

  /** The text of pieces first..last. */
  function TextAt(t: seq<Piece>, r: Range): string
    requires r.first <= r.last < |t|
  {
    var run := t[r.first..r.last + 1];
    if forall m | 0 <= m < |run| :: run[m].Rune? then Chars(run) else ""
  }

  /** The token for pieces first..last, as the k-th of the list. */
  function TokenAt(t: seq<Piece>, k: nat, r: Range): Token
    requires r.first <= r.last < |t|
  {
    Token(k, TextAt(t, r), Off(t, r.first), Off(t, r.last + 1), "")
  }

  predicate InBounds(t: seq<Piece>, R: seq<Range>) {
    forall k | 0 <= k < |R| :: R[k].first <= R[k].last < |t|
  }

  function Render(t: seq<Piece>, R: seq<Range>): (tokens: seq<Token>)
    requires InBounds(t, R)
    ensures |tokens| == |R|
  {
    seq(|R|, k requires 0 <= k < |R| => TokenAt(t, k, R[k]))
  }

  /** tokens is the tokenization of t. */
  ghost predicate IsTokenization(u: Unicode, t: seq<Piece>, tokens: seq<Token>) {
    exists R :: Segmentation(u, t, R) && tokens == Render(t, R)
  }

  // ---------------------------------------------------------------- the scanner keeps the specification

  lemma SkipPiece(u: Unicode, t: seq<Piece>, n: nat, R: seq<Range>)
    requires n < |t| && Segments(u, t, n, R) && !Word(u, t[n])
    ensures Segments(u, t, n + 1, R)
  {
  }

  lemma TogetherOpen(R: seq<Range>, r: Range, i: int, j: int)
    requires i < r.first
    ensures Together(R + [r], i, j) <==> Together(R, i, j)
  {
    var R' := R + [r];
    if Together(R, i, j) {
      var k :| 0 <= k < |R| && Holds(R[k], i) && Holds(R[k], j);
      assert R'[k] == R[k];
    }
    if Together(R', i, j) {
      var k :| 0 <= k < |R'| && Holds(R'[k], i) && Holds(R'[k], j);
      assert R'[k] == R[k];
    }
  }

  lemma TogetherGrow(R: seq<Range>, n: nat, i: int, j: int)
    requires R != [] && i < j
    requires j <= R[|R| - 1].last <= n
    ensures Together(Grown(R, n), i, j) <==> Together(R, i, j)
  {
    var R' := Grown(R, n);
    if Together(R, i, j) {
      var k :| 0 <= k < |R| && Holds(R[k], i) && Holds(R[k], j);
      assert Holds(R'[k], i) && Holds(R'[k], j);
    }
    if Together(R', i, j) {
      var k :| 0 <= k < |R'| && Holds(R'[k], i) && Holds(R'[k], j);
      assert Holds(R[k], i) && Holds(R[k], j);
    }
  }

  lemma OpenRange(u: Unicode, t: seq<Piece>, n: nat, R: seq<Range>)
    requires n < |t| && Segments(u, t, n, R) && Word(u, t[n])
    requires forall i | Neighbours(u, t, i, n) :: !Linked(u, t, i, n)
    ensures Segments(u, t, n + 1, R + [Range(n, n)])
  {
    var r := Range(n, n);
    var R' := R + [r];
    assert R'[|R|] == r;
    assert Shaped(u, t, n + 1, R');
    forall p | 0 <= p < n + 1 && Word(u, t[p]) ensures Covered(R', p) {
      if p == n {
        assert Holds(R'[|R|], p);
      } else {
        assert Covered(R, p);
        var k :| 0 <= k < |R| && Holds(R[k], p);
        assert R'[k] == R[k];
      }
    }
    forall i, j | Neighbours(u, t, i, j) && j < n + 1
      ensures Together(R', i, j) <==> Linked(u, t, i, j)
    {
      TogetherOpen(R, r, i, j);
      if j == n {
        assert !Together(R, i, n);
      }
    }
  }

  /** R with its last range extended to n. */
  function Grown(R: seq<Range>, n: nat): (R': seq<Range>)
    requires R != []
    ensures |R'| == |R|
  {
    R[..|R| - 1] + [Range(R[|R| - 1].first, n)]
  }

  lemma GrowCovers(u: Unicode, t: seq<Piece>, n: nat, R: seq<Range>)
    requires n < |t| && Shaped(u, t, n, R) && Covers(u, t, n, R) && R != []
    ensures Covers(u, t, n + 1, Grown(R, n))
  {
    var last := |R| - 1;
    var R' := Grown(R, n);
    forall p | 0 <= p < n + 1 && Word(u, t[p]) ensures Covered(R', p) {
      if p == n {
        assert Holds(R'[last], p);
      } else {
        assert Covered(R, p);
        var k :| 0 <= k < |R| && Holds(R[k], p);
        assert Holds(R'[k], p);
      }
    }
  }

  lemma GrowAgrees(u: Unicode, t: seq<Piece>, n: nat, R: seq<Range>, i: int, j: int)
    requires n < |t| && R != [] && R[|R| - 1].first <= R[|R| - 1].last
    requires Agrees(u, t, n, R)
    requires var l := R[|R| - 1].last; Neighbours(u, t, l, n) && Linked(u, t, l, n)
    requires Neighbours(u, t, i, j) && j < n + 1
    ensures Together(Grown(R, n), i, j) <==> Linked(u, t, i, j)
  {
    var last := |R| - 1;
    var l := R[last].last;
    if j == n {
      assert i == l;
      assert Holds(Grown(R, n)[last], i) && Holds(Grown(R, n)[last], j);
    } else {
      assert j <= l;
      TogetherGrow(R, n, i, j);
    }
  }

  lemma GrowRange(u: Unicode, t: seq<Piece>, n: nat, R: seq<Range>)
    requires n < |t| && Segments(u, t, n, R) && R != []
    requires var l := R[|R| - 1].last; Neighbours(u, t, l, n) && Linked(u, t, l, n)
    ensures Segments(u, t, n + 1, Grown(R, n))
  {
    GrowCovers(u, t, n, R);
    forall i, j | Neighbours(u, t, i, j) && j < n + 1
      ensures Together(Grown(R, n), i, j) <==> Linked(u, t, i, j)
    {
      GrowAgrees(u, t, n, R, i, j);
    }
    assert Agrees(u, t, n + 1, Grown(R, n));
    assert Shaped(u, t, n + 1, Grown(R, n));
  }

  /** The scanner's variables after n pieces. */
  datatype Scan = Scan(inToken: bool, tokStart: nat, tokEnd: nat, pending: Option<char>, prevWasDigit: bool)

  /** Every word rune before n is cut off from n by a hard split. */
  predicate CutOff(u: Unicode, t: seq<Piece>, n: nat)
    requires n <= |t|
  {
    forall w | 0 <= w < n && Word(u, t[w]) :: exists m | w < m < n :: Hard(u, t[m])
  }

  /** The open token is R's last range; only join characters follow it. */
  ghost predicate Open(u: Unicode, t: seq<Piece>, n: nat, r: Range, s: Scan)
    requires r.first <= r.last < n <= |t|
  {
    && s.tokStart == Off(t, r.first)
    && s.tokEnd == Off(t, r.last + 1)
    && (forall m | r.last < m < n :: Join(u, t[m]))
    && s.pending == (if r.last + 1 < n then Some(t[n - 1].c) else None)
    && t[r.last].Rune? && s.prevWasDigit == u.digit(t[r.last].c)
  }

  /** The pieces of t up to n, scanned: R are the tokens so far, the last one open when inToken. */
  ghost predicate Scanned(u: Unicode, t: seq<Piece>, n: nat, R: seq<Range>, s: Scan)
    requires n <= |t|
  {
    && Segments(u, t, n, R)
    && (s.inToken ==> R != [] && Open(u, t, n, R[|R| - 1], s))
    && (!s.inToken ==> s.pending == None && CutOff(u, t, n))
  }

  /** The decision the code takes when a word rune meets the open token. */
  predicate Joins(u: Unicode, s: Scan, r: char) {
    match s.pending
    case None => true
    case Some(p) =>
      if Apostrophe(p) then u.letter(r)
      else if p == '-' then u.letter(r)
      else if p == '.' then u.digit(r) && s.prevWasDigit
      else false
  }

  lemma WordAfterOpen(u: Unicode, t: seq<Piece>, n: nat, r: Range, s: Scan)
    requires r.first <= r.last < n < |t| && Open(u, t, n, r, s)
    requires Word(u, t[r.last]) && Word(u, t[n])
    ensures Neighbours(u, t, r.last, n)
    ensures Linked(u, t, r.last, n) <==> Joins(u, s, t[n].c)
    ensures forall i | Neighbours(u, t, i, n) :: i == r.last
  {
    if r.last + 1 < n {
      assert Join(u, t[n - 1]);
    }
  }

  lemma ScanStart(u: Unicode, t: seq<Piece>)
    ensures Scanned(u, t, 0, [], Scan(false, 0, 0, None, false))
  {
  }

  /** What the open token's variables stand for. */
  lemma ScanFacts(u: Unicode, t: seq<Piece>, n: nat, R: seq<Range>, open: Range, s: Scan)
    requires n <= |t| && Scanned(u, t, n, Begun(R, s.inToken, open), s)
    ensures Segments(u, t, n, Begun(R, s.inToken, open))
    ensures s.inToken ==> open.first <= open.last < n
    ensures s.inToken ==> s.tokStart == Off(t, open.first) && s.tokEnd == Off(t, open.last + 1)
    ensures !s.inToken ==> s.pending == None
  {
    if s.inToken {
      assert (R + [open])[|R|] == open;
    }
  }

  /** A word rune that starts a new token. */
  lemma ScanOpen(u: Unicode, t: seq<Piece>, n: nat, R: seq<Range>, s: Scan)
    requires n < |t| && Scanned(u, t, n, R, s) && Word(u, t[n])
    requires s.inToken ==> !Joins(u, s, t[n].c)
    ensures Scanned(u, t, n + 1, R + [Range(n, n)],
                    Scan(true, Off(t, n), Off(t, n + 1), None, u.digit(t[n].c)))
  {
    if s.inToken {
      WordAfterOpen(u, t, n, R[|R| - 1], s);
    }
    OpenRange(u, t, n, R);
  }

  /** A word rune that extends the open token. */
  lemma ScanGrow(u: Unicode, t: seq<Piece>, n: nat, R: seq<Range>, open: Range, s: Scan)
    requires n < |t| && Scanned(u, t, n, R + [open], s) && Word(u, t[n])
    requires s.inToken && Joins(u, s, t[n].c)
    ensures Scanned(u, t, n + 1, R + [Range(open.first, n)],
                    Scan(true, s.tokStart, Off(t, n + 1), None, u.digit(t[n].c)))
  {
    assert (R + [open])[|R|] == open;
    WordAfterOpen(u, t, n, open, s);
    GrowRange(u, t, n, R + [open]);
    assert Grown(R + [open], n) == R + [Range(open.first, n)];
  }

  lemma ScanJoin(u: Unicode, t: seq<Piece>, n: nat, R: seq<Range>, s: Scan)
    requires n < |t| && Scanned(u, t, n, R, s) && Join(u, t[n])
    ensures Scanned(u, t, n + 1, R, if s.inToken then s.(pending := Some(t[n].c)) else s)
  {
    SkipPiece(u, t, n, R);
    if !s.inToken {
      CutOffStays(u, t, n);
    }
  }

  lemma ScanHard(u: Unicode, t: seq<Piece>, n: nat, R: seq<Range>, s: Scan)
    requires n < |t| && Scanned(u, t, n, R, s) && Hard(u, t[n])
    ensures Scanned(u, t, n + 1, R, Scan(false, s.tokStart, s.tokEnd, None, false))
  {
    SkipPiece(u, t, n, R);
    forall w | 0 <= w < n + 1 && Word(u, t[w]) ensures exists m | w < m < n + 1 :: Hard(u, t[m]) {
      assert Hard(u, t[n]);
    }
  }

  lemma CutOffStays(u: Unicode, t: seq<Piece>, n: nat)
    requires n < |t| && CutOff(u, t, n) && !Word(u, t[n])
    ensures CutOff(u, t, n + 1)
  {
    forall w | 0 <= w < n + 1 && Word(u, t[w]) ensures exists m | w < m < n + 1 :: Hard(u, t[m]) {
      var m :| w < m < n && Hard(u, t[m]);
    }
  }

  /** The text between two offsets that are piece boundaries a <= b. */
  method SliceText(t: seq<Piece>, start: nat, end: nat, ghost a: nat, ghost b: nat) returns (s: string)
    requires a <= b <= |t| && start == Off(t, a) && end == Off(t, b)
    requires forall m | 0 <= m < b - a :: t[a..b][m].Rune?
    ensures s == Chars(t[a..b])
  {
    s := "";
    var k, i := 0, 0;
    while k < |t|
      invariant 0 <= k <= |t| && i == Off(t, k)
      invariant k < a ==> s == ""
      invariant a <= k <= b ==> Lift(s) == t[a..k]
      invariant b < k ==> Lift(s) == t[a..b]
    {
      if a < k { OffMonotone(t, a, k); } else if k < a { OffMonotone(t, k, a); }
      if b < k { OffMonotone(t, b, k); } else if k < b { OffMonotone(t, k, b); }
      if start <= i < end {
        assert t[k] == t[a..b][k - a];
        assert t[a..k + 1] == t[a..k] + [t[k]];
        s := s + [t[k].c];
      }
      i := i + Size(t[k]);
      k := k + 1;
    }
    LiftInjective(s, Chars(t[a..b]));
  }

  /** All tokens begun so far. */
  function Begun(closed: seq<Range>, inToken: bool, open: Range): seq<Range> {
    if inToken then closed + [open] else closed
  }

  /** The scanner. `k` is the index of the piece whose first byte is at offset `i`. */
  method Tokenize(u: Unicode, t: seq<Piece>) returns (tokens: seq<Token>)
    ensures IsTokenization(u, t, tokens)
  {
    hide Scanned, Segments, TextAt, Word, Join;
    tokens := [];
    ghost var R: seq<Range> := [];
    ghost var open := Range(0, 0);
    ScanStart(u, t);
    var inToken, tokStart, tokEnd := false, 0, 0;
    var pending: Option<char> := None;
    var prevWasDigit := false;
    var i, k := 0, 0;
    while k < |t|
      invariant 0 <= k <= |t| && i == Off(t, k)
      invariant Scanned(u, t, k, Begun(R, inToken, open), Scan(inToken, tokStart, tokEnd, pending, prevWasDigit))
      invariant InBounds(t, R) && tokens == Render(t, R)
    {
      var size := Size(t[k]);
      var bytePos := i;
      ghost var s := Scan(inToken, tokStart, tokEnd, pending, prevWasDigit);
      ScanFacts(u, t, k, R, open, s);
      Kinds(u, t[k]);
      if Word(u, t[k]) {
        var r := t[k].c;
        var joinOK := inToken;
        if inToken && pending.Some? {
          joinOK :=
            if Apostrophe(pending.value) || pending.value == '-' then u.letter(r)
            else pending.value == '.' && u.digit(r) && prevWasDigit;
          if !joinOK {
            tokens := Flush(u, t, k, R, open, tokens, tokStart, tokEnd);
          }
        }
        if joinOK {
          ScanGrow(u, t, k, R, open, s);
          open := Range(open.first, k);
        } else {
          ScanOpen(u, t, k, Begun(R, inToken, open), s);
          R := Begun(R, inToken, open);
          open := Range(k, k);
          inToken := true;
          tokStart := bytePos;
        }
        pending := None;
        tokEnd := bytePos + size;
        prevWasDigit := u.digit(r);
      } else if Join(u, t[k]) {
        ScanJoin(u, t, k, Begun(R, inToken, open), s);
        if inToken {
          pending := Some(t[k].c);
        }
      } else {
        ScanHard(u, t, k, Begun(R, inToken, open), s);
        if inToken {
          tokens := Flush(u, t, k, R, open, tokens, tokStart, tokEnd);
          R := R + [open];
        }
        inToken, pending, prevWasDigit := false, None, false;
      }
      i := i + size;
      k := k + 1;
    }
    ScanFacts(u, t, k, R, open, Scan(inToken, tokStart, tokEnd, pending, prevWasDigit));
    if inToken {
      tokens := Flush(u, t, k, R, open, tokens, tokStart, tokEnd);
      R := R + [open];
    }
    assert Segmentation(u, t, R);
  }

  lemma Kinds(u: Unicode, p: Piece)
    ensures Word(u, p) || Join(u, p) ==> p.Rune?
    ensures Hard(u, p) <==> !Word(u, p) && !Join(u, p)
  {
  }

  /** Closes the open token. */
  method Flush(u: Unicode, t: seq<Piece>, ghost n: nat, ghost R: seq<Range>, ghost open: Range,
               tokens: seq<Token>, tokStart: nat, tokEnd: nat)
      returns (tokens': seq<Token>)
    requires n <= |t| && Segments(u, t, n, R + [open]) && InBounds(t, R)
    requires tokens == Render(t, R)
    requires open.first <= open.last < |t| && tokStart == Off(t, open.first) && tokEnd == Off(t, open.last + 1)
    ensures InBounds(t, R + [open]) && tokens' == Render(t, R + [open])
  {
    hide Agrees, Covers, Off;
    ghost var run := t[open.first..open.last + 1];
    assert (R + [open])[|R|] == open;
    forall m | 0 <= m < |run| ensures run[m].Rune? {
      RangeIsText(u, t, n, R + [open], open, open.first + m);
    }
    var text := SliceText(t, tokStart, tokEnd, open.first, open.last + 1);
    tokens' := tokens + [Token(|tokens|, text, tokStart, tokEnd, "")];
  }

  // ---------------------------------------------------------------- consequences

  /** The specification has one solution, so it says everything the scanner computes. */
  lemma TokenizationUnique(u: Unicode, t: seq<Piece>, a: seq<Token>, b: seq<Token>)
    requires IsTokenization(u, t, a) && IsTokenization(u, t, b)
    ensures a == b
  {
    var R: seq<Range> :| Segmentation(u, t, R) && a == Render(t, R);
    var Q: seq<Range> :| Segmentation(u, t, Q) && b == Render(t, Q);
    SegmentationUnique(u, t, R, Q);
  }

  lemma {:induction false} SegmentationUnique(u: Unicode, t: seq<Piece>, R: seq<Range>, Q: seq<Range>)
    requires Segmentation(u, t, R) && Segmentation(u, t, Q)
    ensures R == Q
  {
    SamePrefix(u, t, R, Q, |R|);
    if |R| < |Q| {
      assert R == Q[..|R|];
      var m := IndexOf(R, u, t, Q[|R|].first);
    }
  }

  lemma IndexOf(R: seq<Range>, u: Unicode, t: seq<Piece>, p: nat) returns (k: nat)
    requires Segmentation(u, t, R) && p < |t| && Word(u, t[p])
    ensures k < |R| && Holds(R[k], p)
  {
    assert Covered(R, p);
    k :| 0 <= k < |R| && Holds(R[k], p);
  }

  lemma {:induction false} SamePrefix(u: Unicode, t: seq<Piece>, R: seq<Range>, Q: seq<Range>, n: nat)
    requires Segmentation(u, t, R) && Segmentation(u, t, Q) && n <= |R|
    ensures n <= |Q| && R[..n] == Q[..n]
  {
    if n > 0 {
      var k := n - 1;
      SamePrefix(u, t, R, Q, k);
      assert forall j | 0 <= j < k :: R[j] == R[..k][j] && Q[j] == Q[..k][j];
      var m := IndexOf(Q, u, t, R[k].first);
      assert m >= k;
      var m' := IndexOf(R, u, t, Q[k].first);
      assert m' >= k;
      assert R[k].first == Q[k].first;
      EndsLater(u, t, R, Q, k);
      EndsLater(u, t, Q, R, k);
      assert R[k] == Q[k];
    }
  }

  lemma SplitAfter(u: Unicode, t: seq<Piece>, R: seq<Range>, k: nat, p: nat)
    requires Shaped(u, t, |t|, R) && k < |R| && R[k].last < p
    ensures !Together(R, R[k].last, p)
  {
    forall m | 0 <= m < |R| ensures !(Holds(R[m], R[k].last) && Holds(R[m], p)) {
    }
  }

  lemma EndsLater(u: Unicode, t: seq<Piece>, R: seq<Range>, Q: seq<Range>, k: nat)
    requires Segmentation(u, t, R) && Segmentation(u, t, Q) && k < |R| && k < |Q|
    requires R[k].first == Q[k].first
    ensures R[k].last >= Q[k].last
  {
    var i := R[k].last;
    if i < Q[k].last {
      var j := NextWord(u, t, i, Q[k].last);
      assert Holds(Q[k], i) && Holds(Q[k], j);
      LinkedInside(u, t, |t|, Q, i, j);
      SplitAfter(u, t, R, k, j);
    }
  }

  /** Tokenizing the text of a token gives that token back, alone and starting at 0. */
  lemma Retokenize(u: Unicode, t: seq<Piece>, tokens: seq<Token>, k: nat)
    requires IsTokenization(u, t, tokens) && k < |tokens|
    ensures var tok := tokens[k];
      tok.Start < tok.End && IsTokenization(u, Lift(tok.Text), [Token(0, tok.Text, 0, tok.End - tok.Start, "")])
  {
    var R: seq<Range> :| Segmentation(u, t, R) && tokens == Render(t, R);
    RetokenizeRange(u, t, R, k);
  }

  lemma RunText(u: Unicode, t: seq<Piece>, R: seq<Range>, k: nat)
    requires Segmentation(u, t, R) && k < |R|
    ensures R[k].first <= R[k].last < |t|
    ensures Lift(TextAt(t, R[k])) == t[R[k].first..R[k].last + 1]
  {
    hide Agrees, Covers, Off, TextAt, Lift;
    TokenText(u, t, R, R[k]);
  }

  lemma RetokenizeRange(u: Unicode, t: seq<Piece>, R: seq<Range>, k: nat)
    requires Segmentation(u, t, R) && k < |R|
    ensures var tok := Render(t, R)[k]; var one := [Range(0, R[k].last - R[k].first)];
      && tok.Start < tok.End
      && Segmentation(u, Lift(tok.Text), one)
      && Render(Lift(tok.Text), one) == [Token(0, tok.Text, 0, tok.End - tok.Start, "")]
  {
    var r := R[k];
    RunText(u, t, R, k);
    SliceSegments(u, t, R, k);
    RenderSlice(t, r, k);
  }

  lemma RenderSlice(t: seq<Piece>, r: Range, k: nat)
    requires r.first <= r.last < |t| && Lift(TextAt(t, r)) == t[r.first..r.last + 1]
    ensures var tok := TokenAt(t, k, r);
      && tok.Start < tok.End
      && TokenAt(t[r.first..r.last + 1], 0, Range(0, r.last - r.first)) ==
        Token(0, tok.Text, 0, tok.End - tok.Start, "")
  {
    hide TextAt, Lift;
    var run := t[r.first..r.last + 1];
    TokenOffsets(t, r, k);
    OffSlice(t, r.first, r.last + 1, |run|);
    assert Off(run, 0) == 0;
    TextSlice(t, r);
  }

  lemma TextSlice(t: seq<Piece>, r: Range)
    requires r.first <= r.last < |t| && Lift(TextAt(t, r)) == t[r.first..r.last + 1]
    ensures TextAt(t[r.first..r.last + 1], Range(0, r.last - r.first)) == TextAt(t, r)
  {
    var run := t[r.first..r.last + 1];
    assert run[0..|run|] == run;
  }

  lemma SliceSegments(u: Unicode, t: seq<Piece>, R: seq<Range>, k: nat)
    requires Segmentation(u, t, R) && k < |R|
    ensures Segmentation(u, t[R[k].first..R[k].last + 1], [Range(0, R[k].last - R[k].first)])
  {
    var r := R[k];
    var run := t[r.first..r.last + 1];
    var one := [Range(0, r.last - r.first)];
    forall i, j | Neighbours(u, run, i, j) && j < |run| ensures Together(one, i, j) && Linked(u, run, i, j) {
      assert Holds(one[0], i) && Holds(one[0], j);
      SliceLinked(u, t, R, k, i, j);
    }
    forall p {:trigger Covered(one, p)} | 0 <= p < |run| && Word(u, run[p]) ensures Covered(one, p) {
      assert Holds(one[0], p);
    }
    assert Agrees(u, run, |run|, one);
    assert Covers(u, run, |run|, one);
  }

  lemma SliceLinked(u: Unicode, t: seq<Piece>, R: seq<Range>, k: nat, i: int, j: int)
    requires Segmentation(u, t, R) && k < |R|
    requires Neighbours(u, t[R[k].first..R[k].last + 1], i, j)
    ensures Linked(u, t[R[k].first..R[k].last + 1], i, j)
  {
    var a := R[k].first;
    NeighboursInSlice(u, t, a, R[k].last + 1, i, j);
    assert Together(R, a + i, a + j) by { assert Holds(R[k], a + i) && Holds(R[k], a + j); }
    LinkedInside(u, t, |t|, R, a + i, a + j);
    LinkedInSlice(u, t, a, R[k].last + 1, i, j);
  }

  lemma NeighboursInSlice(u: Unicode, t: seq<Piece>, a: nat, b: nat, i: int, j: int)
    requires a <= b <= |t| && Neighbours(u, t[a..b], i, j)
    ensures Neighbours(u, t, a + i, a + j)
  {
    forall m | a + i < m < a + j ensures !Word(u, t[m]) { assert t[a..b][m - a] == t[m]; }
  }

  lemma LinkedInSlice(u: Unicode, t: seq<Piece>, a: nat, b: nat, i: int, j: int)
    requires a <= b <= |t| && Neighbours(u, t[a..b], i, j)
    requires Neighbours(u, t, a + i, a + j) && Linked(u, t, a + i, a + j)
    ensures Linked(u, t[a..b], i, j)
  {
    forall m | i < m < j ensures Join(u, t[a..b][m]) { assert t[a..b][m] == t[a + m]; }
  }

  /** What every later stage assumes of a token list: positions, order and bounds. */
  predicate Ordered(t: seq<Piece>, tokens: seq<Token>) {
    && (forall k | 0 <= k < |tokens| :: tokens[k].Index == k && tokens[k].Start < tokens[k].End <= Off(t, |t|))
    && (forall j, k | 0 <= j < k < |tokens| :: tokens[j].End < tokens[k].Start)
  }

  lemma TokenText(u: Unicode, t: seq<Piece>, R: seq<Range>, r: Range)
    requires Agrees(u, t, |t|, R) && r in R && r.first <= r.last < |t|
    requires Word(u, t[r.first]) && Word(u, t[r.last])
    ensures Lift(TextAt(t, r)) == t[r.first..r.last + 1]
  {
    hide Agrees, Off;
    var run := t[r.first..r.last + 1];
    forall m | 0 <= m < |run| ensures run[m].Rune? {
      RangeIsText(u, t, |t|, R, r, r.first + m);
    }
  }

  lemma TokenOffsets(t: seq<Piece>, r: Range, k: nat)
    requires r.first <= r.last < |t|
    ensures TokenAt(t, k, r).Start < TokenAt(t, k, r).End <= Off(t, |t|)
  {
    hide Off, TextAt;
    OffMonotone(t, r.first, r.last + 1);
    if r.last + 1 < |t| { OffMonotone(t, r.last + 1, |t|); }
  }

  /** Adjacent word runes are always linked, so two tokens never touch. */
  lemma GapBetween(u: Unicode, t: seq<Piece>, R: seq<Range>, j: nat, k: nat)
    requires Segmentation(u, t, R) && j < k < |R|
    ensures R[j].last + 1 < R[k].first
    ensures Render(t, R)[j].End < Render(t, R)[k].Start
  {
    var i := R[j].last;
    SplitAfter(u, t, R, j, i + 1);
    if i + 1 == R[k].first {
      assert Neighbours(u, t, i, i + 1);
    }
    OffMonotone(t, i + 1, R[k].first);
  }

  /** The text between byte offsets a and b is s. */
  ghost predicate SliceIs(t: seq<Piece>, a: nat, b: nat, s: string) {
    exists i, j | 0 <= i <= j <= |t| :: a == Off(t, i) && b == Off(t, j) && t[i..j] == Lift(s)
  }

  /** The tokens of a text satisfy it, and each token's text is the slice between its offsets. */
  lemma TokensOrdered(u: Unicode, t: seq<Piece>, tokens: seq<Token>)
    requires IsTokenization(u, t, tokens)
    ensures Ordered(t, tokens)
    ensures forall tok | tok in tokens :: SliceIs(t, tok.Start, tok.End, tok.Text)
  {
    var R: seq<Range> :| Segmentation(u, t, R) && tokens == Render(t, R);
    RangesOrdered(u, t, R);
    forall k | 0 <= k < |R| ensures SliceIs(t, tokens[k].Start, tokens[k].End, tokens[k].Text) {
      assert tokens[k] == TokenAt(t, k, R[k]);
      assert t[R[k].first..R[k].last + 1] == Lift(tokens[k].Text);
    }
  }

  lemma RangesOrdered(u: Unicode, t: seq<Piece>, R: seq<Range>)
    requires Segmentation(u, t, R)
    ensures Ordered(t, Render(t, R))
    ensures forall k | 0 <= k < |R| ::
      Lift(Render(t, R)[k].Text) == t[R[k].first..R[k].last + 1]
  {
    hide Agrees, Covers, Lift, Off, TextAt;
    var tokens := Render(t, R);
    forall k | 0 <= k < |R|
      ensures tokens[k].Start < tokens[k].End <= Off(t, |t|)
      ensures Lift(tokens[k].Text) == t[R[k].first..R[k].last + 1]
    {
      TokenOffsets(t, R[k], k);
      TokenText(u, t, R, R[k]);
    }
    forall j, k | 0 <= j < k < |R| ensures tokens[j].End < tokens[k].Start {
      GapBetween(u, t, R, j, k);
    }
  }

  /** A text has no tokens exactly when it has no word runes. */
  lemma NoTokensIffNoWords(u: Unicode, t: seq<Piece>, tokens: seq<Token>)
    requires IsTokenization(u, t, tokens)
    ensures tokens == [] <==> forall p | p in t :: !Word(u, p)
  {
    var R: seq<Range> :| Segmentation(u, t, R) && tokens == Render(t, R);
    if p :| p in t && Word(u, p) {
      var k :| 0 <= k < |t| && t[k] == p;
      var m := IndexOf(R, u, t, k);
    }
    if R != [] {
      assert t[R[0].first] in t;
    }
  }

  /** Where a token stands, and that it holds nothing but word runes and join characters. */
  lemma TokenRange(u: Unicode, t: seq<Piece>, tokens: seq<Token>, k: nat) returns (r: Range)
    requires IsTokenization(u, t, tokens) && k < |tokens|
    ensures r.first <= r.last < |t| && Word(u, t[r.first]) && Word(u, t[r.last])
    ensures tokens[k].Start == Off(t, r.first) && tokens[k].End == Off(t, r.last + 1)
    ensures forall m | r.first <= m <= r.last :: !Hard(u, t[m])
  {
    hide Off, TextAt;
    var R: seq<Range> :| Segmentation(u, t, R) && tokens == Render(t, R);
    r := R[k];
    assert tokens[k] == TokenAt(t, k, r);
    hide Agrees;
    forall m | r.first <= m <= r.last ensures !Hard(u, t[m]) {
      RangeIsText(u, t, |t|, R, r, m);
    }
  }

  // ---------------------------------------------------------------- what the package comment says

  /** Joining as the package comment describes it: one apostrophe or hyphen between two letters, one period
      between two digits. */
  predicate Documented(u: Unicode, t: seq<Piece>, i: int, j: int)
    requires Neighbours(u, t, i, j)
  {
    j == i + 1 ||
    (j == i + 2 && Join(u, t[i + 1]) &&
     if t[i + 1].c == '.' then u.digit(t[i].c) && u.digit(t[j].c) else u.letter(t[i].c) && u.letter(t[j].c))
  }

  /** The code joins all that and more: exactly across longer runs of join characters, and from a rune that is no
      letter across an apostrophe or hyphen. */
  lemma JoinsBeyondComment(u: Unicode, t: seq<Piece>, i: int, j: int)
    requires Neighbours(u, t, i, j)
    ensures Documented(u, t, i, j) ==> Linked(u, t, i, j)
    ensures Linked(u, t, i, j) ==>
      (Documented(u, t, i, j) <==> j == i + 1 || (j == i + 2 && (t[i + 1].c == '.' || u.letter(t[i].c))))
  {
  }

  /** Two neighbouring word runes are one token exactly when nothing lies between them, or only apostrophes (straight or
      typographic), hyphens and full stops: the last a full stop and both runes digits, or the last one of the others
      and the second rune a letter. */
  lemma LinkedMeans(u: Unicode, t: seq<Piece>, i: int, j: int)
    requires Neighbours(u, t, i, j)
    ensures Linked(u, t, i, j) <==>
      j == i + 1 ||
      ((forall k | i < k < j :: t[k].Rune? && (t[k].c in "-.'" || t[k].c == '\U{2019}')) &&
       if t[j - 1].c == '.' then u.digit(t[i].c) && u.digit(t[j].c) else u.letter(t[j].c))
  {
    assert forall k | i < k < j :: !Word(u, t[k]);
  }

  /** A word rune, an apostrophe and a letter: one token, though a digit begins it. */
  lemma DigitApostropheLetter(u: Unicode, t: seq<Piece>)
    requires t == Lift("3'a") && u.digit('3') && !u.letter('3') && u.letter('a') && !u.letter('\'') && !u.digit('\'')
    ensures Neighbours(u, t, 0, 2) && Linked(u, t, 0, 2) && !Documented(u, t, 0, 2)
  {
    assert t[0] == Rune('3') && t[1] == Rune('\'') && t[2] == Rune('a');
  }

  ghost predicate AllLinked(u: Unicode, t: seq<Piece>) {
    forall i, j | Neighbours(u, t, i, j) :: Linked(u, t, i, j)
  }

  lemma OneRange(u: Unicode, t: seq<Piece>)
    requires t != [] && Word(u, t[0]) && Word(u, t[|t| - 1]) && AllLinked(u, t)
    ensures Segmentation(u, t, [Range(0, |t| - 1)])
  {
    var R := [Range(0, |t| - 1)];
    forall p {:trigger Covered(R, p)} | 0 <= p < |t| && Word(u, t[p]) ensures Covered(R, p) {
      assert Holds(R[0], p);
    }
    forall i, j | Neighbours(u, t, i, j) && j < |t| ensures Together(R, i, j) {
      assert Holds(R[0], i) && Holds(R[0], j);
    }
    hide Linked;
  }

  /** A text whose neighbouring word runes are all linked, and that begins and ends with one, is one token. */
  lemma OneToken(u: Unicode, s: string)
    requires s != "" && Word(u, Rune(s[0])) && Word(u, Rune(s[|s| - 1])) && AllLinked(u, Lift(s))
    ensures IsTokenization(u, Lift(s), [Token(0, s, 0, Off(Lift(s), |s|), "")])
  {
    hide AllLinked, Segmentation, Word;
    var t := Lift(s);
    var R := [Range(0, |s| - 1)];
    assert t[0] == Rune(s[0]) && t[|s| - 1] == Rune(s[|s| - 1]);
    OneRange(u, t);
    WholeText(s);
    OffStart(t);
    hide Off, TextAt, Lift;
    assert Render(t, R)[0] == TokenAt(t, 0, R[0]);
    assert Render(t, R) == [Token(0, s, 0, Off(t, |s|), "")];
  }

  lemma WholeText(s: string)
    requires s != ""
    ensures TextAt(Lift(s), Range(0, |s| - 1)) == s
  {
    assert Lift(s)[0..|s|] == Lift(s);
    LiftInjective(TextAt(Lift(s), Range(0, |s| - 1)), s);
  }

  lemma OffStart(t: seq<Piece>)
    ensures Off(t, 0) == 0
  {
  }

  /** Two runs of letters with a hyphen or an apostrophe, or several, between them are one token. */
  lemma CompoundIsOneToken(u: Unicode, a: string, joins: string, b: string)
    requires AsciiText(u) && a != "" && b != "" && joins != ""
    requires forall c | c in a || c in b :: u.letter(c)
    requires (forall c | c in joins :: c in "-'.") && joins[|joins| - 1] != '.'
    ensures var s := a + joins + b; IsTokenization(u, Lift(s), [Token(0, s, 0, Off(Lift(s), |s|), "")])
  {
    var s := a + joins + b;
    var t := Lift(s);
    forall k | 0 <= k < |s| ensures t[k] == Rune(s[k]) && (|a| <= k < |a| + |joins| ==> Join(u, t[k])) &&
      (k < |a| || |a| + |joins| <= k ==> Word(u, t[k]))
    {
      assert k < |a| ==> s[k] == a[k] && a[k] in a;
      assert |a| <= k < |a| + |joins| ==> s[k] == joins[k - |a|] && joins[k - |a|] in joins;
      assert |a| + |joins| <= k ==> s[k] == b[k - |a| - |joins|] && b[k - |a| - |joins|] in b;
    }
    forall i, j | Neighbours(u, t, i, j) ensures Linked(u, t, i, j) {
      assert i + 1 < |a| || |a| + |joins| <= i ==> Word(u, t[i + 1]);
      assert Word(u, t[|a| + |joins|]);
      assert j != i + 1 ==> i == |a| - 1 && j == |a| + |joins|;
    }
    assert AllLinked(u, t);
    OneToken(u, s);
  }

  /** Two join characters between letters, of which the comment speaks nowhere: still one token. */
  lemma HyphenApostropheLetter(u: Unicode)
    requires AsciiText(u)
    ensures IsTokenization(u, Lift("a-'b"), [Token(0, "a-'b", 0, 4, "")])
    ensures Neighbours(u, Lift("a-'b"), 0, 3) && !Documented(u, Lift("a-'b"), 0, 3)
  {
    var s := "a-'b";
    assert "a" + "-'" + "b" == s;
    CompoundIsOneToken(u, "a", "-'", "b");
    var t := Lift(s);
    AsciiOff(s, 4);
    assert t[0] == Rune('a') && t[1] == Rune('-') && t[2] == Rune('\'') && t[3] == Rune('b');
  }
}
