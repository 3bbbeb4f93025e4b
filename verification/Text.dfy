/** Source text as the Go code sees it: a string decoded rune by rune, with byte offsets. */
module Text {

  /** One step of utf8.DecodeRuneInString: a rune, or a byte that is not part of valid UTF-8. */
  datatype Piece = Rune(c: char) | BadByte

  /** The character tables the code takes from the Unicode library. */
  datatype Unicode = Unicode(
    letter: char -> bool,
    digit: char -> bool,
    number: char -> bool,
    space: char -> bool,
    lower: char -> char)

  /** Lower-case ASCII letters are letters in lower case; the punctuation of the examples is no letter or number. */
  predicate AsciiText(u: Unicode) {
    (forall c | 'a' <= c <= 'z' :: u.letter(c) && !u.digit(c) && u.lower(c) == c) &&
    forall c | c in " .-'" :: !u.letter(c) && !u.digit(c) && !u.number(c) && u.lower(c) == c
  }

  /** Encoded length of a code point (section 3 of RFC 3629). */
  function Utf8Len(c: char): nat {
    if c as int < 0x80 then 1
    else if c as int < 0x800 then 2
    else if c as int < 0x10000 then 3
    else 4
  }

  function Size(p: Piece): nat {
    match p
    case Rune(c) => Utf8Len(c)
    case BadByte => 1
  }

  /** Byte offset at which piece k of t starts; Off(t, |t|) is len(text). */
  function Off(t: seq<Piece>, k: nat): nat
    requires k <= |t|
  {
    if k == 0 then 0 else Off(t, k - 1) + Size(t[k - 1])
  }

  lemma OffMonotone(t: seq<Piece>, i: nat, j: nat)
    requires i < j <= |t|
    ensures Off(t, i) < Off(t, j)
  {
    if i + 1 < j {
      OffMonotone(t, i, j - 1);
    }
  }

  /** Offsets inside a slice are offsets in the whole text, shifted. */
  lemma {:induction false} OffSlice(t: seq<Piece>, a: nat, b: nat, k: nat)
    requires a <= b <= |t| && k <= b - a
    ensures Off(t[a..b], k) == Off(t, a + k) - Off(t, a)
  {
    if k > 0 {
      OffSlice(t, a, b, k - 1);
      assert t[a..b][k - 1] == t[a + k - 1];
    }
  }

  /** The pieces of a valid string. */
  function Lift(s: string): (t: seq<Piece>)
    ensures |t| == |s|
  {
    seq(|s|, i requires 0 <= i < |s| => Rune(s[i]))
  }

  /** The characters of a run of pieces that holds no invalid byte. */
  function Chars(t: seq<Piece>): (s: string)
    requires forall i | 0 <= i < |t| :: t[i].Rune?
    ensures Lift(s) == t
  {
    var s := seq(|t|, i requires 0 <= i < |t| => t[i].c);
    assert forall i | 0 <= i < |t| :: Lift(s)[i] == t[i];
    s
  }

  lemma LiftInjective(a: string, b: string)
    requires Lift(a) == Lift(b)
    ensures a == b
  {
    forall i | 0 <= i < |a| ensures a[i] == b[i] {
      assert Lift(a)[i] == Lift(b)[i];
    }
  }

  /** How many pieces start before a byte offset. */
  function At(t: seq<Piece>, off: int): (k: nat)
    ensures k <= |t|
  {
    if t == [] then 0
    else if Off(t, |t| - 1) < off then |t|
    else At(t[..|t| - 1], off)
  }

  lemma {:induction false} OffPrefix(t: seq<Piece>, n: nat, k: nat)
    requires k <= n <= |t|
    ensures Off(t[..n], k) == Off(t, k)
  {
    if k > 0 {
      OffPrefix(t, n, k - 1);
    }
  }

  lemma {:induction false} AtOff(t: seq<Piece>, k: nat)
    requires k <= |t|
    ensures At(t, Off(t, k)) == k
  {
    if t != [] {
      var n := |t| - 1;
      if k == |t| {
        OffMonotone(t, n, k);
      } else {
        if k < n { OffMonotone(t, k, n); }
        AtOff(t[..n], k);
        OffPrefix(t, n, k);
      }
    }
  }

  /** The text between two byte offsets. */
  function Cut(t: seq<Piece>, a: int, b: int): seq<Piece> {
    if At(t, a) <= At(t, b) then t[At(t, a)..At(t, b)] else []
  }

  lemma CutAt(t: seq<Piece>, i: nat, j: nat)
    requires i <= j <= |t|
    ensures Cut(t, Off(t, i), Off(t, j)) == t[i..j]
  {
    AtOff(t, i);
    AtOff(t, j);
  }

  /** In ASCII text offsets are positions. */
  lemma {:induction false} AsciiOff(s: string, k: nat)
    requires k <= |s| && forall i | 0 <= i < |s| :: s[i] as int < 0x80
    ensures Off(Lift(s), k) == k
  {
    if k > 0 {
      AsciiOff(s, k - 1);
    }
  }
}
