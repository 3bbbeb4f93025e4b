/** frontend/src/lib/vocab/key.ts: the client's normal form, when it is the server's, and the keys built on it. */
module ClientKey {
  import opened Model
  import opened Text
  import opened VocabKey

  // ---------------------------------------------------------------- lower case in JavaScript

  const CAPITAL_SIGMA := '\U{03A3}'
  const SMALL_SIGMA := '\U{03C3}'
  const FINAL_SIGMA := '\U{03C2}'
  const DOTTED_I := '\U{0130}'
  const DOT_ABOVE := '\U{0307}'

  /** The two properties of characters the rule for a capital sigma looks at. */
  datatype Casing = Casing(cased: char -> bool, ignorable: char -> bool)

  /** What the Unicode tables say of the two characters with a special rule, and of the space. */
  predicate CaseTables(u: Unicode, g: Casing) {
    u.lower(CAPITAL_SIGMA) == SMALL_SIGMA && u.lower(FINAL_SIGMA) == FINAL_SIGMA &&
    Keep(u, SMALL_SIGMA) && Keep(u, FINAL_SIGMA) &&
    u.lower(DOTTED_I) == 'i' && u.lower(DOT_ABOVE) == DOT_ABOVE && Keep(u, 'i') && !Keep(u, DOT_ABOVE) &&
    !g.cased(' ') && !g.ignorable(' ')
  }

  /** A cased letter comes before place i, with nothing but ignorable characters in between. */
  predicate CasedBefore(g: Casing, s: string, i: nat)
    requires i <= |s|
  {
    exists k | 0 <= k < i :: g.cased(s[k]) && forall j | k < j < i :: g.ignorable(s[j])
  }

  predicate CasedAfter(g: Casing, s: string, i: nat)
    requires i < |s|
  {
    exists k | i < k < |s| :: g.cased(s[k]) && forall j | i < j < k :: g.ignorable(s[j])
  }

  /** A capital sigma that ends a word. */
  predicate EndsWord(g: Casing, s: string, i: nat)
    requires i < |s|
  {
    s[i] == CAPITAL_SIGMA && CasedBefore(g, s, i) && !CasedAfter(g, s, i)
  }

  /** A sigma at the end of a word becomes the final form, a capital I with a dot two characters; all others go one
      by one, as in Go. */
  function LowerAt(u: Unicode, g: Casing, s: string, i: nat): string
    requires i < |s|
  {
    if EndsWord(g, s, i) then [FINAL_SIGMA]
    else if s[i] == DOTTED_I then ['i', DOT_ABOVE]
    else [u.lower(s[i])]
  }

  /** The first n characters of s in lower case. */
  function LowerTo(u: Unicode, g: Casing, s: string, n: nat): string
    requires n <= |s|
  {
    if n == 0 then "" else LowerTo(u, g, s, n - 1) + LowerAt(u, g, s, n - 1)
  }

  function ToLowerCase(u: Unicode, g: Casing, s: string): string {
    LowerTo(u, g, s, |s|)
  }

  // ---------------------------------------------------------------- the client's normal form

  /** Every run of other characters becomes one space ... */
  function Collapse(u: Unicode, s: string): string {
    if s == "" then ""
    else if Keep(u, Last(s)) then Collapse(u, Front(s)) + [Last(s)]
    else if |s| > 1 && !Keep(u, Last(Front(s))) then Collapse(u, Front(s))
    else Collapse(u, Front(s)) + [' ']
  }

  /** ... and the ends are trimmed. */
  function NormalizeTS(u: Unicode, g: Casing, s: string): string {
    Trim(u, Collapse(u, ToLowerCase(u, g, s)))
  }

  function Lead(u: Unicode, s: string): string {
    if s != "" && !Keep(u, s[0]) then " " else ""
  }

  function Trail(u: Unicode, s: string): string {
    if s != "" && !Keep(u, Last(s)) && Words(u, s) != [] then " " else ""
  }

  lemma {:induction false} CollapseShape(u: Unicode, s: string)
    ensures Collapse(u, s) == Lead(u, s) + Join(Words(u, s), ' ') + Trail(u, s)
    ensures s != "" && Words(u, s) == [] ==> !Keep(u, s[0]) && !Keep(u, Last(s))
  {
    if s != "" {
      var f, c := Front(s), Last(s);
      CollapseShape(u, f);
      if f != "" {
        assert f[0] == s[0];
        if Keep(u, c) {
          if Keep(u, Last(f)) {
            JoinGrow(Words(u, f), ' ', c);
          } else {
            JoinSnoc(Words(u, f), ' ', [c]);
          }
        }
      }
    }
  }

  lemma {:induction false} JoinEnds(u: Unicode, ws: seq<string>)
    requires ws != [] && forall k | 0 <= k < |ws| :: IsWord(u, ws[k])
    ensures var j := Join(ws, ' '); j != "" && Keep(u, j[0]) && Keep(u, Last(j))
  {
    if |ws| > 1 {
      JoinEnds(u, Front(ws));
    }
  }

  /** Replacing and trimming joins the words of the lowered string by single spaces. */
  lemma NormalizeTSMeans(u: Unicode, g: Casing, s: string)
    requires WellFormed(u)
    ensures NormalizeTS(u, g, s) == Join(Words(u, ToLowerCase(u, g, s)), ' ')
  {
    TrimmedMeans(u, ToLowerCase(u, g, s));
  }

  lemma TrimmedMeans(u: Unicode, low: string)
    requires WellFormed(u)
    ensures Trim(u, Collapse(u, low)) == Join(Words(u, low), ' ')
  {
    var ws := Words(u, low);
    var j := Join(ws, ' ');
    CollapseShape(u, low);
    WordsAreWords(u, low);
    if ws == [] {
      assert Collapse(u, low) == "" || Collapse(u, low) == " ";
      assert " "[1..] == "";
    } else {
      JoinEnds(u, ws);
      var tail := j + Trail(u, low);
      assert TrimStart(u, Collapse(u, low)) == tail by {
        assert Collapse(u, low) == Lead(u, low) + tail;
        assert tail[0] == j[0];
        assert Lead(u, low) == " " ==> (Lead(u, low) + tail)[1..] == tail;
        assert Lead(u, low) == "" ==> Lead(u, low) + tail == tail;
      }
      assert TrimEnd(u, tail) == j by {
        assert Trail(u, low) == " " ==> Front(tail) == j;
        assert Trail(u, low) == "" ==> tail == j;
      }
    }
  }

  // ---------------------------------------------------------------- when it is the server's

  /** A capital I with a dot inside a word: the dot it leaves behind splits the word. */
  predicate SplitsWord(u: Unicode, s: string, i: nat) {
    i + 1 < |s| && s[i] == DOTTED_I && Keep(u, u.lower(s[i + 1]))
  }

  /** The two lowerings, up to place n. */
  lemma LowerSnoc(u: Unicode, g: Casing, s: string, n: nat)
    requires n < |s|
    ensures Lower(u, s)[..n + 1] == Lower(u, s)[..n] + [u.lower(s[n])]
    ensures LowerTo(u, g, s, n + 1) == LowerTo(u, g, s, n) + LowerAt(u, g, s, n)
    ensures CaseTables(u, g) && s[n] == DOTTED_I ==>
      LowerTo(u, g, s, n + 1) == (LowerTo(u, g, s, n) + ['i']) + [DOT_ABOVE]
  {
  }

  lemma NothingLowered(u: Unicode, g: Casing, s: string)
    ensures Lower(u, s)[..0] == "" && LowerTo(u, g, s, 0) == "" && Letters(u, "") == "" && Words(u, "") == []
  {
  }

  /** Without such characters the words are the same. */
  lemma {:induction false} SameWords(u: Unicode, g: Casing, s: string, n: nat)
    requires CaseTables(u, g) && n <= |s|
    requires forall i | 0 <= i < n :: !EndsWord(g, s, i)
    requires forall i | 0 <= i < n - 1 :: !SplitsWord(u, s, i)
    ensures var a, b := Lower(u, s)[..n], LowerTo(u, g, s, n);
      && Words(u, b) == Words(u, a)
      && (n > 0 ==> b != "" && (s[n - 1] != DOTTED_I ==> Last(b) == Last(a)))
  {
    hide CasedBefore, CasedAfter, Words, Lower, LowerTo;
    NothingLowered(u, g, s);
    if n > 0 {
      SameWords(u, g, s, n - 1);
      LowerSnoc(u, g, s, n - 1);
      var a, b, c := Lower(u, s)[..n - 1], LowerTo(u, g, s, n - 1), s[n - 1];
      WordsSnoc(u, a, u.lower(c));
      WordsSnoc(u, b, u.lower(c));
      WordsSnoc(u, b + ['i'], DOT_ABOVE);
      assert n > 1 ==> !SplitsWord(u, s, n - 2);
    }
  }

  /** Word characters in order, spaces forgotten. */
  function Letters(u: Unicode, s: string): string {
    if s == "" then "" else Letters(u, Front(s)) + if Keep(u, Last(s)) then [Last(s)] else []
  }

  lemma LettersSnoc(u: Unicode, s: string, c: char)
    ensures Letters(u, s + [c]) == Letters(u, s) + if Keep(u, c) then [c] else []
  {
    assert Front(s + [c]) == s;
  }

  function Concat(ws: seq<string>): string {
    if ws == [] then "" else Concat(Front(ws)) + Last(ws)
  }

  lemma {:induction false} LettersOfWords(u: Unicode, s: string)
    ensures Letters(u, s) == Concat(Words(u, s))
  {
    if s != "" {
      LettersOfWords(u, Front(s));
      var ws, c := Words(u, Front(s)), Last(s);
      if Keep(u, c) {
        if |s| > 1 && Keep(u, Last(Front(s))) {
          assert Front(Front(ws) + [Last(ws) + [c]]) == Front(ws);
          assert Concat(Front(ws)) + (Last(ws) + [c]) == Concat(ws) + [c];
        } else {
          assert Front(ws + [[c]]) == ws;
        }
      }
    }
  }

  /** One more character, lowered either way. */
  lemma LettersStep(u: Unicode, g: Casing, s: string, n: nat)
    requires CaseTables(u, g) && n < |s|
    ensures var c := u.lower(s[n]); var kept := if Keep(u, c) then [c] else [];
      && Letters(u, Lower(u, s)[..n + 1]) == Letters(u, Lower(u, s)[..n]) + kept
      && Letters(u, LowerTo(u, g, s, n + 1)) ==
           Letters(u, LowerTo(u, g, s, n)) + if EndsWord(g, s, n) then [FINAL_SIGMA] else kept
  {
    LowerSnoc(u, g, s, n);
    var a, b, c := Lower(u, s)[..n], LowerTo(u, g, s, n), u.lower(s[n]);
    LettersSnoc(u, a, c);
    if EndsWord(g, s, n) {
      LettersSnoc(u, b, FINAL_SIGMA);
    } else if s[n] == DOTTED_I {
      LettersSnoc(u, b, 'i');
      LettersSnoc(u, b + ['i'], DOT_ABOVE);
    } else {
      LettersSnoc(u, b, c);
    }
    hide Letters, Lower, LowerTo;
  }

  /** A final sigma shows in the letters. */
  lemma {:induction false} SigmaShows(u: Unicode, g: Casing, s: string, n: nat)
    requires CaseTables(u, g) && n <= |s|
    ensures var a, b := Letters(u, Lower(u, s)[..n]), Letters(u, LowerTo(u, g, s, n));
      |a| == |b| && (a == b ==> forall i | 0 <= i < n :: !EndsWord(g, s, i))
  {
    hide Letters, Lower, LowerTo, CasedBefore, CasedAfter;
    NothingLowered(u, g, s);
    if n > 0 {
      SigmaShows(u, g, s, n - 1);
      LettersStep(u, g, s, n - 1);
      var a, b := Letters(u, Lower(u, s)[..n - 1]), Letters(u, LowerTo(u, g, s, n - 1));
      var c := u.lower(s[n - 1]);
      SnocEqual(a, b, c, if EndsWord(g, s, n - 1) then FINAL_SIGMA else c);
      assert EndsWord(g, s, n - 1) ==> c == SMALL_SIGMA;
      assert a + [] == a && b + [] == b;
    }
  }

  lemma SnocEqual(a: string, b: string, x: char, y: char)
    requires |a| == |b|
    ensures a + [x] == b + [y] <==> a == b && x == y
  {
    if a + [x] == b + [y] {
      assert (a + [x])[..|a|] == (b + [y])[..|a|];
      assert (a + [x])[|a|] == (b + [y])[|a|];
    }
  }

  /** The number of words after one more character. */
  lemma CountSnoc(u: Unicode, s: string, c: char)
    ensures |Words(u, s + [c])| == |Words(u, s)| + if Keep(u, c) && !(s != "" && Keep(u, Last(s))) then 1 else 0
  {
    WordsSnoc(u, s, c);
  }

  /** One more character of the client's lower case: a dot above ends the word its capital I is in. */
  lemma CountStep(u: Unicode, g: Casing, s: string, n: nat)
    requires CaseTables(u, g) && n < |s|
    ensures var b, b' := LowerTo(u, g, s, n), LowerTo(u, g, s, n + 1); var kept := Keep(u, u.lower(s[n]));
      && |Words(u, b')| == |Words(u, b)| + (if kept && !(b != "" && Keep(u, Last(b))) then 1 else 0)
      && b' != "" && (Keep(u, Last(b')) <==> kept && s[n] != DOTTED_I)
  {
    LowerSnoc(u, g, s, n);
    var b, c := LowerTo(u, g, s, n), u.lower(s[n]);
    if EndsWord(g, s, n) {
      CountSnoc(u, b, FINAL_SIGMA);
    } else if s[n] == DOTTED_I {
      CountSnoc(u, b, 'i');
      CountSnoc(u, b + ['i'], DOT_ABOVE);
    } else {
      CountSnoc(u, b, c);
    }
    hide Words, LowerTo;
  }

  /** A dot inside a word shows in the number of words. */
  lemma {:induction false} DotShows(u: Unicode, g: Casing, s: string, n: nat)
    requires CaseTables(u, g) && n <= |s|
    ensures var a, b := Lower(u, s)[..n], LowerTo(u, g, s, n);
      && |Words(u, a)| <= |Words(u, b)|
      && ((exists i | 0 <= i < n - 1 :: SplitsWord(u, s, i)) ==> |Words(u, a)| < |Words(u, b)|)
      && (n == 0 ==> b == "")
      && (n > 0 ==> b != "" && (Keep(u, Last(b)) <==> s[n - 1] != DOTTED_I && Keep(u, u.lower(s[n - 1]))))
  {
    hide Words, Lower, LowerTo;
    NothingLowered(u, g, s);
    if n > 0 {
      DotShows(u, g, s, n - 1);
      LowerSnoc(u, g, s, n - 1);
      if n > 1 {
        LowerSnoc(u, g, s, n - 2);
      }
      CountSnoc(u, Lower(u, s)[..n - 1], u.lower(s[n - 1]));
      CountStep(u, g, s, n - 1);
    }
  }

  /** The two normalisers agree on a text exactly when no capital sigma ends a word in it and no capital I with a dot
      stands right before a letter or digit. */
  lemma NormalizersAgree(u: Unicode, g: Casing, s: string)
    requires WellFormed(u) && CaseTables(u, g)
    ensures NormalizeTS(u, g, s) == NormalForm(u, s) <==>
      forall i | 0 <= i < |s| :: !EndsWord(g, s, i) && !SplitsWord(u, s, i)
  {
    var a, b := Lower(u, s), ToLowerCase(u, g, s);
    assert a == a[..|s|];
    if forall i | 0 <= i < |s| :: !EndsWord(g, s, i) && !SplitsWord(u, s, i) {
      SameWords(u, g, s, |s|);
    }
    SigmaShows(u, g, s, |s|);
    DotShows(u, g, s, |s|);
    hide Words, Join, Lower, IsWord, Letters, Concat, EndsWord, LowerTo;
    NormalizeTSMeans(u, g, s);
    WordsAreWords(u, a);
    WordsAreWords(u, b);
    WordsOfJoin(u, Words(u, a));
    WordsOfJoin(u, Words(u, b));
    LettersOfWords(u, a);
    LettersOfWords(u, b);
  }

  /** They always do on text the server has lowered, as the lemmas it sends. */
  lemma AgreeOnceLowered(u: Unicode, g: Casing, s: string)
    requires WellFormed(u) && CaseTables(u, g)
    ensures NormalizeTS(u, g, Lower(u, s)) == NormalForm(u, s)
  {
    var low := Lower(u, s);
    assert Lower(u, low) == low;
    assert forall i | 0 <= i < |low| :: u.lower(low[i]) == low[i];
    NormalizersAgree(u, g, low);
  }

  /** They do not always: a capital sigma after any other cased letter, at the end of the text, is lowered to the final
      form by JavaScript and to the ordinary one by Go. */
  lemma FinalSigmaDiffers(u: Unicode, g: Casing, a: char)
    requires WellFormed(u) && CaseTables(u, g) && g.cased(a) && Keep(u, u.lower(a)) && a !in [CAPITAL_SIGMA, DOTTED_I]
    ensures NormalForm(u, [a, CAPITAL_SIGMA]) == [u.lower(a), SMALL_SIGMA]
    ensures NormalizeTS(u, g, [a, CAPITAL_SIGMA]) == [u.lower(a), FINAL_SIGMA]
  {
    var s, go, js := [a, CAPITAL_SIGMA], [u.lower(a), SMALL_SIGMA], [u.lower(a), FINAL_SIGMA];
    SigmaLower(u, g, a, s);
    assert IsWord(u, go) && IsWord(u, js);
    hide Words, Join, ToLowerCase, Lower, NormalizeTS, IsWord;
    NormalizeTSMeans(u, g, s);
    WordsOfWord(u, go);
    WordsOfWord(u, js);
    JoinOne(go);
    JoinOne(js);
  }

  lemma SigmaLower(u: Unicode, g: Casing, a: char, s: string)
    requires CaseTables(u, g) && g.cased(a) && a !in [CAPITAL_SIGMA, DOTTED_I] && s == [a, CAPITAL_SIGMA]
    ensures Lower(u, s) == [u.lower(a), SMALL_SIGMA] && ToLowerCase(u, g, s) == [u.lower(a), FINAL_SIGMA]
  {
    assert EndsWord(g, s, 1) by { assert g.cased(s[0]); }
    assert !EndsWord(g, s, 0);
    hide EndsWord;
    assert LowerTo(u, g, s, 1) == LowerTo(u, g, s, 0) + LowerAt(u, g, s, 0);
  }

  /** And a capital I with a dot keeps its dot in JavaScript, where it counts as no part of the word. */
  lemma DottedIDiffers(u: Unicode, g: Casing)
    requires WellFormed(u) && CaseTables(u, g) && u.letter('s') && u.lower('s') == 's'
    ensures NormalForm(u, [DOTTED_I, 's']) == "is"
    ensures NormalizeTS(u, g, [DOTTED_I, 's']) == "i s"
  {
    var s := [DOTTED_I, 's'];
    DottedLower(u, g, s);
    assert IsWord(u, "is") && IsWord(u, ['i']) && IsWord(u, ['s']);
    hide Words, Join, ToLowerCase, Lower, NormalizeTS, IsWord;
    assert NormalForm(u, s) == "is" by {
      WordsOfWord(u, "is");
      JoinOne("is");
    }
    assert NormalizeTS(u, g, s) == ['i'] + [' '] + ['s'] by {
      NormalizeTSMeans(u, g, s);
      TwoWords(u, ['i'], DOT_ABOVE, ['s']);
    }
  }

  lemma DottedLower(u: Unicode, g: Casing, s: string)
    requires CaseTables(u, g) && s == [DOTTED_I, 's'] && u.lower('s') == 's'
    ensures Lower(u, s) == "is"
    ensures ToLowerCase(u, g, s) == ['i'] + [DOT_ABOVE] + ['s']
  {
    hide CasedBefore, CasedAfter;
    assert LowerTo(u, g, s, 1) == LowerTo(u, g, s, 0) + LowerAt(u, g, s, 0);
  }

  lemma JoinOne(w: string)
    ensures Join([w], ' ') == w
  {
  }

  lemma TwoWords(u: Unicode, a: string, sep: char, b: string)
    requires IsWord(u, a) && IsWord(u, b) && !Keep(u, sep)
    ensures Join(Words(u, a + [sep] + b), ' ') == a + [' '] + b
  {
    hide Words, Join, IsWord;
    WordsOfWord(u, a);
    WordsOfWord(u, b);
    WordsSeparated(u, a, sep, b);
    JoinOne(a);
    JoinSnoc([a], ' ', b);
  }

  // ---------------------------------------------------------------- normalising twice

  /** A character that lower case leaves alone wherever it stands. */
  predicate Stable(u: Unicode, c: char) {
    u.lower(c) == c && c != CAPITAL_SIGMA && c != DOTTED_I
  }

  lemma {:induction false} LoweredIsStable(u: Unicode, g: Casing, s: string, n: nat)
    requires WellFormed(u) && CaseTables(u, g) && n <= |s|
    ensures Made(c => Stable(u, c), LowerTo(u, g, s, n))
  {
    if n > 0 {
      LoweredIsStable(u, g, s, n - 1);
      assert Stable(u, 'i') && Stable(u, FINAL_SIGMA) && Stable(u, DOT_ABOVE);
      assert s[n - 1] != DOTTED_I ==> Stable(u, u.lower(s[n - 1]));
    }
  }

  lemma {:induction false} StableIsLowered(u: Unicode, g: Casing, s: string, n: nat)
    requires Made(c => Stable(u, c), s) && n <= |s|
    ensures LowerTo(u, g, s, n) == s[..n]
  {
    if n > 0 {
      StableIsLowered(u, g, s, n - 1);
      assert Stable(u, s[n - 1]);
    }
  }

  /** The client's normal form is its own normal form. */
  lemma NormalizeTSIdempotent(u: Unicode, g: Casing, s: string)
    requires WellFormed(u) && CaseTables(u, g)
    ensures NormalizeTS(u, g, NormalizeTS(u, g, s)) == NormalizeTS(u, g, s)
  {
    var low := ToLowerCase(u, g, s);
    var n := NormalizeTS(u, g, s);
    NormalizeTSMeans(u, g, s);
    NormalizeTSMeans(u, g, n);
    WordsAreWords(u, low);
    WordsOfJoin(u, Words(u, low));
    JoinedIsStable(u, g, s);
    StableIsLowered(u, g, n, |n|);
    hide Words, Join, NormalizeTS, IsWord, Stable, WellFormed, CaseTables;
    assert ToLowerCase(u, g, n) == n;
  }

  lemma JoinedIsStable(u: Unicode, g: Casing, s: string)
    requires WellFormed(u) && CaseTables(u, g)
    ensures Made(c => Stable(u, c), Join(Words(u, ToLowerCase(u, g, s)), ' '))
  {
    LoweredIsStable(u, g, s, |s|);
    assert Stable(u, ' ');
    hide Words, Join, WellFormed, CaseTables, Stable;
    var ok := c => Stable(u, c);
    var low := ToLowerCase(u, g, s);
    assert Made(ok, low);
    WordsMade(u, ok, low);
    JoinMade(ok, Words(u, low));
  }

  // ---------------------------------------------------------------- the client's phrase keys

  function ClientLemma(u: Unicode, g: Casing, tok: Token): string {
    if tok.Lemma != "" then tok.Lemma else ToLowerCase(u, g, tok.Text)
  }

  function ClientLemmas(u: Unicode, g: Casing, tokens: seq<Token>): (r: seq<string>)
    ensures |r| == |tokens|
  {
    seq(|tokens|, i requires 0 <= i < |tokens| => ClientLemma(u, g, tokens[i]))
  }

  function BuildEntryKey(u: Unicode, g: Casing, kind: string, lang: string, base: string): string {
    kind + ":" + lang + ":" + NormalizeTS(u, g, base)
  }

  /** The key of an inclusive range; "" for a range that is not one. */
  function PhraseEntryKey(u: Unicode, g: Casing, lang: string, tokens: seq<Token>, start: int, end: int): string {
    if start < 0 || end < start || end >= |tokens| then ""
    else BuildEntryKey(u, g, "phrase", lang, Join(ClientLemmas(u, g, tokens[start..end + 1]), ' '))
  }

  lemma LemmasSnoc(u: Unicode, g: Casing, tokens: seq<Token>, start: int, i: int)
    requires 0 <= start <= i < |tokens|
    ensures ClientLemmas(u, g, tokens[start..start]) == []
    ensures ClientLemmas(u, g, tokens[start..i + 1]) ==
      ClientLemmas(u, g, tokens[start..i]) + [ClientLemma(u, g, tokens[i])]
  {
    hide ClientLemma;
    assert tokens[start..i + 1] == tokens[start..i] + [tokens[i]];
  }

  method BuildPhraseEntryKey(u: Unicode, g: Casing, lang: string, tokens: seq<Token>, start: int, end: int)
      returns (key: string)
    ensures key == PhraseEntryKey(u, g, lang, tokens, start, end)
  {
    if start < 0 || end < start || end >= |tokens| {
      return "";
    }
    hide NormalizeTS, ClientLemma, ClientLemmas, Join, BuildEntryKey;
    LemmasSnoc(u, g, tokens, start, start);
    var parts: seq<string> := [];
    var i := start;
    while i <= end
      invariant start <= i <= end + 1
      invariant parts == ClientLemmas(u, g, tokens[start..i])
    {
      LemmasSnoc(u, g, tokens, start, i);
      parts := parts + [ClientLemma(u, g, tokens[i])];
      i := i + 1;
    }
    key := BuildEntryKey(u, g, "phrase", lang, Join(parts, ' '));
  }

  /** A space is neither cased nor ignorable, so no sigma looks past it. */
  lemma SigmaBeforeSpace(g: Casing, a: string, b: string, i: nat)
    requires !g.cased(' ') && !g.ignorable(' ') && i < |a|
    ensures EndsWord(g, a + [' '] + b, i) <==> EndsWord(g, a, i)
  {
    var t := a + [' '] + b;
    assert forall k | 0 <= k < |a| :: t[k] == a[k];
    assert t[|a|] == ' ';
    assert CasedBefore(g, t, i) <==> CasedBefore(g, a, i);
    if k :| i < k < |t| && g.cased(t[k]) && forall j | i < j < k :: g.ignorable(t[j]) {
      assert k < |a|;
      assert g.cased(a[k]) && forall j | i < j < k :: g.ignorable(a[j]);
    }
    if k :| i < k < |a| && g.cased(a[k]) && forall j | i < j < k :: g.ignorable(a[j]) {
      assert g.cased(t[k]) && forall j | i < j < k :: g.ignorable(t[j]);
    }
  }

  /** The text behind a space. */
  predicate Behind(t: string, n: nat, b: string) {
    0 < n && |t| == n + |b| && t[n - 1] == ' ' && forall k | n <= k < |t| :: t[k] == b[k - n]
  }

  lemma CasedBehind(g: Casing, t: string, n: nat, b: string, i: nat)
    requires !g.cased(' ') && !g.ignorable(' ') && Behind(t, n, b) && i < |b|
    ensures CasedBefore(g, t, n + i) <==> CasedBefore(g, b, i)
  {
    if k :| 0 <= k < n + i && g.cased(t[k]) && forall j | k < j < n + i :: g.ignorable(t[j]) {
      assert k >= n by { assert !g.ignorable(t[n - 1]); }
      assert g.cased(b[k - n]);
      forall j | k - n < j < i ensures g.ignorable(b[j]) { assert g.ignorable(t[n + j]); }
    }
    if k :| 0 <= k < i && g.cased(b[k]) && forall j | k < j < i :: g.ignorable(b[j]) {
      assert g.cased(t[n + k]);
      forall j | n + k < j < n + i ensures g.ignorable(t[j]) { assert g.ignorable(b[j - n]); }
    }
  }

  lemma CasedAhead(g: Casing, t: string, n: nat, b: string, i: nat)
    requires Behind(t, n, b) && i < |b|
    ensures CasedAfter(g, t, n + i) <==> CasedAfter(g, b, i)
  {
    if k :| n + i < k < |t| && g.cased(t[k]) && forall j | n + i < j < k :: g.ignorable(t[j]) {
      assert g.cased(b[k - n]);
      forall j | i < j < k - n ensures g.ignorable(b[j]) { assert g.ignorable(t[n + j]); }
    }
    if k :| i < k < |b| && g.cased(b[k]) && forall j | i < j < k :: g.ignorable(b[j]) {
      assert g.cased(t[n + k]);
      forall j | n + i < j < n + k ensures g.ignorable(t[j]) { assert g.ignorable(b[j - n]); }
    }
  }

  lemma LowerBehind(u: Unicode, g: Casing, t: string, n: nat, b: string, i: nat)
    requires !g.cased(' ') && !g.ignorable(' ') && Behind(t, n, b) && i < |b|
    ensures LowerAt(u, g, t, n + i) == LowerAt(u, g, b, i)
  {
    CasedBehind(g, t, n, b, i);
    CasedAhead(g, t, n, b, i);
    assert t[n + i] == b[i];
    hide CasedBefore, CasedAfter, Behind;
  }

  lemma {:induction false} LowerBeforeSpace(u: Unicode, g: Casing, a: string, b: string, n: nat)
    requires !g.cased(' ') && !g.ignorable(' ') && n <= |a|
    ensures LowerTo(u, g, a + [' '] + b, n) == LowerTo(u, g, a, n)
  {
    hide EndsWord;
    if n > 0 {
      LowerBeforeSpace(u, g, a, b, n - 1);
      SigmaBeforeSpace(g, a, b, n - 1);
    }
  }

  lemma {:induction false} LowerAfterSpace(u: Unicode, g: Casing, t: string, n: nat, b: string, i: nat)
    requires !g.cased(' ') && !g.ignorable(' ') && Behind(t, n, b) && i <= |b|
    ensures LowerTo(u, g, t, n + i) == LowerTo(u, g, t, n) + LowerTo(u, g, b, i)
  {
    hide Behind, LowerAt;
    if i > 0 {
      LowerAfterSpace(u, g, t, n, b, i - 1);
      LowerBehind(u, g, t, n, b, i - 1);
    }
  }

  lemma LowerThroughSpace(u: Unicode, g: Casing, a: string, b: string, t: string)
    requires WellFormed(u) && CaseTables(u, g) && t == a + [' '] + b
    ensures LowerTo(u, g, t, |a| + 1) == ToLowerCase(u, g, a) + [' ']
  {
    hide CasedBefore, CasedAfter, LowerTo, WellFormed;
    LowerBeforeSpace(u, g, a, b, |a|);
    LowerSnoc(u, g, t, |a|);
    assert t[|a|] == ' ';
    assert u.lower(' ') == ' ' by { SpaceStays(u); }
  }

  lemma SpaceStays(u: Unicode)
    requires WellFormed(u)
    ensures u.lower(' ') == ' '
  {
  }

  lemma BehindSpace(a: string, b: string)
    ensures Behind(a + [' '] + b, |a| + 1, b)
  {
  }

  lemma LowerSeparated(u: Unicode, g: Casing, a: string, b: string)
    requires WellFormed(u) && CaseTables(u, g)
    ensures ToLowerCase(u, g, a + [' '] + b) == ToLowerCase(u, g, a) + [' '] + ToLowerCase(u, g, b)
  {
    hide LowerTo, Behind, WellFormed;
    var t := a + [' '] + b;
    LowerThroughSpace(u, g, a, b, t);
    BehindSpace(a, b);
    LowerAfterSpace(u, g, t, |a| + 1, b, |b|);
  }

  lemma {:induction false} WordsOfClientLemmas(u: Unicode, g: Casing, parts: seq<string>, ws: seq<string>)
    requires WellFormed(u) && CaseTables(u, g) && |parts| == |ws|
    requires forall k | 0 <= k < |parts| :: Words(u, ToLowerCase(u, g, parts[k])) == [ws[k]]
    ensures Words(u, ToLowerCase(u, g, Join(parts, ' '))) == ws
  {
    hide ToLowerCase, CaseTables, Words;
    if parts == [] {
      NoWords(u, g);
    } else if |parts| == 1 {
      assert ws == [ws[0]];
    } else {
      WordsOfClientLemmas(u, g, Front(parts), Front(ws));
      var a, b := Join(Front(parts), ' '), Last(parts);
      LowerSeparated(u, g, a, b);
      WordsSeparated(u, ToLowerCase(u, g, a), ' ', ToLowerCase(u, g, b));
      assert Front(ws) + [Last(ws)] == ws;
    }
  }

  lemma NoWords(u: Unicode, g: Casing)
    ensures Words(u, ToLowerCase(u, g, "")) == []
  {
  }

  lemma OneClientWord(u: Unicode, g: Casing, s: string)
    requires WellFormed(u) && IsWord(u, NormalizeTS(u, g, s))
    ensures Words(u, ToLowerCase(u, g, s)) == [NormalizeTS(u, g, s)]
  {
    hide Words, Join, IsWord, ToLowerCase;
    NormalizeTSMeans(u, g, s);
    WordsAreWords(u, ToLowerCase(u, g, s));
    WordsOfWord(u, NormalizeTS(u, g, s));
    WordsOfJoin(u, Words(u, ToLowerCase(u, g, s)));
  }

  lemma EntryKeyOfParts(u: Unicode, g: Casing, lang: string, parts: seq<string>, ws: seq<string>, display: string)
    requires WellFormed(u) && CaseTables(u, g) && ':' !in lang && |parts| == |ws|
    requires forall k | 0 <= k < |parts| :: Words(u, ToLowerCase(u, g, parts[k])) == [ws[k]]
    ensures PhraseLemmasOf(u, BuildEntryKey(u, g, "phrase", lang, Join(parts, ' ')), display) == ws
  {
    assert BuildEntryKey(u, g, "phrase", lang, Join(parts, ' ')) ==
      "phrase" + ":" + lang + ":" + NormalizeTS(u, g, Join(parts, ' '));
    hide *;
    WordsOfClientLemmas(u, g, parts, ws);
    NormalizeTSMeans(u, g, Join(parts, ' '));
    KeyOfWords(u, lang, ToLowerCase(u, g, Join(parts, ' ')), display);
  }

  /** The lemmas, each normalised by itself. */
  function NormalLemmas(u: Unicode, g: Casing, tokens: seq<Token>): (r: seq<string>)
    ensures |r| == |tokens|
  {
    seq(|tokens|, i requires 0 <= i < |tokens| => NormalizeTS(u, g, ClientLemma(u, g, tokens[i])))
  }

  lemma OneWordEach(u: Unicode, g: Casing, tokens: seq<Token>)
    requires WellFormed(u) && forall k | 0 <= k < |tokens| :: IsWord(u, NormalLemmas(u, g, tokens)[k])
    ensures forall k | 0 <= k < |tokens| ::
      Words(u, ToLowerCase(u, g, ClientLemmas(u, g, tokens)[k])) == [NormalLemmas(u, g, tokens)[k]]
  {
    hide Words, NormalizeTS, ToLowerCase, ClientLemma, IsWord, WellFormed;
    forall k | 0 <= k < |tokens|
      ensures Words(u, ToLowerCase(u, g, ClientLemmas(u, g, tokens)[k])) == [NormalLemmas(u, g, tokens)[k]]
    {
      assert IsWord(u, NormalLemmas(u, g, tokens)[k]);
      OneClientWord(u, g, ClientLemma(u, g, tokens[k]));
    }
  }

  /** When every token's lemma normalises to one word, the key the client builds stands for exactly those words. */
  lemma PhraseEntryKeyRoundTrip(u: Unicode, g: Casing, lang: string, tokens: seq<Token>, start: int, end: int,
        display: string)
    requires WellFormed(u) && CaseTables(u, g) && ':' !in lang && 0 <= start <= end < |tokens|
    requires forall w | w in NormalLemmas(u, g, tokens[start..end + 1]) :: IsWord(u, w)
    ensures PhraseLemmasOf(u, PhraseEntryKey(u, g, lang, tokens, start, end), display) ==
      NormalLemmas(u, g, tokens[start..end + 1])
  {
    var run := tokens[start..end + 1];
    hide Words, NormalizeTS, ToLowerCase, PhraseLemmasOf, IsWord, WellFormed, CaseTables, Join, ClientLemmas,
      NormalLemmas, BuildEntryKey;
    OneWordEach(u, g, run);
    EntryKeyOfParts(u, g, lang, ClientLemmas(u, g, run), NormalLemmas(u, g, run), display);
  }
}
