/** internal/vocab/key.go: the normal form and the entry keys built on it, and how they are read back. */
module VocabKey {
  import opened Model
  import opened Text

  /** Characters that make up words; the regular expression of the TypeScript side spells the same class. */
  predicate Keep(u: Unicode, c: char) {
    u.letter(c) || u.number(c)
  }

  /** What the normalisers rely on from the Unicode tables. */
  ghost predicate WellFormed(u: Unicode) {
    && !Keep(u, ' ') && !Keep(u, ':') && u.space(' ') && u.lower(' ') == ' '
    && (forall c :: u.lower(u.lower(c)) == u.lower(c))
    && (forall c | Keep(u, c) :: !u.space(c))
  }

  function Lower(u: Unicode, s: string): (r: string)
    ensures |r| == |s|
  {
    seq(|s|, i requires 0 <= i < |s| => u.lower(s[i]))
  }

  function Last<T>(s: seq<T>): T
    requires s != []
  {
    s[|s| - 1]
  }

  function Front<T>(s: seq<T>): seq<T>
    requires s != []
  {
    s[..|s| - 1]
  }

  lemma FrontLast<T>(s: seq<T>)
    requires s != []
    ensures s == Front(s) + [Last(s)]
  {
  }

  lemma FrontOfConcat<T>(x: seq<T>, y: seq<T>)
    requires y != []
    ensures Front(x + y) == x + Front(y) && Last(x + y) == Last(y)
  {
  }

  lemma SnocConcat<T>(x: seq<T>, y: seq<T>, e: T)
    ensures (x + y) + [e] == x + (y + [e])
  {
  }

  function TrimStart(u: Unicode, s: string): string {
    if s != "" && u.space(s[0]) then TrimStart(u, s[1..]) else s
  }

  function TrimEnd(u: Unicode, s: string): string {
    if s != "" && u.space(Last(s)) then TrimEnd(u, Front(s)) else s
  }

  /** White space taken off both ends. */
  function Trim(u: Unicode, s: string): string {
    TrimEnd(u, TrimStart(u, s))
  }

  // ---------------------------------------------------------------- the normal form, declaratively

  /** The maximal runs of word characters in s, in order. */
  function Words(u: Unicode, s: string): (ws: seq<string>)
    ensures s != "" && Keep(u, Last(s)) ==> ws != []
  {
    if s == "" then []
    else
      var ws := Words(u, Front(s));
      if !Keep(u, Last(s)) then ws
      else if |s| > 1 && Keep(u, Last(Front(s))) then Front(ws) + [Last(ws) + [Last(s)]]
      else ws + [[Last(s)]]
  }

  /** The parts with `sep` between neighbours. */
  function Join(parts: seq<string>, sep: char): string {
    if parts == [] then ""
    else if |parts| == 1 then parts[0]
    else Join(Front(parts), sep) + [sep] + Last(parts)
  }

  /** Lowercased words joined by single spaces. */
  function NormalForm(u: Unicode, s: string): string {
    Join(Words(u, Lower(u, s)), ' ')
  }

  predicate IsWord(u: Unicode, w: string) {
    w != "" && forall i | 0 <= i < |w| :: Keep(u, w[i])
  }

  lemma {:induction false} WordsAreWords(u: Unicode, s: string)
    ensures forall k | 0 <= k < |Words(u, s)| :: IsWord(u, Words(u, s)[k])
  {
    if s != "" {
      WordsAreWords(u, Front(s));
    }
  }

  lemma JoinGrow(parts: seq<string>, sep: char, c: char)
    requires parts != []
    ensures Join(Front(parts) + [Last(parts) + [c]], sep) == Join(parts, sep) + [c]
  {
    var grown := Front(parts) + [Last(parts) + [c]];
    assert Front(grown) == Front(parts);
    if |parts| > 1 {
      assert Join(Front(parts), sep) + [sep] + (Last(parts) + [c]) ==
        (Join(Front(parts), sep) + [sep] + Last(parts)) + [c];
    }
  }

  lemma JoinSnoc(parts: seq<string>, sep: char, w: string)
    ensures Join(parts + [w], sep) == if parts == [] then w else Join(parts, sep) + [sep] + w
  {
    assert Front(parts + [w]) == parts;
  }

  // ---------------------------------------------------------------- the server's normaliser

  /** Go: one pass with a pending space. */
  method Normalize(u: Unicode, s: string) returns (b: string)
    ensures b == NormalForm(u, s)
  {
    b := "";
    var pendingSpace := false;
    var low := Lower(u, s);
    var i := 0;
    while i < |low|
      invariant 0 <= i <= |low|
      invariant b == Join(Words(u, low[..i]), ' ')
      invariant pendingSpace <==> i > 0 && !Keep(u, low[i - 1])
      invariant b == "" <==> Words(u, low[..i]) == []
    {
      var r := low[i];
      ghost var before := low[..i];
      assert Front(low[..i + 1]) == before;
      if Keep(u, r) {
        if i > 0 && Keep(u, low[i - 1]) {
          JoinGrow(Words(u, before), ' ', r);
        } else {
          JoinSnoc(Words(u, before), ' ', [r]);
        }
        if pendingSpace && |b| > 0 {
          b := b + [' '];
        }
        b := b + [r];
        pendingSpace := false;
      } else {
        pendingSpace := true;
      }
      i := i + 1;
    }
    assert low[..|low|] == low;
  }

  // ---------------------------------------------------------------- words and separators

  lemma WordsSnoc(u: Unicode, s: string, c: char)
    ensures Words(u, s + [c]) ==
      if !Keep(u, c) then Words(u, s)
      else if s != "" && Keep(u, Last(s)) then Front(Words(u, s)) + [Last(Words(u, s)) + [c]]
      else Words(u, s) + [[c]]
  {
    assert Front(s + [c]) == s;
  }

  lemma {:induction false} WordsSeparated(u: Unicode, a: string, sep: char, b: string)
    requires !Keep(u, sep)
    ensures Words(u, a + [sep] + b) == Words(u, a) + Words(u, b)
  {
    hide Words;
    WordsSnoc(u, a, sep);
    NoWordsIn(u);
    if b == "" {
      assert a + [sep] + b == a + [sep];
    } else {
      var f, c := Front(b), Last(b);
      FrontLast(b);
      WordsSeparated(u, a, sep, f);
      SnocConcat(a + [sep], f, c);
      WordsSnoc(u, a + [sep] + f, c);
      WordsSnoc(u, f, c);
      var x, y := Words(u, a), Words(u, f);
      if f != "" {
        FrontOfConcat(a + [sep], f);
        if Keep(u, Last(f)) {
          WordsEnd(u, f);
          FrontOfConcat(x, y);
          SnocConcat(x, Front(y), Last(y) + [c]);
        }
      } else {
        assert a + [sep] + f == a + [sep];
      }
      SnocConcat(x, y, [c]);
    }
  }

  lemma NoWordsIn(u: Unicode)
    ensures Words(u, "") == []
  {
  }

  lemma WordsEnd(u: Unicode, s: string)
    requires s != "" && Keep(u, Last(s))
    ensures Words(u, s) != []
  {
  }

  lemma {:induction false} WordsOfWord(u: Unicode, w: string)
    requires IsWord(u, w)
    ensures Words(u, w) == [w]
  {
    if |w| == 1 {
      assert [Last(w)] == w;
    } else {
      WordsOfWord(u, Front(w));
      assert Front(w) + [Last(w)] == w;
      assert Front([Front(w)]) == [] && Last([Front(w)]) == Front(w);
    }
  }

  lemma {:induction false} WordsOfJoin(u: Unicode, ws: seq<string>)
    requires WellFormed(u) && forall k | 0 <= k < |ws| :: IsWord(u, ws[k])
    ensures Words(u, Join(ws, ' ')) == ws
  {
    if ws != [] {
      WordsOfJoin(u, Front(ws));
      WordsOfWord(u, Last(ws));
      FrontLast(ws);
      JoinSnoc(Front(ws), ' ', Last(ws));
      if Front(ws) == [] {
        WordsOfJoinOne(u, ws);
      } else {
        hide Words, Join, Front, Last, IsWord, WellFormed;
        WordsSeparated(u, Join(Front(ws), ' '), ' ', Last(ws));
      }
    }
  }

  lemma WordsOfJoinOne(u: Unicode, ws: seq<string>)
    requires |ws| == 1 && IsWord(u, ws[0])
    ensures Words(u, Join(ws, ' ')) == ws
  {
    WordsOfWord(u, ws[0]);
  }

  /** The string is made of such characters. */
  predicate Made(ok: char -> bool, s: string) {
    forall i | 0 <= i < |s| :: ok(s[i])
  }

  predicate Lowered(u: Unicode, s: string) {
    Made(c => u.lower(c) == c, s)
  }

  /** The words of a string are made of its characters, and joining adds spaces only. */
  lemma {:induction false} WordsMade(u: Unicode, ok: char -> bool, s: string)
    requires Made(ok, s)
    ensures forall k | 0 <= k < |Words(u, s)| :: Made(ok, Words(u, s)[k])
  {
    if s != "" {
      WordsMade(u, ok, Front(s));
    }
  }

  lemma {:induction false} JoinMade(ok: char -> bool, ws: seq<string>)
    requires ok(' ') && forall k | 0 <= k < |ws| :: Made(ok, ws[k])
    ensures Made(ok, Join(ws, ' '))
  {
    if |ws| > 1 {
      JoinMade(ok, Front(ws));
    }
  }

  /** Normalising a normal form changes nothing. */
  lemma NormalFormIdempotent(u: Unicode, s: string)
    requires WellFormed(u)
    ensures NormalForm(u, NormalForm(u, s)) == NormalForm(u, s)
  {
    var low := Lower(u, s);
    var n := NormalForm(u, s);
    WordsAreWords(u, low);
    WordsMade(u, c => u.lower(c) == c, low);
    JoinMade(c => u.lower(c) == c, Words(u, low));
    assert Lower(u, n) == n;
    WordsOfJoin(u, Words(u, low));
  }

  /** Letters and digits, in order. */
  function LettersAndDigits(u: Unicode, s: string): string {
    if s == "" then ""
    else
      var r := LettersAndDigits(u, Front(s));
      if u.letter(Last(s)) || u.number(Last(s)) then r + [Last(s)] else r
  }

  function Together(u: Unicode, ws: seq<string>): string {
    if ws == [] then "" else Together(u, Front(ws)) + LettersAndDigits(u, Last(ws))
  }

  lemma {:induction false} LettersConcat(u: Unicode, a: string, b: string)
    ensures LettersAndDigits(u, a + b) == LettersAndDigits(u, a) + LettersAndDigits(u, b)
  {
    if b == "" {
      assert a + b == a;
    } else {
      FrontOfConcat(a, b);
      LettersConcat(u, a, Front(b));
    }
  }

  lemma TogetherSnoc(u: Unicode, ws: seq<string>, w: string)
    ensures Together(u, ws + [w]) == Together(u, ws) + LettersAndDigits(u, w)
  {
    FrontOfConcat(ws, [w]);
    assert Front([w]) == [] && ws + [] == ws;
  }

  lemma LettersSnoc(u: Unicode, s: string, c: char)
    ensures LettersAndDigits(u, s + [c]) ==
      if u.letter(c) || u.number(c) then LettersAndDigits(u, s) + [c] else LettersAndDigits(u, s)
  {
    assert Front(s + [c]) == s;
  }

  lemma TogetherGrow(u: Unicode, ws: seq<string>, c: char)
    requires ws != [] && Keep(u, c)
    ensures Together(u, Front(ws) + [Last(ws) + [c]]) == Together(u, ws) + [c]
  {
    FrontLast(ws);
    TogetherSnoc(u, Front(ws), Last(ws));
    TogetherSnoc(u, Front(ws), Last(ws) + [c]);
    LettersSnoc(u, Last(ws), c);
    hide LettersAndDigits;
  }

  lemma TogetherMore(u: Unicode, ws: seq<string>, c: char)
    requires Keep(u, c)
    ensures Together(u, ws + [[c]]) == Together(u, ws) + [c]
  {
    TogetherSnoc(u, ws, [c]);
    LettersSnoc(u, "", c);
    assert "" + [c] == [c];
  }

  lemma {:induction false} LettersOfWords(u: Unicode, s: string)
    ensures Together(u, Words(u, s)) == LettersAndDigits(u, s)
  {
    hide Together;
    if s == "" {
      NothingTogether(u);
    } else {
      var ws, c := Words(u, Front(s)), Last(s);
      LettersOfWords(u, Front(s));
      if Keep(u, c) {
        if |s| > 1 && Keep(u, Last(Front(s))) {
          TogetherGrow(u, ws, c);
        } else {
          TogetherMore(u, ws, c);
        }
      }
    }
  }

  lemma NothingTogether(u: Unicode)
    ensures Together(u, []) == ""
  {
  }

  lemma {:induction false} LettersOfJoin(u: Unicode, ws: seq<string>)
    requires WellFormed(u)
    ensures LettersAndDigits(u, Join(ws, ' ')) == Together(u, ws)
  {
    if |ws| == 1 {
      assert Together(u, Front(ws)) == "";
    } else if |ws| > 1 {
      LettersOfJoin(u, Front(ws));
      LettersConcat(u, Join(Front(ws), ' ') + [' '], Last(ws));
      LettersSnoc(u, Join(Front(ws), ' '), ' ');
    }
  }

  /** Normalising keeps every letter and digit of the lowered text, in order. */
  lemma NormalFormKeeps(u: Unicode, s: string)
    requires WellFormed(u)
    ensures LettersAndDigits(u, NormalForm(u, s)) == LettersAndDigits(u, Lower(u, s))
  {
    hide Words, Join, Together;
    LettersOfWords(u, Lower(u, s));
    LettersOfJoin(u, Words(u, Lower(u, s)));
  }

  /** Lowered words. */
  predicate PlainWords(u: Unicode, ws: seq<string>) {
    forall k | 0 <= k < |ws| :: IsWord(u, ws[k]) && Lowered(u, ws[k])
  }

  /** The fixed points of normalising are exactly the lowered words joined by single spaces. */
  lemma NormalFormFixed(u: Unicode, s: string)
    requires WellFormed(u)
    ensures NormalForm(u, s) == s <==> exists ws :: PlainWords(u, ws) && s == Join(ws, ' ')
  {
    hide Words, Join, IsWord;
    var ws := Words(u, Lower(u, s));
    WordsAreWords(u, Lower(u, s));
    WordsMade(u, c => u.lower(c) == c, Lower(u, s));
    assert PlainWords(u, ws);
    forall ws' | PlainWords(u, ws') && s == Join(ws', ' ') ensures NormalForm(u, s) == s {
      JoinFixed(u, ws');
    }
  }

  lemma JoinFixed(u: Unicode, ws: seq<string>)
    requires WellFormed(u) && PlainWords(u, ws)
    ensures NormalForm(u, Join(ws, ' ')) == Join(ws, ' ')
  {
    JoinMade(c => u.lower(c) == c, ws);
    assert Lower(u, Join(ws, ' ')) == Join(ws, ' ');
    WordsOfJoin(u, ws);
  }

  // ---------------------------------------------------------------- keys

  function LemmaOf(u: Unicode, tok: Token): string {
    if tok.Lemma != "" then tok.Lemma else Lower(u, tok.Text)
  }

  /** A token's own lemma decides, whatever form of the word stands in the text; and leaving out a lemma that is the
      lowered text loses nothing. */
  lemma LemmaDecides(u: Unicode, lang: string, a: Token, b: Token)
    ensures a.Lemma == b.Lemma && a.Lemma != "" ==>
      LemmaOf(u, a) == a.Lemma && WordKey(u, lang, a) == WordKey(u, lang, b)
    ensures b == a.(Lemma := "") && a.Lemma == Lower(u, a.Text) && a.Text != "" ==>
      LemmaOf(u, a) == LemmaOf(u, b) && WordKey(u, lang, a) == WordKey(u, lang, b)
    ensures a.Lemma == "" ==> |LemmaOf(u, a)| == |a.Text| && forall i | 0 <= i < |a.Text| ::
      LemmaOf(u, a)[i] == u.lower(a.Text[i])
  {
  }

  function Key(u: Unicode, kind: string, lang: string, base: string): string {
    kind + ":" + lang + ":" + NormalForm(u, base)
  }

  function WordKey(u: Unicode, lang: string, tok: Token): string {
    Key(u, "word", lang, LemmaOf(u, tok))
  }

  function Lemmas(u: Unicode, tokens: seq<Token>): (r: seq<string>)
    ensures |r| == |tokens|
  {
    seq(|tokens|, i requires 0 <= i < |tokens| => LemmaOf(u, tokens[i]))
  }

  /** The key of an inclusive range; "" for a range that is not one. */
  function PhraseKey(u: Unicode, lang: string, tokens: seq<Token>, start: int, end: int): string {
    if start < 0 || end < start || end >= |tokens| then ""
    else Key(u, "phrase", lang, Join(Lemmas(u, tokens[start..end + 1]), ' '))
  }

  lemma LemmasSnoc(u: Unicode, tokens: seq<Token>, start: int, i: int)
    requires 0 <= start <= i < |tokens|
    ensures Lemmas(u, tokens[start..start]) == []
    ensures Lemmas(u, tokens[start..i + 1]) == Lemmas(u, tokens[start..i]) + [LemmaOf(u, tokens[i])]
  {
    hide LemmaOf;
    assert tokens[start..i + 1] == tokens[start..i] + [tokens[i]];
  }

  /** Go builds the parts in a loop. */
  method BuildPhraseKey(u: Unicode, lang: string, tokens: seq<Token>, start: int, end: int) returns (key: string)
    ensures key == PhraseKey(u, lang, tokens, start, end)
  {
    if start < 0 || end < start || end >= |tokens| {
      return "";
    }
    hide NormalForm, LemmaOf, Lemmas, Join;
    LemmasSnoc(u, tokens, start, start);
    var parts: seq<string> := [];
    var i := start;
    while i <= end
      invariant start <= i <= end + 1
      invariant parts == Lemmas(u, tokens[start..i])
    {
      LemmasSnoc(u, tokens, start, i);
      parts := parts + [LemmaOf(u, tokens[i])];
      i := i + 1;
    }
    var base := Normalize(u, Join(parts, ' '));
    key := "phrase" + ":" + lang + ":" + base;
  }

  /** The string split at every `sep`; always at least one part. */
  function Split(s: string, sep: char): (parts: seq<string>)
    ensures parts != []
  {
    if s == "" then [""]
    else
      var parts := Split(Front(s), sep);
      if Last(s) == sep then parts + [""]
      else Front(parts) + [Last(parts) + [Last(s)]]
  }

  lemma {:induction false} SplitJoin(s: string, sep: char)
    ensures Join(Split(s, sep), sep) == s
  {
    if s != "" {
      SplitJoin(Front(s), sep);
      FrontLast(s);
      SplitSnoc(Front(s), Last(s), sep);
      JoinSnoc(Split(Front(s), sep), sep, "");
      JoinGrow(Split(Front(s), sep), sep, Last(s));
      hide Split, Join, Front, Last;
    }
  }

  lemma SplitSnoc(s: string, c: char, sep: char)
    ensures Split(s + [c], sep) ==
      if c == sep then Split(s, sep) + [""] else Front(Split(s, sep)) + [Last(Split(s, sep)) + [c]]
  {
    assert Front(s + [c]) == s;
  }

  lemma {:induction false} SplitSeparated(a: string, b: string, sep: char)
    ensures Split(a + [sep] + b, sep) == Split(a, sep) + Split(b, sep)
    decreases |b|
  {
    if b == "" {
      SplitSnoc(a, sep, sep);
      assert a + [sep] + b == a + [sep];
    } else {
      var f, c := Front(b), Last(b);
      SplitSeparated(a, f, sep);
      FrontLast(b);
      SplitSeparatedStep(a, f, c, sep);
    }
  }

  lemma SplitSeparatedStep(a: string, f: string, c: char, sep: char)
    requires Split(a + [sep] + f, sep) == Split(a, sep) + Split(f, sep)
    ensures Split(a + [sep] + (f + [c]), sep) == Split(a, sep) + Split(f + [c], sep)
  {
    hide Split, Front, Last;
    var x, y := Split(a, sep), Split(f, sep);
    SnocConcat(a + [sep], f, c);
    SplitSnoc(a + [sep] + f, c, sep);
    SplitSnoc(f, c, sep);
    if c == sep {
      SnocConcat(x, y, "");
    } else {
      FrontOfConcat(x, y);
      SnocConcat(x, Front(y), Last(y) + [c]);
    }
  }

  lemma {:induction false} SplitPlain(s: string, sep: char)
    requires sep !in s
    ensures Split(s, sep) == [s]
  {
    if s != "" {
      SplitPlain(Front(s), sep);
      assert Front(s) + [Last(s)] == s;
    }
  }

  lemma {:induction false} SplitOfJoin(ws: seq<string>, sep: char)
    requires ws != [] && forall k | 0 <= k < |ws| :: sep !in ws[k]
    ensures Split(Join(ws, sep), sep) == ws
  {
    FrontLast(ws);
    SplitPlain(Last(ws), sep);
    JoinSnoc(Front(ws), sep, Last(ws));
    if Front(ws) == [] {
      assert ws == [Last(ws)];
    } else {
      SplitOfJoin(Front(ws), sep);
      hide Split, Join, Front, Last;
      SplitSeparated(Join(Front(ws), sep), Last(ws), sep);
    }
  }

  lemma KeyParts(u: Unicode, kind: string, lang: string, base: string)
    requires ':' !in kind && ':' !in lang
    ensures Split(Key(u, kind, lang, base), ':') == [kind, lang] + Split(NormalForm(u, base), ':')
  {
    hide Split, NormalForm;
    var n := NormalForm(u, base);
    assert Key(u, kind, lang, base) == kind + [':'] + (lang + [':'] + n);
    SplitSeparated(kind, lang + [':'] + n, ':');
    SplitSeparated(lang, n, ':');
    SplitPlain(kind, ':');
    SplitPlain(lang, ':');
  }

  function NonEmptyParts(parts: seq<string>): seq<string> {
    if parts == [] then []
    else if Last(parts) == "" then NonEmptyParts(Front(parts))
    else NonEmptyParts(Front(parts)) + [Last(parts)]
  }

  lemma NonEmptySnoc(parts: seq<string>, w: string)
    ensures NonEmptyParts(parts + [w]) == if w == "" then NonEmptyParts(parts) else NonEmptyParts(parts) + [w]
  {
    assert Front(parts + [w]) == parts && Last(parts + [w]) == w;
  }

  lemma {:induction false} NonEmptyPartsAll(parts: seq<string>)
    requires forall k | 0 <= k < |parts| :: parts[k] != ""
    ensures NonEmptyParts(parts) == parts
  {
    if parts != [] {
      NonEmptyPartsAll(Front(parts));
      FrontLast(parts);
      NonEmptySnoc(Front(parts), Last(parts));
    }
  }

  /** overlay.ts phraseLemmasOf: the lemma sequence an entry key stands for. */
  function PhraseLemmasOf(u: Unicode, entryKey: string, display: string): seq<string> {
    var parts := Split(entryKey, ':');
    var base := if |parts| >= 3 then Join(parts[2..], ':') else NormalForm(u, display);
    NonEmptyParts(Split(base, ' '))
  }

  /** The words come back out of a key they were joined into. */
  lemma KeyOfWords(u: Unicode, lang: string, low: string, display: string)
    requires WellFormed(u) && ':' !in lang
    ensures PhraseLemmasOf(u, "phrase" + ":" + lang + ":" + Join(Words(u, low), ' '), display) == Words(u, low)
  {
    hide Split, Words, Join, NonEmptyParts;
    var n := Join(Words(u, low), ' ');
    var key := "phrase" + ":" + lang + ":" + n;
    assert key == "phrase" + [':'] + (lang + [':'] + n);
    SplitSeparated("phrase", lang + [':'] + n, ':');
    SplitSeparated(lang, n, ':');
    SplitPlain("phrase", ':');
    SplitPlain(lang, ':');
    assert Split(key, ':')[2..] == Split(n, ':');
    SplitJoin(n, ':');
    WordsBack(u, low);
  }

  /** The lemmas come back out of the key they were put into. */
  lemma PhraseLemmasInvertKey(u: Unicode, lang: string, base: string, display: string)
    requires WellFormed(u) && ':' !in lang
    ensures PhraseLemmasOf(u, Key(u, "phrase", lang, base), display) == Words(u, Lower(u, base))
  {
    KeyOfWords(u, lang, Lower(u, base), display);
  }

  lemma WordsBack(u: Unicode, low: string)
    requires WellFormed(u)
    ensures NonEmptyParts(Split(Join(Words(u, low), ' '), ' ')) == Words(u, low)
  {
    hide Words;
    var ws := Words(u, low);
    WordsAreWords(u, low);
    if ws == [] {
      assert Split("", ' ') == [""];
      assert Front([""]) == [];
    } else {
      forall k | 0 <= k < |ws| ensures ' ' !in ws[k] { assert IsWord(u, ws[k]); }
      SplitOfJoin(ws, ' ');
      NonEmptyPartsAll(ws);
    }
  }

  lemma {:induction false} WordsOfLemmas(u: Unicode, parts: seq<string>, ws: seq<string>)
    requires WellFormed(u) && |parts| == |ws|
    requires forall k | 0 <= k < |parts| :: Words(u, Lower(u, parts[k])) == [ws[k]]
    ensures Words(u, Lower(u, Join(parts, ' '))) == ws
  {
    if |parts| == 1 {
      assert ws == [ws[0]];
    } else if |parts| > 1 {
      WordsOfLemmas(u, Front(parts), Front(ws));
      var a, b := Join(Front(parts), ' '), Last(parts);
      assert Lower(u, a + [' '] + b) == Lower(u, a) + [' '] + Lower(u, b);
      WordsSeparated(u, Lower(u, a), ' ', Lower(u, b));
      assert Front(ws) + [Last(ws)] == ws;
    }
  }

  /** When every token's lemma normalises to one word, the phrase key stands for exactly those words. */
  lemma PhraseKeyRoundTrip(u: Unicode, lang: string, tokens: seq<Token>, start: int, end: int, display: string)
    requires WellFormed(u) && ':' !in lang && 0 <= start <= end < |tokens|
    requires forall k | start <= k <= end :: IsWord(u, NormalForm(u, LemmaOf(u, tokens[k])))
    ensures PhraseLemmasOf(u, PhraseKey(u, lang, tokens, start, end), display)
      == seq(end - start + 1, k requires 0 <= k <= end - start => NormalForm(u, LemmaOf(u, tokens[start + k])))
  {
    var run := tokens[start..end + 1];
    var parts := Lemmas(u, run);
    var ws := seq(end - start + 1, k requires 0 <= k <= end - start => NormalForm(u, LemmaOf(u, tokens[start + k])));
    forall k | 0 <= k < |parts| ensures Words(u, Lower(u, parts[k])) == [ws[k]] {
      OneWord(u, parts[k]);
    }
    WordsOfLemmas(u, parts, ws);
    PhraseLemmasInvertKey(u, lang, Join(parts, ' '), display);
  }

  lemma OneWord(u: Unicode, s: string)
    requires WellFormed(u) && IsWord(u, NormalForm(u, s))
    ensures Words(u, Lower(u, s)) == [NormalForm(u, s)]
  {
    var ws := Words(u, Lower(u, s));
    WordsAreWords(u, Lower(u, s));
    WordsOfWord(u, NormalForm(u, s));
    WordsOfJoin(u, ws);
  }
}
