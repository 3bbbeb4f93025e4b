/** The records shared by the pipeline, the store and the reader. */
module Model {
  datatype Option<+T> = None | Some(value: T)

  /** A word token; Start and End are byte offsets, an empty Lemma means "the lowercased text". */
  datatype Token = Token(Index: nat, Text: string, Start: nat, End: nat, Lemma: string)

  /** An inclusive range of token indices. */
  datatype Span = Span(Start: int, End: int)

  datatype DifficultWord = DifficultWord(
    TokenIndex: int, Lemma: string, Translation: string, CEFRLevel: string, Source: string)

  datatype Phrase = Phrase(StartIndex: int, EndIndex: int, Type: string, Text: string, Translation: string)

  datatype Sentence = Sentence(StartIndex: int, EndIndex: int, Translation: string)

  datatype GlossaryItem = GlossaryItem(Term: string, Definition: string)

  datatype Enrichment = Enrichment(
    DifficultWords: seq<DifficultWord>,
    Phrases: seq<Phrase>,
    Sentences: seq<Sentence>,
    Glossary: seq<GlossaryItem>)

  const EMPTY_ENRICHMENT := Enrichment([], [], [], [])

  /** Positions in a list, in order. */
  predicate Rising(at: seq<nat>, n: nat) {
    (forall j, k | 0 <= j < k < |at| :: at[j] < at[k]) && forall k | 0 <= k < |at| :: at[k] < n
  }

  lemma RisingSnoc(at: seq<nat>, n: nat)
    requires Rising(at, n)
    ensures Rising(at, n + 1) && Rising(at + [n], n + 1)
  {
  }

  lemma SnocMembers(at: seq<nat>, n: nat)
    ensures forall i :: i in at + [n] <==> i in at || i == n
  {
  }
}
