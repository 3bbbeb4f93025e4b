/** internal/enrich/enrich.go runTopUp, runEnrich: what is stored about an article is added to, not lost, until
    someone asks for it to be dropped; and the one read that loses it all the same. */
module Retention {
  import opened Model
  import opened Text
  import opened Rows
  import opened Pipeline
  import opened Enrich
  import EnrichLaws
  import Chunk
  import Resume

  // ---------------------------------------------------------------- what a top-up stores

  lemma ExtendedCovers(a: Enrichment, b: Enrichment)
    requires Extends(a, b)
    ensures forall i | Covered(a.Sentences, i) :: Covered(b.Sentences, i)
  {
    forall i | Covered(a.Sentences, i) ensures Covered(b.Sentences, i) {
      CoveredByPrefix(a.Sentences, b.Sentences, i);
    }
  }

  /** A sentence of the answer that is kept and touches nothing stored ends up covered: it is stored, or one of the
      answer that shares a token with it. */
  ghost predicate Answered(stored: seq<Sentence>, answer: seq<Sentence>, x: Sentence) {
    exists y | y in stored :: y in answer && EnrichLaws.Touch(y, x)
  }

  lemma AnswerCovered(ss: seq<Sentence>, add: seq<Sentence>, x: Sentence)
    requires x in add && x.StartIndex <= x.EndIndex && EnrichLaws.Free(ss, x)
    ensures Answered(MergeSentences(ss, add), add, x)
  {
    hide EnrichLaws.Free, MergeSentences;
    var at := EnrichLaws.SentencesMerged(ss, add);
    var m := MergeSentences(ss, add);
    var i: nat :| i < |add| && add[i] == x;
    if i in at {
      var k :| 0 <= k < |at| && at[k] == i;
      assert m[|ss| + k] == x;
    } else {
      var k :| 0 <= k < |at| && at[k] < i && EnrichLaws.Touch(add[at[k]], add[i]);
      assert m[|ss| + k] == add[at[k]];
    }
  }

  /** A finished top-up stores what the worker had read and, beyond it, items of the sanitised answer only: whatever
      was stored and covered still is, and so is every sentence of the answer that is kept and touches nothing
      stored. */
  lemma TopUpStores(u: Unicode, s: Sys, id: ArticleId, act: TopUpAct)
    requires TopUpCan(s, id, act) && id in s.db.articles && (act.TopUpSave? || act == TopUpNothing(true))
    ensures var s' := DoTopUp(u, s, id, act); var w := s.workers[id];
      && id in s'.db.enrichments && id in s'.db.articles && s'.db.articles[id].Status == Enriched
      && var e := s'.db.enrichments[id];
      && Extends(w.running, e)
      && (forall i | Covered(w.running.Sentences, i) :: Covered(e.Sentences, i))
      && (act.TopUpNothing? ==> e == w.running && forall i | 0 <= i < |w.tokens| :: Covered(e.Sentences, i))
      && (act.TopUpSave? ==>
            && (forall x | x in act.addition.Sentences && EnrichLaws.SentenceKept(u, |w.tokens|, x) &&
                  EnrichLaws.Free(w.running.Sentences, x) :: Answered(e.Sentences, act.addition.Sentences, x))
            && (forall y | y in e.Sentences :: y in w.running.Sentences || y in act.addition.Sentences))
  {
    hide Merge, Sanitize, FullyCovered, EnrichLaws.SentenceKept, EnrichLaws.Free, Answered, Extends, Coverage, Covered;
    var w := s.workers[id];
    if act.TopUpSave? {
      var clean := Sanitize(u, act.known, w.tokens, act.addition);
      MergeExtends(w.running, clean);
      ExtendedCovers(w.running, Merge(w.running, clean));
      SavedSentences(u, act.known, w.tokens, w.running, act.addition);
    } else {
      AllCovered(w);
      Itself(w.running);
    }
  }

  lemma AllCovered(w: Worker)
    requires w.InTopUp? && FullyCovered(w)
    ensures forall i | 0 <= i < |w.tokens| :: Covered(w.running.Sentences, i)
  {
  }

  lemma Itself(e: Enrichment)
    ensures Extends(e, e)
  {
  }

  lemma SavedSentences(u: Unicode, known: Known, tokens: seq<Token>, running: Enrichment, addition: Enrichment)
    ensures var e := Merge(running, Sanitize(u, known, tokens, addition));
      && (forall x | x in addition.Sentences && EnrichLaws.SentenceKept(u, |tokens|, x) &&
            EnrichLaws.Free(running.Sentences, x) :: Answered(e.Sentences, addition.Sentences, x))
      && (forall y | y in e.Sentences :: y in running.Sentences || y in addition.Sentences)
  {
    hide EnrichLaws.Free, CleanSentences, MergeSentences;
    var clean := CleanSentences(u, |tokens|, addition.Sentences);
    var at := EnrichLaws.SentencesSanitised(u, |tokens|, addition.Sentences);
    var m := MergeSentences(running.Sentences, clean);
    var taken := EnrichLaws.SentencesMerged(running.Sentences, clean);
    forall y | y in clean ensures y in addition.Sentences {
      var k :| 0 <= k < |clean| && clean[k] == y;
    }
    forall y | y in m ensures y in running.Sentences || y in addition.Sentences {
      var p :| 0 <= p < |m| && m[p] == y;
      if p < |running.Sentences| {
        assert running.Sentences[p] == y;
      } else {
        assert clean[taken[p - |running.Sentences|]] == y;
      }
    }
    forall x | x in addition.Sentences && EnrichLaws.SentenceKept(u, |tokens|, x) &&
      EnrichLaws.Free(running.Sentences, x) ensures Answered(m, addition.Sentences, x) {
      var i: nat :| i < |addition.Sentences| && addition.Sentences[i] == x;
      assert i in at;
      var k :| 0 <= k < |at| && at[k] == i;
      assert clean[k] == x;
      AnswerCovered(running.Sentences, clean, x);
    }
  }

  // ---------------------------------------------------------------- the worker never knows less than is stored

  function Stored(l: Local): Enrichment {
    if l.enrichment.Some? then l.enrichment.value else EMPTY_ENRICHMENT
  }

  /** A worker about to store an enrichment holds everything that is stored. */
  ghost predicate Ahead(l: Local) {
    l.worker.Some? && (l.worker.value.InLoop? || l.worker.value.Unsaved? || l.worker.value.InTopUp?) ==>
      Extends(Stored(l), l.worker.value.running)
  }

  /** The stored enrichment could not be read, and there was one. */
  predicate Unread(s: Sys, step: Step, id: ArticleId) {
    step.Annotating? && step.id == id && step.enrich.Load? && !step.enrich.ok &&
    StoredEnrichment(s.db, id) != EMPTY_ENRICHMENT
  }

  /** Someone asks for the stored enrichment to be dropped. */
  predicate Drops(step: Step, id: ArticleId) {
    step.User? && step.id == id &&
    (step.user.Requeue? || step.user.Delete? || (step.user.ReEnrichArticle? && !step.user.topup))
  }

  lemma EnrichAhead(u: Unicode, s: Sys, id: ArticleId, act: EnrichAct)
    requires EnrichCan(s, id, act) && Ahead(Slice(s, id))
    ensures Ahead(Slice(DoEnrich(u, s, id, act), id)) <==> !Unread(s, Annotating(id, act), id)
    ensures Extends(Stored(Slice(s, id)), Stored(Slice(DoEnrich(u, s, id, act), id)))
  {
    hide Merge, Sanitize, Chunk.Chunks, ChunkDone, Coverage;
    var w := s.workers[id];
    Itself(Stored(Slice(s, id)));
    if act.Annotate? {
      MergeExtends(w.running, Sanitize(u, act.known, w.tokens, act.addition));
    }
  }

  lemma TopUpAhead(u: Unicode, s: Sys, id: ArticleId, act: TopUpAct)
    requires TopUpCan(s, id, act) && Ahead(Slice(s, id))
    ensures Ahead(Slice(DoTopUp(u, s, id, act), id))
    ensures Extends(Stored(Slice(s, id)), Stored(Slice(DoTopUp(u, s, id, act), id)))
  {
    hide Merge, Sanitize, FullyCovered, Coverage;
    var w := s.workers[id];
    Itself(Stored(Slice(s, id)));
    if act.TopUpSave? {
      MergeExtends(w.running, Sanitize(u, act.known, w.tokens, act.addition));
    }
  }

  lemma OtherAhead(u: Unicode, s: Sys, step: Step, id: ArticleId)
    requires Enabled(u, s, step) && Ahead(Slice(s, id)) && !step.Annotating? && !step.ToppingUp?
    ensures Ahead(Slice(Do(u, s, step), id))
    ensures !Drops(step, id) ==> Extends(Stored(Slice(s, id)), Stored(Slice(Do(u, s, step), id)))
  {
    hide TokensOf, SameButLemma, SqlBlank, GoBlank;
    Itself(Stored(Slice(s, id)));
    if !step.Crash? && step.id != id {
      OthersUntouched(u, s, step, id);
    }
  }

  lemma StepAhead(u: Unicode, s: Sys, step: Step, id: ArticleId)
    requires Enabled(u, s, step) && Ahead(Slice(s, id))
    ensures Ahead(Slice(Do(u, s, step), id)) <==> !Unread(s, step, id)
    ensures !Drops(step, id) ==> Extends(Stored(Slice(s, id)), Stored(Slice(Do(u, s, step), id)))
  {
    hide Ahead, Extends, DoEnrich, DoTopUp, DoUser, DoFill, DoFetch, EnrichCan, TopUpCan, Stored;
    if step.Annotating? || step.ToppingUp? {
      if step.id != id {
        OthersUntouched(u, s, step, id);
        Itself(Stored(Slice(s, id)));
      } else if step.Annotating? {
        EnrichAhead(u, s, id, step.enrich);
      } else {
        TopUpAhead(u, s, id, step.topUp);
      }
    } else {
      OtherAhead(u, s, step, id);
    }
  }

  // ---------------------------------------------------------------- whole runs

  lemma {:induction false} RunAhead(u: Unicode, states: seq<Sys>, steps: seq<Step>, k: nat, id: ArticleId)
    requires IsRun(u, states, steps) && states[0] == INITIAL && k < |states|
    requires forall i | 0 <= i < k :: !Unread(states[i], steps[i], id)
    ensures Ahead(Slice(states[k], id))
  {
    hide Enabled, Do, Unread, Slice;
    if k == 0 {
      StartAhead(id);
    } else {
      RunAhead(u, states, steps, k - 1, id);
      StepAhead(u, states[k - 1], steps[k - 1], id);
    }
  }

  lemma StartAhead(id: ArticleId)
    ensures Ahead(Slice(INITIAL, id))
  {
  }

  /** Over a run, the workers of an article know at any time what is stored about it exactly when no read of a stored
      enrichment has failed. */
  lemma AheadIff(u: Unicode, states: seq<Sys>, steps: seq<Step>, k: nat, id: ArticleId)
    requires IsRun(u, states, steps) && states[0] == INITIAL && k < |states|
    ensures (forall i | 0 <= i <= k :: Ahead(Slice(states[i], id))) <==>
      (forall i | 0 <= i < k :: !Unread(states[i], steps[i], id))
  {
    hide Enabled, Do, Unread, Slice, Ahead;
    if forall i | 0 <= i < k :: !Unread(states[i], steps[i], id) {
      forall i | 0 <= i <= k ensures Ahead(Slice(states[i], id)) {
        RunAhead(u, states, steps, i, id);
      }
    }
    if forall i | 0 <= i <= k :: Ahead(Slice(states[i], id)) {
      forall i | 0 <= i < k ensures !Unread(states[i], steps[i], id) {
        StepAhead(u, states[i], steps[i], id);
        assert Ahead(Slice(states[i + 1], id));
      }
    }
  }

  lemma ExtendsTrans(a: Enrichment, b: Enrichment, c: Enrichment)
    requires Extends(a, b) && Extends(b, c)
    ensures Extends(a, c)
  {
  }

  /** Over every run: whatever is stored about an article stays stored, and what is covered stays covered, until the
      article is requeued, re-enriched in full or deleted, if no read of a stored enrichment fails. In particular a
      top-up, from its request to the enriched status, loses nothing. */
  lemma {:induction false} NothingLost(u: Unicode, states: seq<Sys>, steps: seq<Step>, i: nat, j: nat, id: ArticleId)
    requires IsRun(u, states, steps) && states[0] == INITIAL && i <= j < |states|
    requires forall k | 0 <= k < j :: !Unread(states[k], steps[k], id)
    requires forall k | i <= k < j :: !Drops(steps[k], id)
    ensures Extends(StoredEnrichment(states[i].db, id), StoredEnrichment(states[j].db, id))
    ensures forall x | Covered(StoredEnrichment(states[i].db, id).Sentences, x) ::
      Covered(StoredEnrichment(states[j].db, id).Sentences, x)
  {
    hide Enabled, Do, Unread, Ahead, Extends, Covered, Drops;
    if i == j {
      Itself(StoredEnrichment(states[i].db, id));
    } else {
      NothingLost(u, states, steps, i, j - 1, id);
      RunAhead(u, states, steps, j - 1, id);
      StepAhead(u, states[j - 1], steps[j - 1], id);
      ExtendsTrans(StoredEnrichment(states[i].db, id), StoredEnrichment(states[j - 1].db, id),
        StoredEnrichment(states[j].db, id));
    }
    ExtendedCovers(StoredEnrichment(states[i].db, id), StoredEnrichment(states[j].db, id));
  }

  // ---------------------------------------------------------------- the read that loses it

  const TEXT := [Rune('a')]
  const TOKENS := [Token(0, "a", 0, 1, "")]
  const SAID := Sentence(0, 0, "x")
  const ANSWER := Enrichment([], [], [SAID], [])

  /** The one-word article, with what is stored about it and who works on it. */
  function At(id: ArticleId, status: Status, stored: map<ArticleId, Enrichment>, coverage: real,
        workers: map<ArticleId, Worker>): Sys {
    Sys(Db(map[id := Row(TEXT, TOKENS, status, 1, coverage, "", "")], stored), workers, map[], {id})
  }

  lemma Listing(u: Unicode, id: ArticleId, status: Status, stored: map<ArticleId, Enrichment>, coverage: real)
      returns (states: seq<Sys>, steps: seq<Step>)
    requires status == Fetched || status == Enriching
    ensures IsRun(u, states, steps) && states[0] == At(id, status, stored, coverage, map[])
    ensures states[|states| - 1] == At(id, Enriching, stored, coverage, map[id := LoadEnrich(TEXT, TOKENS)])
    ensures forall k | 0 <= k < |steps| :: !steps[k].User?
  {
    steps := [Fetch(id, Pick), Fetch(id, SkipFetch), Annotating(id, StartEnrich(true))];
    var s0 := At(id, status, stored, coverage, map[]);
    var s1 := Do(u, s0, steps[0]);
    var s2 := Do(u, s1, steps[1]);
    var s3 := Do(u, s2, steps[2]);
    states := [s0, s1, s2, s3];
    assert s3.db.articles == At(id, Enriching, stored, coverage, map[]).db.articles;
  }

  lemma OneWindow()
    ensures Chunk.Chunks(TEXT, TOKENS, 1) == [Span(0, 0)]
  {
    assert Chunk.ChunksFrom(TEXT, TOKENS, 1, 1) == [];
  }

  lemma Uncovered()
    ensures !SpanCovered([], Span(0, 0)) && Coverage([], 1) == 0.0
  {
    assert !Covered([], 0);
    assert CoveredCount([], 1) == CoveredCount([], 0) == 0;
  }

  /** The window is loaded with what could be read, answered and saved. */
  lemma Saving(u: Unicode, id: ArticleId, stored: map<ArticleId, Enrichment>, coverage: real, ok: bool, known: Known,
        answer: Enrichment, now: Enrichment) returns (states: seq<Sys>, steps: seq<Step>)
    requires (if ok && id in stored then stored[id] else EMPTY_ENRICHMENT) == EMPTY_ENRICHMENT
    requires now == Merge(EMPTY_ENRICHMENT, Sanitize(u, known, TOKENS, answer))
    ensures IsRun(u, states, steps)
    ensures states[0] == At(id, Enriching, stored, coverage, map[id := LoadEnrich(TEXT, TOKENS)])
    ensures states[|states| - 1] == At(id, Enriching, stored[id := now], Coverage(now.Sentences, 1),
      map[id := InLoop(TEXT, TOKENS, [Span(0, 0)], now, 1, false)])
    ensures |steps| == 3 && steps[0] == Annotating(id, Load(1, ok)) && !steps[1].User? && !steps[2].User?
  {
    hide Merge, Sanitize, Coverage, Chunk.Chunks, SpanCovered;
    OneWindow();
    Uncovered();
    steps := [Annotating(id, Load(1, ok)), Annotating(id, Annotate(known, answer)), Annotating(id, SaveChunk(true))];
    var s0 := At(id, Enriching, stored, coverage, map[id := LoadEnrich(TEXT, TOKENS)]);
    var s1 := Do(u, s0, steps[0]);
    assert s1.workers[id] == InLoop(TEXT, TOKENS, [Span(0, 0)], EMPTY_ENRICHMENT, 0, false);
    var s2 := Do(u, s1, steps[1]);
    var s3 := Do(u, s2, steps[2]);
    states := [s0, s1, s2, s3];
    assert s3.db.articles == At(id, Enriching, map[], Coverage(now.Sentences, 1), map[]).db.articles;
  }

  lemma Added(u: Unicode, id: ArticleId) returns (states: seq<Sys>, steps: seq<Step>)
    requires u.letter('a')
    ensures IsRun(u, states, steps) && states[0] == INITIAL && |steps| == 1
    ensures states[|states| - 1] == At(id, Fetched, map[], 0.0, map[])
  {
    WordTokens(u);
    hide TokensOf;
    steps := [User(id, AddText(1, TEXT, TOKENS))];
    states := [INITIAL, Do(u, INITIAL, steps[0])];
    assert states[1].db.articles == At(id, Fetched, map[], 0.0, map[]).db.articles;
  }

  lemma Killed(u: Unicode, s: Sys) returns (states: seq<Sys>, steps: seq<Step>)
    ensures IsRun(u, states, steps) && states[0] == s && |steps| == 1 && steps[0] == Crash
    ensures states[|states| - 1] == s.(workers := map[], backfill := map[])
  {
    steps := [Crash];
    states := [s, Do(u, s, Crash)];
  }

  lemma AnswerKept(u: Unicode, known: Known)
    requires !u.space('x')
    ensures Merge(EMPTY_ENRICHMENT, Sanitize(u, known, TOKENS, ANSWER)).Sentences == [SAID]
    ensures Merge(EMPTY_ENRICHMENT, Sanitize(u, known, TOKENS, EMPTY_ENRICHMENT)) == EMPTY_ENRICHMENT
  {
    Resume.OneSentence(u, known, TOKENS, ANSWER, SAID);
  }

  /** A run in which an annotated article loses its only sentence: killed after the window was saved, the article is
      picked up again, what is stored cannot be read, and the next answer says nothing. */
  lemma UnreadLoses(u: Unicode, id: ArticleId, known: Known) returns (states: seq<Sys>, steps: seq<Step>, k: nat)
    requires u.letter('a') && !u.space('x')
    ensures IsRun(u, states, steps) && states[0] == INITIAL && k < |states|
    ensures StoredEnrichment(states[k].db, id).Sentences == [SAID]
    ensures StoredEnrichment(states[|states| - 1].db, id) == EMPTY_ENRICHMENT
    ensures forall i | 0 < i < |steps| :: !steps[i].User?
  {
    hide Enabled, Do, Merge, Sanitize, Coverage, IsRun;
    AnswerKept(u, known);
    var now := Merge(EMPTY_ENRICHMENT, Sanitize(u, known, TOKENS, ANSWER));
    var stored := map[][id := now];
    var a, x := Added(u, id);
    var b, y := Listing(u, id, Fetched, map[], 0.0);
    a, x := Joined(u, a, x, b, y);
    b, y := Saving(u, id, map[], 0.0, true, known, ANSWER, now);
    a, x := Joined(u, a, x, b, y);
    k := |a| - 1;
    var first := a;
    b, y := Killed(u, a[|a| - 1]);
    a, x := Joined(u, a, x, b, y);
    b, y := Listing(u, id, Enriching, stored, Coverage(now.Sentences, 1));
    a, x := Joined(u, a, x, b, y);
    b, y := Saving(u, id, stored, Coverage(now.Sentences, 1), false, known, EMPTY_ENRICHMENT, EMPTY_ENRICHMENT);
    a, x := Joined(u, a, x, b, y);
    states, steps := a, x;
    assert states[k] == first[k];
  }

  lemma Joined(u: Unicode, a: seq<Sys>, x: seq<Step>, b: seq<Sys>, y: seq<Step>)
      returns (c: seq<Sys>, z: seq<Step>)
    requires IsRun(u, a, x) && IsRun(u, b, y) && a[|a| - 1] == b[0]
    requires forall i | 0 < i < |x| :: !x[i].User?
    requires x != [] && forall i | 0 <= i < |y| :: !y[i].User?
    ensures IsRun(u, c, z) && a <= c && c[|c| - 1] == b[|b| - 1] && z == x + y && c[0] == a[0]
    ensures |c| == |z| + 1 && forall i | 0 < i < |z| :: !z[i].User?
  {
    hide Enabled, Do;
    RunConcat(u, a, x, b, y);
    c, z := a + b[1..], x + y;
  }
}
