/** internal/enrich/enrich.go, internal/store/store.go: how an article's status moves. A worker can always go on and
    leaves a verdict; a retry puts the article back where work finds it; enriched means that no window failed; deleted
    means for good. */
module Lifecycle {
  import opened Model
  import opened Text
  import opened Rows
  import opened Pipeline
  import Chunk
  import Enrich

  // ---------------------------------------------------------------- a worker can always go on

  /** What a worker has picked up was waiting for work. */
  predicate Picked(s: Sys, id: ArticleId) {
    id in s.workers && s.workers[id].Listed? ==> AwaitsWork(s.workers[id].snap.Status)
  }

  lemma StepPicked(u: Unicode, s: Sys, step: Step, id: ArticleId)
    requires Enabled(u, s, step) && Picked(s, id)
    ensures Picked(Do(u, s, step), id)
  {
    hide TokensOf, SameButLemma, SqlBlank, GoBlank, Enrich.Merge, Enrich.Sanitize, Chunk.Chunks, ChunkDone,
      FullyCovered;
    if !step.Crash? && step.id != id {
      OthersUntouched(u, s, step, id);
      assert Get(Do(u, s, step).workers, id) == Get(s.workers, id);
    }
  }

  lemma {:induction false} RunPicked(u: Unicode, states: seq<Sys>, steps: seq<Step>, k: nat, id: ArticleId)
    requires IsRun(u, states, steps) && states[0] == INITIAL && k < |states|
    ensures Picked(states[k], id)
  {
    hide Enabled, Do;
    if k > 0 {
      RunPicked(u, states, steps, k - 1, id);
      StepPicked(u, states[k - 1], steps[k - 1], id);
    }
  }

  /** A step the worker can take. */
  function Next(s: Sys, id: ArticleId): Step
    requires id in s.workers
  {
    var w := s.workers[id];
    match w
    case Listed(snap) =>
      if snap.Status == TopupQueued then ToppingUp(id, StartTopUp)
      else if snap.Status in {Queued, Fetching} then Fetch(id, StartFetch(true))
      else Fetch(id, SkipFetch)
    case InFetch => Fetch(id, FetchFails(false, true))
    case EnterEnrich(_, _) => Annotating(id, StartEnrich(true))
    case LoadEnrich(_, _) => Annotating(id, Load(1, true))
    case InLoop(_, _, _, _, _, _) =>
      if !AtChunk(w) then Annotating(id, Finish("", true))
      else if ChunkDone(w) then Annotating(id, SkipChunk)
      else Annotating(id, ChunkFails)
    case Unsaved(_, _, _, _, _, _) => Annotating(id, SaveChunk(true))
    case InTopUp(_, _, _) => ToppingUp(id, if FullyCovered(w) then TopUpNothing(true) else TopUpFails(true))
  }

  /** In no state of a run is a worker stuck. */
  lemma NeverStuck(u: Unicode, states: seq<Sys>, steps: seq<Step>, k: nat, id: ArticleId)
    requires IsRun(u, states, steps) && states[0] == INITIAL && k < |states| && id in states[k].workers
    ensures Enabled(u, states[k], Next(states[k], id))
  {
    hide IsRun, ChunkDone, FullyCovered;
    RunPicked(u, states, steps, k, id);
  }

  // ---------------------------------------------------------------- a worker leaves a verdict

  /** The store call of the step succeeds, if it makes one. */
  predicate StoreWorks(step: Step) {
    match step
    case Fetch(_, FetchFails(_, ok)) => ok
    case Annotating(_, SaveChunk(ok)) => ok
    case Annotating(_, Finish(_, ok)) => ok
    case ToppingUp(_, TopUpNothing(ok)) => ok
    case ToppingUp(_, TopUpFails(ok)) => ok
    case _ => true
  }

  /** A worker that is done with an article that still exists leaves it enriched or failed, never waiting for work:
      enriched after a loop in which nothing failed or a top-up that was answered, and only then. */
  lemma LeavesVerdict(u: Unicode, s: Sys, step: Step)
    requires Enabled(u, s, step) && (step.Fetch? || step.Annotating? || step.ToppingUp?) && StoreWorks(step)
    requires step.id in s.workers && step.id in s.db.articles && step.id !in Do(u, s, step).workers
    ensures step.id in Do(u, s, step).db.articles
    ensures var w := s.workers[step.id];
      Do(u, s, step).db.articles[step.id].Status ==
        match step
        case Fetch(_, act) => if act.blocked then Blocked else FetchFailed
        case Annotating(_, act) => if w.failed && w.chunks != [] then EnrichFailed else Enriched
        case ToppingUp(_, act) => if act.TopUpFails? then EnrichFailed else Enriched
    ensures !AwaitsWork(Do(u, s, step).db.articles[step.id].Status)
  {
    hide TokensOf, SameButLemma, Enrich.Merge, Enrich.Sanitize, Chunk.Chunks, ChunkDone, FullyCovered, Enrich.Coverage;
  }

  // ---------------------------------------------------------------- what the user can ask for

  /** Nothing but spaces, as SQL trims them. */
  predicate OnlySpaces(text: seq<Piece>) {
    forall k | 0 <= k < |text| :: text[k] == Rune(' ')
  }

  lemma SqlBlankMeans(text: seq<Piece>)
    ensures SqlBlank(text) <==> OnlySpaces(text)
  {
    if SqlBlank(text) {
      assert forall k | 0 <= k < |text| :: text[k] in text;
    }
  }

  /** The row waits for the stage: a worker can pick it up, and then begin there. */
  ghost predicate WaitsFor(u: Unicode, s: Sys, id: ArticleId, stage: Step)
    requires id in s.db.articles
  {
    && AwaitsWork(s.db.articles[id].Status)
    && (id !in s.workers ==>
          && Enabled(u, s, Fetch(id, Pick))
          && Enabled(u, Do(u, s, Fetch(id, Pick)), stage))
  }

  /** An article added by its address waits to be fetched; one added as text, with its tokens, to be enriched. Nothing
      is stored about it yet. */
  lemma AddMeans(u: Unicode, s: Sys, id: ArticleId, act: UserAct)
    requires Enabled(u, s, User(id, act)) && (act.AddUrl? || act.AddText?) && id !in s.db.enrichments
    ensures var s' := Do(u, s, User(id, act));
      && id in s'.db.articles && id in s'.used && id !in s'.db.enrichments
      && (forall j | j != id :: Get(s'.db.articles, j) == Get(s.db.articles, j))
      && var row := s'.db.articles[id];
      && row.EnrichmentVersion == act.version && row.Coverage == 0.0 && row.Error == "" && row.LLMModel == ""
      && row.OriginalText == (if act.AddText? then act.text else [])
      && row.Tokens == (if act.AddText? then act.tokens else [])
      && WaitsFor(u, s', id, if act.AddText? then Fetch(id, SkipFetch) else Fetch(id, StartFetch(true)))
  {
    hide TokensOf;
  }

  /** A retry sends the article to the fetch stage when its text is blank, to the enrich stage otherwise; it keeps
      what is stored, and an article with tokens is never fetched again. */
  lemma RetryMeans(u: Unicode, s: Sys, id: ArticleId)
    requires id in s.db.articles
    ensures var s' := Do(u, s, User(id, Retry)); var row, row' := s.db.articles[id], s'.db.articles[id];
      && s'.db.enrichments == s.db.enrichments && s'.workers == s.workers
      && row' == row.(Status := row'.Status, Error := "")
      && (row'.Status == if OnlySpaces(row.OriginalText) then Queued else Fetched)
      && WaitsFor(u, s', id, if OnlySpaces(row.OriginalText) then Fetch(id, StartFetch(true)) else Fetch(id, SkipFetch))
      && (SpacesSeparate(u) && RowOk(u, row, Get(s.db.enrichments, id)) && row.Tokens != [] ==> row'.Status == Fetched)
  {
    hide RowOk, TokensOf;
    var row := s.db.articles[id];
    SqlBlankMeans(row.OriginalText);
    if SpacesSeparate(u) && RowOk(u, row, Get(s.db.enrichments, id)) && SqlBlank(row.OriginalText) {
      RowTokens(u, row, Get(s.db.enrichments, id));
      BlankHasNoTokens(u, row.OriginalText, row.Tokens);
    }
  }

  lemma RowTokens(u: Unicode, row: Row, stored: Option<Enrichment>)
    requires RowOk(u, row, stored)
    ensures TokensOf(u, row.OriginalText, row.Tokens)
  {
  }

  /** A requeue at a new version forgets the enrichment with its coverage and starts over where the text allows: the
      fetch stage for a text of white space, the enrich stage otherwise. */
  lemma RequeueMeans(u: Unicode, s: Sys, id: ArticleId, version: int)
    requires id in s.db.articles
    ensures var s' := Do(u, s, User(id, Requeue(version))); var row, row' := s.db.articles[id], s'.db.articles[id];
      var blank := forall k | 0 <= k < |row.OriginalText| ::
        row.OriginalText[k].Rune? && u.space(row.OriginalText[k].c);
      && id !in s'.db.enrichments && (forall j | j != id :: Get(s'.db.enrichments, j) == Get(s.db.enrichments, j))
      && row' == row.(Status := row'.Status, EnrichmentVersion := version, Coverage := 0.0, Error := "")
      && WaitsFor(u, s', id, if blank then Fetch(id, StartFetch(true)) else Fetch(id, SkipFetch))
  {
    GoBlankMeans(u, s.db.articles[id].OriginalText);
    hide GoBlank, TokensOf;
  }

  lemma GoBlankMeans(u: Unicode, text: seq<Piece>)
    ensures GoBlank(u, text) <==> forall k | 0 <= k < |text| :: text[k].Rune? && u.space(text[k].c)
  {
    if GoBlank(u, text) {
      assert forall k | 0 <= k < |text| :: text[k] in text;
    }
  }

  /** A re-enrichment in full forgets the enrichment and goes to the enrich stage; a top-up keeps it and goes to the
      top-up stage. Neither touches the content. */
  lemma ReEnrichMeans(u: Unicode, s: Sys, id: ArticleId, topup: bool)
    requires id in s.db.articles
    ensures var s' := Do(u, s, User(id, ReEnrichArticle(topup)));
      var row, row' := s.db.articles[id], s'.db.articles[id];
      && Get(s'.db.enrichments, id) == (if topup then Get(s.db.enrichments, id) else None)
      && (forall j | j != id :: Get(s'.db.enrichments, j) == Get(s.db.enrichments, j))
      && row' == row.(Status := row'.Status, Coverage := if topup then row.Coverage else 0.0, Error := "")
      && WaitsFor(u, s', id, if topup then ToppingUp(id, StartTopUp) else Fetch(id, SkipFetch))
  {
    hide TokensOf;
  }

  // ---------------------------------------------------------------- deleted for good

  /** No row and no enrichment under an id that was given out. */
  predicate Gone(s: Sys, id: ArticleId) {
    id in s.used && id !in s.db.articles && id !in s.db.enrichments
  }

  lemma StepUsed(u: Unicode, s: Sys, step: Step)
    requires Enabled(u, s, step) && s.db.articles.Keys <= s.used
    ensures Do(u, s, step).db.articles.Keys <= Do(u, s, step).used
  {
    hide TokensOf, SameButLemma, SqlBlank, GoBlank, Enrich.Merge, Enrich.Sanitize, Chunk.Chunks, ChunkDone,
      FullyCovered, Enrich.Coverage;
  }

  lemma {:induction false} RunUsed(u: Unicode, states: seq<Sys>, steps: seq<Step>, k: nat)
    requires IsRun(u, states, steps) && states[0] == INITIAL && k < |states|
    ensures states[k].db.articles.Keys <= states[k].used
  {
    hide Enabled, Do;
    if k > 0 {
      RunUsed(u, states, steps, k - 1);
      StepUsed(u, states[k - 1], steps[k - 1]);
    }
  }

  lemma StepGone(u: Unicode, s: Sys, step: Step, id: ArticleId)
    requires Enabled(u, s, step) && Gone(s, id)
    ensures Gone(Do(u, s, step), id)
  {
    hide TokensOf, SameButLemma, SqlBlank, GoBlank, Enrich.Merge, Enrich.Sanitize, Chunk.Chunks, ChunkDone,
      FullyCovered, Enrich.Coverage;
    if !step.Crash? && step.id != id {
      OthersUntouched(u, s, step, id);
      var l, l' := Slice(s, id), Slice(Do(u, s, step), id);
      assert l'.row == l.row && l'.enrichment == l.enrichment && l'.used == l.used;
    }
  }

  /** A deleted article never comes back, whatever a worker still holds of it in memory. */
  lemma {:induction false} DeletedForGood(u: Unicode, states: seq<Sys>, steps: seq<Step>, i: nat, j: nat, id: ArticleId)
    requires IsRun(u, states, steps) && states[0] == INITIAL && i < j < |states|
    requires steps[i] == User(id, Delete) && id in states[i].db.articles
    ensures Gone(states[j], id)
    decreases j
  {
    hide Enabled, Do, Gone;
    if i + 1 < j {
      DeletedForGood(u, states, steps, i, j - 1, id);
      StepGone(u, states[j - 1], steps[j - 1], id);
    } else {
      RunUsed(u, states, steps, i);
      DeleteGone(u, states[i], id);
    }
  }

  lemma DeleteGone(u: Unicode, s: Sys, id: ArticleId)
    requires id in s.db.articles && s.db.articles.Keys <= s.used
    ensures Gone(Do(u, s, User(id, Delete)), id)
  {
  }

  // ---------------------------------------------------------------- enriched means nothing failed

  predicate Loads(step: Step, id: ArticleId) {
    step.Annotating? && step.id == id && step.enrich.Load?
  }

  /** A window that could not be annotated, or not be saved. */
  predicate Fails(step: Step, id: ArticleId) {
    step.Annotating? && step.id == id && (step.enrich.ChunkFails? || step.enrich == SaveChunk(false))
  }

  /** Since the worker of the article last loaded it, before step k, a window has failed. */
  ghost predicate FailedSince(steps: seq<Step>, k: nat, id: ArticleId)
    requires k <= |steps|
  {
    exists i | 0 <= i < k :: Fails(steps[i], id) && forall j | i < j < k :: !Loads(steps[j], id)
  }

  predicate InRun(s: Sys, id: ArticleId) {
    id in s.workers && (s.workers[id].InLoop? || s.workers[id].Unsaved?)
  }

  /** The worker's flag says whether a window has failed since the load. */
  ghost predicate FlagTrue(s: Sys, steps: seq<Step>, k: nat, id: ArticleId)
    requires k <= |steps|
  {
    InRun(s, id) ==>
      (s.workers[id].failed <==> FailedSince(steps, k, id)) &&
      (s.workers[id].failed || s.workers[id].Unsaved? ==> s.workers[id].chunks != [])
  }

  lemma FailedNext(steps: seq<Step>, k: nat, id: ArticleId)
    requires k < |steps|
    ensures FailedSince(steps, k + 1, id) <==>
      Fails(steps[k], id) || (FailedSince(steps, k, id) && !Loads(steps[k], id))
  {
    hide Fails, Loads;
  }

  lemma FlagStep(u: Unicode, s: Sys, step: Step, id: ArticleId)
    requires Enabled(u, s, step)
    ensures var s' := Do(u, s, step);
      InRun(s', id) ==>
        || (Loads(step, id) && !s'.workers[id].failed && s'.workers[id].InLoop?)
        || (!Loads(step, id) && InRun(s, id) && s'.workers[id].chunks == s.workers[id].chunks &&
             s'.workers[id].failed == (s.workers[id].failed || Fails(step, id)) &&
             (Fails(step, id) ==> s.workers[id].Unsaved? || s.workers[id].chunks != []) &&
             (s'.workers[id].Unsaved? ==> s.workers[id].Unsaved? || s.workers[id].chunks != []))
  {
    hide TokensOf, SameButLemma, SqlBlank, GoBlank, Enrich.Merge, Enrich.Sanitize, Chunk.Chunks, ChunkDone,
      FullyCovered, SaveEnrichmentProgress, SaveEnrichment;
    if !step.Crash? && step.id != id {
      OthersUntouched(u, s, step, id);
      assert Get(Do(u, s, step).workers, id) == Get(s.workers, id);
    }
  }

  lemma {:induction false} RunFlag(u: Unicode, states: seq<Sys>, steps: seq<Step>, k: nat, id: ArticleId)
    requires IsRun(u, states, steps) && states[0] == INITIAL && k < |states|
    ensures FlagTrue(states[k], steps, k, id)
  {
    hide Enabled, Do, FailedSince, Loads, Fails;
    if k > 0 {
      RunFlag(u, states, steps, k - 1, id);
      FlagStep(u, states[k - 1], steps[k - 1], id);
      FailedNext(steps, k - 1, id);
      LoadsNoFailure(steps[k - 1], id);
    }
  }

  lemma LoadsNoFailure(step: Step, id: ArticleId)
    ensures !(Loads(step, id) && Fails(step, id))
  {
  }

  /** The end of the loop marks the article enriched exactly when no window has failed since the worker loaded it, and
      failed otherwise; a failed one is left for a retry. */
  lemma EnrichedIff(u: Unicode, states: seq<Sys>, steps: seq<Step>, k: nat, id: ArticleId, llmModel: string)
    requires IsRun(u, states, steps) && states[0] == INITIAL && k < |steps|
    requires steps[k] == Annotating(id, Finish(llmModel, true)) && id in states[k].db.articles
    ensures id in states[k + 1].db.articles
    ensures states[k + 1].db.articles[id].Status == if FailedSince(steps, k, id) then EnrichFailed else Enriched
  {
    hide FailedSince, FlagTrue, IsRun;
    StepTaken(u, states, steps, k);
    RunFlag(u, states, steps, k, id);
    FinishStatus(u, states[k], steps, k, id, llmModel);
  }

  lemma StepTaken(u: Unicode, states: seq<Sys>, steps: seq<Step>, k: nat)
    requires IsRun(u, states, steps) && k < |steps|
    ensures |states| == |steps| + 1 && Enabled(u, states[k], steps[k]) && states[k + 1] == Do(u, states[k], steps[k])
  {
  }

  lemma FinishStatus(u: Unicode, s: Sys, steps: seq<Step>, k: nat, id: ArticleId, llmModel: string)
    requires k <= |steps| && FlagTrue(s, steps, k, id) && id in s.db.articles
    requires Enabled(u, s, Annotating(id, Finish(llmModel, true)))
    ensures var s' := Do(u, s, Annotating(id, Finish(llmModel, true)));
      && id in s'.db.articles
      && s'.db.articles[id].Status == if FailedSince(steps, k, id) then EnrichFailed else Enriched
  {
    hide FailedSince, Enrich.Coverage;
  }

  // ---------------------------------------------------------------- a crash loses no work

  /** An article a worker is busy with counts as waiting for work. */
  predicate WorkWaits(s: Sys, id: ArticleId) {
    id in s.workers && id in s.db.articles ==> AwaitsWork(s.db.articles[id].Status)
  }

  lemma UserWaits(u: Unicode, s: Sys, id: ArticleId, act: UserAct)
    requires UserCan(u, s, id, act) && WorkWaits(s, id)
    ensures WorkWaits(DoUser(u, s, id, act), id)
  {
    hide TokensOf, SqlBlank, GoBlank;
  }

  lemma WorkerWaits(u: Unicode, s: Sys, step: Step)
    requires Enabled(u, s, step) && (step.Fetch? || step.Annotating? || step.ToppingUp?) && WorkWaits(s, step.id)
    ensures WorkWaits(Do(u, s, step), step.id)
  {
    hide TokensOf, SameButLemma, Enrich.Merge, Enrich.Sanitize, Chunk.Chunks, ChunkDone, FullyCovered, Enrich.Coverage;
  }

  lemma StepWaits(u: Unicode, s: Sys, step: Step, id: ArticleId)
    requires Enabled(u, s, step) && WorkWaits(s, id)
    ensures WorkWaits(Do(u, s, step), id)
  {
    if !step.Crash? && step.id != id {
      hide Enabled, Do;
      OthersUntouched(u, s, step, id);
      var l, l' := Slice(s, id), Slice(Do(u, s, step), id);
      assert l'.row == l.row && l'.worker == l.worker;
    } else if step.User? {
      hide DoUser, UserCan;
      UserWaits(u, s, id, step.user);
    } else if step.Fetch? || step.Annotating? || step.ToppingUp? {
      hide Enabled, Do;
      WorkerWaits(u, s, step);
    }
  }

  lemma {:induction false} RunWaits(u: Unicode, states: seq<Sys>, steps: seq<Step>, k: nat, id: ArticleId)
    requires IsRun(u, states, steps) && states[0] == INITIAL && k < |states|
    ensures WorkWaits(states[k], id)
  {
    hide Enabled, Do;
    if k > 0 {
      RunWaits(u, states, steps, k - 1, id);
      StepWaits(u, states[k - 1], steps[k - 1], id);
    }
  }

  /** Killed in any state of a run, the process finds every article it was working on again. */
  lemma CrashResumes(u: Unicode, states: seq<Sys>, steps: seq<Step>, k: nat, id: ArticleId)
    requires IsRun(u, states, steps) && states[0] == INITIAL && k < |states|
    requires id in states[k].workers && id in states[k].db.articles
    ensures var s := Do(u, states[k], Crash); s.db == states[k].db && Enabled(u, s, Fetch(id, Pick))
  {
    hide IsRun;
    RunWaits(u, states, steps, k, id);
  }

  // ---------------------------------------------------------------- what the stages store

  /** A fetch stores the text with its tokens, and the worker goes on with them to the enrich stage. */
  lemma FetchStores(u: Unicode, s: Sys, id: ArticleId, text: seq<Piece>, tokens: seq<Token>)
    requires Enabled(u, s, Fetch(id, FetchOk(text, tokens))) && id in s.db.articles
    ensures var s' := Do(u, s, Fetch(id, FetchOk(text, tokens))); var row := s'.db.articles[id];
      && row.OriginalText == text && row.Tokens == tokens && row.Status == Fetched && row.Error == ""
      && row.EnrichmentVersion == s.db.articles[id].EnrichmentVersion
      && s'.db.enrichments == s.db.enrichments
      && Enabled(u, s', Annotating(id, StartEnrich(true))) && s'.workers[id].text == text &&
           s'.workers[id].tokens == tokens
  {
  }

  /** A saved window is stored at once, with its coverage, so that a crash after it costs nothing; and a loop that ends
      well has stored all it holds. */
  lemma LoopStores(u: Unicode, s: Sys, id: ArticleId, act: EnrichAct)
    requires Enabled(u, s, Annotating(id, act)) && id in s.db.articles
    requires act == SaveChunk(true) || (act.Finish? && act.ok && !s.workers[id].failed)
    ensures var s' := Do(u, s, Annotating(id, act)); var running := s.workers[id].running;
      && id in s'.db.enrichments && s'.db.enrichments[id] == running && id in s'.db.articles
      && s'.db.articles[id].Coverage == Enrich.Coverage(running.Sentences, |s.db.articles[id].Tokens|)
  {
    hide Enrich.Coverage;
  }

  /** Picked up again, a worker begins with what is stored; */
  lemma LoadReads(u: Unicode, s: Sys, id: ArticleId, maxTokens: int)
    requires Enabled(u, s, Annotating(id, Load(maxTokens, true)))
    ensures var w := Do(u, s, Annotating(id, Load(maxTokens, true))).workers[id];
      w.InLoop? && w.running == StoredEnrichment(s.db, id) && w.ci == 0 && !w.failed
  {
    hide Chunk.Chunks;
  }

  /** and it passes over a window exactly when each of its tokens is in a sentence already, asking the model
      otherwise. */
  lemma SkipsCovered(s: Sys, id: ArticleId, known: Enrich.Known, addition: Enrichment)
    requires id in s.workers && AtChunk(s.workers[id])
    ensures var w := s.workers[id]; var window := w.chunks[w.ci];
      && (EnrichCan(s, id, SkipChunk) <==>
            forall i | window.Start <= i <= window.End :: Enrich.Covered(w.running.Sentences, i))
      && (EnrichCan(s, id, Annotate(known, addition)) <==> !EnrichCan(s, id, SkipChunk))
  {
  }
}
