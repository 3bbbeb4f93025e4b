/** internal/enrich/enrich.go over internal/store/store.go: the fetch/enrich pipeline as a step system.
    One worker per article; user actions, crashes and failing store calls may fall between any two
    store calls. The language model is arbitrary: what it returns is part of the step. */
module Pipeline {
  import opened Model
  import opened Text
  import opened Rows
  import Tokenizer
  import Chunk
  import Enrich

  // ---------------------------------------------------------------- state

  /** Where a worker stands between two store calls, with the article it holds in memory. */
  datatype Worker =
    | Listed(snap: Row)
    | InFetch
    | EnterEnrich(text: seq<Piece>, tokens: seq<Token>)
    | LoadEnrich(text: seq<Piece>, tokens: seq<Token>)
    | InLoop(text: seq<Piece>, tokens: seq<Token>, chunks: seq<Span>, running: Enrichment, ci: nat, failed: bool)
    | Unsaved(text: seq<Piece>, tokens: seq<Token>, chunks: seq<Span>, running: Enrichment, ci: nat, failed: bool)
    | InTopUp(text: seq<Piece>, tokens: seq<Token>, running: Enrichment)

  /** `backfill` holds the token lists the lemma backfill has read and not yet written back;
      `used` the ids ever given out. */
  datatype Sys = Sys(
    db: Db,
    workers: map<ArticleId, Worker>,
    backfill: map<ArticleId, seq<Token>>,
    used: set<ArticleId>)

  const INITIAL := Sys(Db(map[], map[]), map[], map[], {})

  datatype UserAct =
    | AddUrl(version: int)
    | AddText(version: int, text: seq<Piece>, tokens: seq<Token>)
    | Retry
    | Requeue(version: int)
    | ReEnrichArticle(topup: bool)
    | Delete

  datatype FillAct = Read | Write(tokens: seq<Token>)

  /** `ok` is false where the code logs a failed store call and goes on. */
  datatype FetchAct =
    | Pick
    | StartFetch(ok: bool)
    | FetchOk(text: seq<Piece>, tokens: seq<Token>)
    | FetchFails(blocked: bool, ok: bool)
    | SkipFetch

  datatype EnrichAct =
    | StartEnrich(ok: bool)
    | Load(maxTokens: int, ok: bool)
    | SkipChunk
    | Annotate(known: Enrich.Known, addition: Enrichment)
    | ChunkFails
    | SaveChunk(ok: bool)
    | Finish(llmModel: string, ok: bool)

  datatype TopUpAct =
    | StartTopUp
    | MarkTopUp(ok: bool)
    | TopUpNothing(ok: bool)
    | TopUpSave(known: Enrich.Known, addition: Enrichment, llmModel: string)
    | TopUpFails(ok: bool)

  datatype Step =
    | Crash
    | Abandon(id: ArticleId)
    | User(id: ArticleId, user: UserAct)
    | Backfill(id: ArticleId, fill: FillAct)
    | Fetch(id: ArticleId, fetch: FetchAct)
    | Annotating(id: ArticleId, enrich: EnrichAct)
    | ToppingUp(id: ArticleId, topUp: TopUpAct)

  /** The same tokens, lemmas aside: what the lemmatizer may change. */
  predicate SameButLemma(a: seq<Token>, b: seq<Token>) {
    |a| == |b| && forall k | 0 <= k < |a| :: a[k].(Lemma := "") == b[k].(Lemma := "")
  }

  /** tokens are the tokens of text, possibly annotated with lemmas. */
  ghost predicate TokensOf(u: Unicode, text: seq<Piece>, tokens: seq<Token>) {
    exists plain :: Tokenizer.IsTokenization(u, text, plain) && SameButLemma(tokens, plain)
  }

  ghost predicate UserCan(u: Unicode, s: Sys, id: ArticleId, act: UserAct) {
    match act
    case AddUrl(_) => id !in s.used
    case AddText(_, text, tokens) => id !in s.used && TokensOf(u, text, tokens)
    case _ => true
  }

  predicate FillCan(s: Sys, id: ArticleId, act: FillAct) {
    match act
    // The backfill query leaves out rows whose token list was never written (text is "" exactly then).
    case Read => id in s.db.articles && s.db.articles[id].OriginalText != []
    case Write(tokens) => id in s.backfill && SameButLemma(tokens, s.backfill[id])
  }

  ghost predicate FetchCan(u: Unicode, s: Sys, id: ArticleId, act: FetchAct) {
    match act
    case Pick => id !in s.workers && id in s.db.articles && AwaitsWork(s.db.articles[id].Status)
    case StartFetch(_) => id in s.workers && s.workers[id].Listed? && s.workers[id].snap.Status in {Queued, Fetching}
    case FetchOk(text, tokens) => id in s.workers && s.workers[id].InFetch? && TokensOf(u, text, tokens)
    case FetchFails(_, _) => id in s.workers && s.workers[id].InFetch?
    case SkipFetch => id in s.workers && s.workers[id].Listed? && s.workers[id].snap.Status in {Fetched, Enriching}
  }

  predicate EnrichCan(s: Sys, id: ArticleId, act: EnrichAct) {
    id in s.workers &&
    var w := s.workers[id];
    match act
    case StartEnrich(_) => w.EnterEnrich?
    case Load(_, _) => w.LoadEnrich?
    case SkipChunk => AtChunk(w) && ChunkDone(w)
    case Annotate(_, _) => AtChunk(w) && !ChunkDone(w)
    case ChunkFails => AtChunk(w) && !ChunkDone(w)
    case SaveChunk(_) => w.Unsaved?
    case Finish(_, _) => w.InLoop? && w.ci >= |w.chunks|
  }

  predicate TopUpCan(s: Sys, id: ArticleId, act: TopUpAct) {
    id in s.workers &&
    var w := s.workers[id];
    match act
    case StartTopUp => w.Listed? && w.snap.Status == TopupQueued
    case TopUpNothing(_) => w.InTopUp? && FullyCovered(w)
    case _ => w.InTopUp? && !FullyCovered(w)
  }

  ghost predicate Enabled(u: Unicode, s: Sys, step: Step) {
    match step
    case Crash => true
    case Abandon(id) => id in s.workers
    case User(id, act) => UserCan(u, s, id, act)
    case Backfill(id, act) => FillCan(s, id, act)
    case Fetch(id, act) => FetchCan(u, s, id, act)
    case Annotating(id, act) => EnrichCan(s, id, act)
    case ToppingUp(id, act) => TopUpCan(s, id, act)
  }

  predicate AtChunk(w: Worker) {
    w.InLoop? && w.ci < |w.chunks|
  }

  predicate ChunkDone(w: Worker)
    requires AtChunk(w)
  {
    Enrich.SpanCovered(w.running.Sentences, w.chunks[w.ci])
  }

  /** uncoveredSpans is empty. */
  predicate FullyCovered(w: Worker)
    requires w.InTopUp?
  {
    forall i | 0 <= i < |w.tokens| :: Enrich.Covered(w.running.Sentences, i)
  }

  function Move(s: Sys, id: ArticleId, db: Db, w: Worker): Sys {
    s.(db := db, workers := s.workers[id := w])
  }

  function Leave(s: Sys, id: ArticleId, db: Db): Sys {
    s.(db := db, workers := s.workers - {id})
  }

  function Fresh(s: Sys, id: ArticleId, row: Row): Sys {
    s.(db := Put(s.db, id, row), used := s.used + {id})
  }

  function DoUser(u: Unicode, s: Sys, id: ArticleId, act: UserAct): Sys {
    match act
    case AddUrl(version) => Fresh(s, id, Row([], [], Queued, version, 0.0, "", ""))
    case AddText(version, text, tokens) => Fresh(s, id, Row(text, tokens, Fetched, version, 0.0, "", ""))
    case Retry => s.(db := RetryArticle(s.db, id))
    case Requeue(version) => s.(db := RequeueForVersion(u, s.db, id, version))
    case ReEnrichArticle(topup) => s.(db := ReEnrich(s.db, id, topup))
    case Delete => s.(db := DeleteArticle(s.db, id))
  }

  function DoFill(s: Sys, id: ArticleId, act: FillAct): Sys
    requires FillCan(s, id, act)
  {
    match act
    case Read => s.(backfill := s.backfill[id := s.db.articles[id].Tokens])
    case Write(tokens) => s.(db := SaveTokenLemmas(s.db, id, tokens), backfill := s.backfill - {id})
  }

  function DoFetch(u: Unicode, s: Sys, id: ArticleId, act: FetchAct): Sys
    requires FetchCan(u, s, id, act)
  {
    match act
    case Pick => Move(s, id, s.db, Listed(s.db.articles[id]))
    case StartFetch(ok) => Move(s, id, if ok then SetStatus(s.db, id, Fetching, "") else s.db, InFetch)
    case FetchOk(text, tokens) =>
      if id in s.db.articles then Move(s, id, SaveContent(s.db, id, text, tokens), EnterEnrich(text, tokens))
      else Leave(s, id, s.db)
    case FetchFails(blocked, ok) =>
      Leave(s, id, if ok then SetStatus(s.db, id, if blocked then Blocked else FetchFailed, "error") else s.db)
    case SkipFetch => Move(s, id, s.db, EnterEnrich(s.workers[id].snap.OriginalText, s.workers[id].snap.Tokens))
  }

  function DoEnrich(u: Unicode, s: Sys, id: ArticleId, act: EnrichAct): Sys
    requires EnrichCan(s, id, act)
  {
    var w := s.workers[id];
    match act
    case StartEnrich(ok) =>
      Move(s, id, if ok then SetStatus(s.db, id, Enriching, "") else s.db, LoadEnrich(w.text, w.tokens))
    case Load(maxTokens, ok) =>
      var running := if ok then StoredEnrichment(s.db, id) else EMPTY_ENRICHMENT;
      Move(s, id, s.db, InLoop(w.text, w.tokens, Chunk.Chunks(w.text, w.tokens, maxTokens), running, 0, false))
    case SkipChunk => Move(s, id, s.db, InLoop(w.text, w.tokens, w.chunks, w.running, w.ci + 1, w.failed))
    case Annotate(known, addition) =>
      var merged := Enrich.Merge(w.running, Enrich.Sanitize(u, known, w.tokens, addition));
      Move(s, id, s.db, Unsaved(w.text, w.tokens, w.chunks, merged, w.ci, w.failed))
    case ChunkFails => Move(s, id, s.db, InLoop(w.text, w.tokens, w.chunks, w.running, w.ci + 1, true))
    case SaveChunk(ok) =>
      if !ok then Move(s, id, s.db, InLoop(w.text, w.tokens, w.chunks, w.running, w.ci + 1, true))
      else if id in s.db.articles then
        Move(s, id, SaveEnrichmentProgress(s.db, id, w.running),
          InLoop(w.text, w.tokens, w.chunks, w.running, w.ci + 1, w.failed))
      else Leave(s, id, s.db)
    case Finish(llmModel, ok) =>
      if w.chunks == [] then Leave(s, id, if ok then SaveEnrichment(s.db, id, w.running, "") else s.db)
      else if w.failed then Leave(s, id, if ok then SetStatus(s.db, id, EnrichFailed, "error") else s.db)
      else if ok then Leave(s, id, SaveEnrichment(s.db, id, w.running, llmModel))
      else Leave(s, id, SetStatus(s.db, id, EnrichFailed, "error"))
  }

  function DoTopUp(u: Unicode, s: Sys, id: ArticleId, act: TopUpAct): Sys
    requires TopUpCan(s, id, act)
  {
    var w := s.workers[id];
    match act
    case StartTopUp =>
      if id !in s.db.articles then Leave(s, id, s.db)
      else
        var snap, row := w.snap, s.db.articles[id];
        Move(s, id, s.db, InTopUp(if snap.OriginalText == [] then row.OriginalText else snap.OriginalText,
                                  if snap.Tokens == [] then row.Tokens else snap.Tokens,
                                  StoredEnrichment(s.db, id)))
    case MarkTopUp(ok) => s.(db := if ok then SetStatus(s.db, id, Enriching, "") else s.db)
    case TopUpNothing(ok) => Leave(s, id, if ok then SaveEnrichment(s.db, id, w.running, "") else s.db)
    case TopUpSave(known, addition, llmModel) =>
      var merged := Enrich.Merge(w.running, Enrich.Sanitize(u, known, w.tokens, addition));
      Leave(s, id, SaveEnrichment(s.db, id, merged, llmModel))
    case TopUpFails(ok) => Leave(s, id, if ok then SetStatus(s.db, id, EnrichFailed, "error") else s.db)
  }

  /** The state after an enabled step. */
  function Do(u: Unicode, s: Sys, step: Step): Sys
    requires Enabled(u, s, step)
  {
    match step
    case Crash => s.(workers := map[], backfill := map[])
    case Abandon(id) => Leave(s, id, s.db)
    case User(id, act) => DoUser(u, s, id, act)
    case Backfill(id, act) => DoFill(s, id, act)
    case Fetch(id, act) => DoFetch(u, s, id, act)
    case Annotating(id, act) => DoEnrich(u, s, id, act)
    case ToppingUp(id, act) => DoTopUp(u, s, id, act)
  }

  // ---------------------------------------------------------------- one article's part of the state

  /** Everything the system holds about one article. */
  datatype Local = Local(
    row: Option<Row>, enrichment: Option<Enrichment>, worker: Option<Worker>, read: Option<seq<Token>>, used: bool)

  function Get<V>(m: map<ArticleId, V>, id: ArticleId): Option<V> {
    if id in m then Some(m[id]) else None
  }

  function Slice(s: Sys, id: ArticleId): Local {
    Local(Get(s.db.articles, id), Get(s.db.enrichments, id), Get(s.workers, id), Get(s.backfill, id), id in s.used)
  }

  function DbSlice(db: Db, id: ArticleId): (Option<Row>, Option<Enrichment>) {
    (Get(db.articles, id), Get(db.enrichments, id))
  }

  /** Store methods touch the row and enrichment of their own article only. */
  lemma DbFrame(u: Unicode, db: Db, j: ArticleId, id: ArticleId)
    requires j != id
    ensures forall st, err :: DbSlice(SetStatus(db, j, st, err), id) == DbSlice(db, id)
    ensures forall text, tokens :: DbSlice(SaveContent(db, j, text, tokens), id) == DbSlice(db, id)
    ensures forall tokens :: DbSlice(SaveTokenLemmas(db, j, tokens), id) == DbSlice(db, id)
    ensures forall e :: DbSlice(SaveEnrichmentProgress(db, j, e), id) == DbSlice(db, id)
    ensures forall e, model :: DbSlice(SaveEnrichment(db, j, e, model), id) == DbSlice(db, id)
    ensures forall row :: DbSlice(Put(db, j, row), id) == DbSlice(db, id)
    ensures DbSlice(RetryArticle(db, j), id) == DbSlice(db, id)
    ensures forall v :: DbSlice(RequeueForVersion(u, db, j, v), id) == DbSlice(db, id)
    ensures forall topup :: DbSlice(ReEnrich(db, j, topup), id) == DbSlice(db, id)
    ensures DbSlice(DeleteArticle(db, j), id) == DbSlice(db, id)
  {
    hide Enrich.Coverage;
  }

  lemma FetchFrame(u: Unicode, s: Sys, j: ArticleId, act: FetchAct, id: ArticleId)
    requires FetchCan(u, s, j, act) && j != id
    ensures Slice(DoFetch(u, s, j, act), id) == Slice(s, id)
  {
    hide TokensOf, SetStatus, SaveContent;
    DbFrame(u, s.db, j, id);
    assert DbSlice(DoFetch(u, s, j, act).db, id) == DbSlice(s.db, id);
  }

  lemma EnrichFrame(u: Unicode, s: Sys, j: ArticleId, act: EnrichAct, id: ArticleId)
    requires EnrichCan(s, j, act) && j != id
    ensures Slice(DoEnrich(u, s, j, act), id) == Slice(s, id)
  {
    hide Enrich.Merge, Enrich.Sanitize, Chunk.Chunks, ChunkDone, StoredEnrichment;
    hide SetStatus, SaveEnrichmentProgress, SaveEnrichment;
    DbFrame(u, s.db, j, id);
    assert DbSlice(DoEnrich(u, s, j, act).db, id) == DbSlice(s.db, id);
  }

  lemma TopUpFrame(u: Unicode, s: Sys, j: ArticleId, act: TopUpAct, id: ArticleId)
    requires TopUpCan(s, j, act) && j != id
    ensures Slice(DoTopUp(u, s, j, act), id) == Slice(s, id)
  {
    hide Enrich.Merge, Enrich.Sanitize, FullyCovered, StoredEnrichment, SetStatus, SaveEnrichment;
    DbFrame(u, s.db, j, id);
    assert DbSlice(DoTopUp(u, s, j, act).db, id) == DbSlice(s.db, id);
  }

  /** A step leaves every other article and its worker alone. */
  lemma OthersUntouched(u: Unicode, s: Sys, step: Step, id: ArticleId)
    requires Enabled(u, s, step) && !step.Crash? && step.id != id
    ensures Slice(Do(u, s, step), id) == Slice(s, id)
  {
    hide DoFetch, DoEnrich, DoTopUp, FetchCan, EnrichCan, TopUpCan, TokensOf, SameButLemma;
    hide SaveTokenLemmas, Put, RetryArticle, RequeueForVersion, ReEnrich, DeleteArticle;
    if step.Fetch? {
      FetchFrame(u, s, step.id, step.fetch, id);
    } else if step.Annotating? {
      EnrichFrame(u, s, step.id, step.enrich, id);
    } else if step.ToppingUp? {
      TopUpFrame(u, s, step.id, step.topUp, id);
    } else {
      DbFrame(u, s.db, step.id, id);
      var db' := Do(u, s, step).db;
      assert DbSlice(db', id) == DbSlice(s.db, id);
    }
  }

  // ---------------------------------------------------------------- invariant

  ghost predicate Sound(e: Enrichment, n: nat) {
    Enrich.Valid(e, n) && Enrich.Disjoint(e.Sentences)
  }

  /** What every stored article satisfies. */
  ghost predicate RowOk(u: Unicode, row: Row, stored: Option<Enrichment>) {
    && TokensOf(u, row.OriginalText, row.Tokens)
    && (row.Status in {Queued, Fetching} ==> row.Tokens == [])
    && (match stored
        case None => row.Coverage == 0.0
        case Some(e) => Sound(e, |row.Tokens|) && row.Coverage == Enrich.Coverage(e.Sentences, |row.Tokens|))
  }

  predicate InMemory(rowText: seq<Piece>, rowTokens: seq<Token>, text: seq<Piece>, tokens: seq<Token>) {
    rowText == text && SameButLemma(tokens, rowTokens)
  }

  /** How a worker's memory relates to the row it works on. */
  ghost predicate WorkerOk(row: Row, w: Worker) {
    match w
    case Listed(snap) =>
      && InMemory(row.OriginalText, row.Tokens, snap.OriginalText, snap.Tokens)
      && (snap.Status in {Queued, Fetching} ==> row.Tokens == [])
    case InFetch => row.Tokens == []
    case EnterEnrich(text, tokens) => InMemory(row.OriginalText, row.Tokens, text, tokens)
    case LoadEnrich(text, tokens) => InMemory(row.OriginalText, row.Tokens, text, tokens)
    case InLoop(text, tokens, _, running, _, _) =>
      InMemory(row.OriginalText, row.Tokens, text, tokens) && Sound(running, |row.Tokens|)
    case Unsaved(text, tokens, _, running, _, _) =>
      InMemory(row.OriginalText, row.Tokens, text, tokens) && Sound(running, |row.Tokens|)
    case InTopUp(text, tokens, running) =>
      InMemory(row.OriginalText, row.Tokens, text, tokens) && Sound(running, |row.Tokens|)
  }

  /** Everything the invariant says about one article. */
  ghost predicate LocalOk(u: Unicode, l: Local) {
    && (l.row.Some? || l.enrichment.Some? || l.worker.Some? || l.read.Some? ==> l.used)
    && (l.enrichment.Some? ==> l.row.Some?)
    && (l.row.Some? ==>
          && RowOk(u, l.row.value, l.enrichment)
          && (l.worker.Some? ==> WorkerOk(l.row.value, l.worker.value))
          && (l.read.Some? && l.read.value != [] ==> SameButLemma(l.read.value, l.row.value.Tokens)))
  }

  ghost predicate Inv(u: Unicode, s: Sys) {
    forall id :: LocalOk(u, Slice(s, id))
  }

  /** The one step that can break it: the backfill writes back an empty list it read before the
      article's content arrived. */
  predicate Stale(s: Sys, step: Step) {
    && step.Backfill? && step.fill.Write? && step.id in s.backfill && s.backfill[step.id] == []
    && step.id in s.db.articles && s.db.articles[step.id].Tokens != []
  }

  // ---------------------------------------------------------------- facts the steps need

  /** White space is never part of a word. */
  ghost predicate SpacesSeparate(u: Unicode) {
    u.space(' ') && forall c | u.space(c) :: !u.letter(c) && !u.digit(c)
  }

  /** A blank text has no tokens, so sending it back to the fetch stage loses none. */
  lemma BlankHasNoTokens(u: Unicode, text: seq<Piece>, tokens: seq<Token>)
    requires SpacesSeparate(u) && TokensOf(u, text, tokens)
    requires SqlBlank(text) || GoBlank(u, text)
    ensures tokens == []
  {
    var plain: seq<Token> :| Tokenizer.IsTokenization(u, text, plain) && SameButLemma(tokens, plain);
    forall p | p in text ensures !Tokenizer.Word(u, p) {
    }
    Tokenizer.NoTokensIffNoWords(u, text, plain);
  }

  lemma SameButLemmaTrans(a: seq<Token>, b: seq<Token>, c: seq<Token>)
    requires SameButLemma(a, b) && SameButLemma(b, c)
    ensures SameButLemma(a, c) && SameButLemma(b, a)
  {
    forall k | 0 <= k < |a| ensures a[k].(Lemma := "") == c[k].(Lemma := "") {
      assert a[k].(Lemma := "") == b[k].(Lemma := "");
    }
    forall k | 0 <= k < |b| ensures b[k].(Lemma := "") == a[k].(Lemma := "") {
      assert a[k].(Lemma := "") == b[k].(Lemma := "");
    }
  }

  lemma SameButLemmaSym(a: seq<Token>, b: seq<Token>)
    requires SameButLemma(a, b)
    ensures SameButLemma(b, a)
  {
    forall k | 0 <= k < |b| ensures b[k].(Lemma := "") == a[k].(Lemma := "") {
      assert a[k].(Lemma := "") == b[k].(Lemma := "");
    }
  }

  lemma SameButLemmaRefl(a: seq<Token>)
    ensures SameButLemma(a, a)
  {
  }

  lemma TokensOfRelemmatized(u: Unicode, text: seq<Piece>, a: seq<Token>, b: seq<Token>)
    requires TokensOf(u, text, a) && SameButLemma(b, a)
    ensures TokensOf(u, text, b)
  {
    var plain: seq<Token> :| Tokenizer.IsTokenization(u, text, plain) && SameButLemma(a, plain);
    SameButLemmaTrans(b, a, plain);
  }

  lemma EmptyTextTokens(u: Unicode)
    ensures TokensOf(u, [], [])
  {
    assert Tokenizer.Segmentation(u, [], []);
    assert Tokenizer.Render([], []) == [];
    assert Tokenizer.IsTokenization(u, [], []);
    SameButLemmaRefl([]);
  }

  lemma {:induction false} NothingCovered(ss: seq<Sentence>, n: nat)
    requires forall i :: !Enrich.Covered(ss, i)
    ensures Enrich.CoveredCount(ss, n) == 0
  {
    if n > 0 {
      NothingCovered(ss, n - 1);
    }
  }

  /** An enrichment that is valid for no tokens says nothing about any token. */
  lemma ValidForNone(e: Enrichment, n: nat)
    requires Sound(e, 0)
    ensures Sound(e, n) && Enrich.Coverage(e.Sentences, n) == 0.0
  {
    forall i ensures !Enrich.Covered(e.Sentences, i) {
    }
    NothingCovered(e.Sentences, n);
  }

  lemma EmptySound(n: nat)
    ensures Sound(EMPTY_ENRICHMENT, n)
  {
  }

  lemma MergedSound(u: Unicode, known: Enrich.Known, tokens: seq<Token>, running: Enrichment, addition: Enrichment,
        n: nat)
    requires Sound(running, n) && |tokens| == n
    ensures Sound(Enrich.Merge(running, Enrich.Sanitize(u, known, tokens, addition)), n)
  {
    Enrich.SanitizeValid(u, known, tokens, addition);
    Enrich.MergeKeeps(running, Enrich.Sanitize(u, known, tokens, addition), n);
  }

  lemma InMemoryLength(row: Row, text: seq<Piece>, tokens: seq<Token>)
    requires InMemory(row.OriginalText, row.Tokens, text, tokens)
    ensures |tokens| == |row.Tokens|
  {
  }

  // ---------------------------------------------------------------- every step keeps the invariant

  lemma UserStepKeeps(u: Unicode, s: Sys, id: ArticleId, act: UserAct)
    requires SpacesSeparate(u) && UserCan(u, s, id, act) && LocalOk(u, Slice(s, id))
    ensures LocalOk(u, Slice(DoUser(u, s, id, act), id))
  {
    hide TokensOf, SameButLemma, Sound, SpacesSeparate, SqlBlank, GoBlank;
    EmptyTextTokens(u);
    if id in s.db.articles {
      var row := s.db.articles[id];
      if SqlBlank(row.OriginalText) || GoBlank(u, row.OriginalText) {
        BlankHasNoTokens(u, row.OriginalText, row.Tokens);
      }
    }
  }

  lemma FillStepKeeps(u: Unicode, s: Sys, id: ArticleId, act: FillAct)
    requires FillCan(s, id, act) && LocalOk(u, Slice(s, id)) && !Stale(s, Backfill(id, act))
    ensures LocalOk(u, Slice(DoFill(s, id, act), id))
  {
    hide TokensOf, SameButLemma, Sound;
    if id in s.db.articles {
      SameButLemmaRefl(s.db.articles[id].Tokens);
      if act.Write? {
        RelemmatizedOk(u, Slice(s, id), act.tokens);
      }
    }
  }

  /** Writing back the same tokens with other lemmas disturbs neither the row nor a worker. */
  lemma RelemmatizedOk(u: Unicode, l: Local, tokens: seq<Token>)
    requires LocalOk(u, l) && l.row.Some? && l.read.Some? && SameButLemma(tokens, l.read.value)
    requires l.read.value == [] ==> l.row.value.Tokens == []
    ensures LocalOk(u, l.(row := Some(l.row.value.(Tokens := tokens)), read := None))
  {
    hide TokensOf, Sound, Enrich.Coverage;
    var row := l.row.value;
    if l.read.value != [] {
      SameButLemmaTrans(tokens, l.read.value, row.Tokens);
    }
    assert SameButLemma(tokens, row.Tokens);
    TokensOfRelemmatized(u, row.OriginalText, row.Tokens, tokens);
    SameButLemmaSym(tokens, row.Tokens);
    forall held | SameButLemma(held, row.Tokens) ensures SameButLemma(held, tokens) {
      SameButLemmaTrans(held, row.Tokens, tokens);
    }
  }

  lemma FetchStepKeeps(u: Unicode, s: Sys, id: ArticleId, act: FetchAct)
    requires FetchCan(u, s, id, act) && LocalOk(u, Slice(s, id))
    ensures LocalOk(u, Slice(DoFetch(u, s, id, act), id))
  {
    hide TokensOf, SameButLemma, Sound, Enrich.Coverage;
    if id in s.db.articles {
      SameButLemmaRefl(s.db.articles[id].Tokens);
    }
    if act.FetchOk? {
      FetchedOk(u, Slice(s, id), act.text, act.tokens);
    }
  }

  /** New content replaces an empty token list only, so what was stored about it stays true. */
  lemma FetchedOk(u: Unicode, l: Local, text: seq<Piece>, tokens: seq<Token>)
    requires LocalOk(u, l) && l.worker == Some(InFetch) && TokensOf(u, text, tokens)
    ensures l.row.Some? ==>
      LocalOk(u, l.(row := Some(l.row.value.(OriginalText := text, Tokens := tokens, Status := Fetched, Error := "")),
                    worker := Some(EnterEnrich(text, tokens))))
  {
    hide TokensOf, Sound, Enrich.Coverage;
    SameButLemmaRefl(tokens);
    if l.enrichment.Some? {
      ValidForNone(l.enrichment.value, |tokens|);
      ValidForNone(l.enrichment.value, 0);
    }
  }

  lemma EnrichStepKeeps(u: Unicode, s: Sys, id: ArticleId, act: EnrichAct)
    requires EnrichCan(s, id, act) && LocalOk(u, Slice(s, id))
    ensures LocalOk(u, Slice(DoEnrich(u, s, id, act), id))
  {
    hide TokensOf, SameButLemma, Sound, Enrich.Coverage, Enrich.Merge, Enrich.Sanitize, Chunk.Chunks, ChunkDone;
    hide InMemory, AwaitsWork;
    if id in s.db.articles {
      var row, w := s.db.articles[id], s.workers[id];
      EmptySound(|row.Tokens|);
      if act.Annotate? {
        InMemoryLength(row, w.text, w.tokens);
        MergedSound(u, act.known, w.tokens, w.running, act.addition, |row.Tokens|);
      }
    }
  }

  lemma TopUpStepKeeps(u: Unicode, s: Sys, id: ArticleId, act: TopUpAct)
    requires TopUpCan(s, id, act) && LocalOk(u, Slice(s, id))
    ensures LocalOk(u, Slice(DoTopUp(u, s, id, act), id))
  {
    hide TokensOf, SameButLemma, Sound, Enrich.Coverage, Enrich.Merge, Enrich.Sanitize, FullyCovered;
    if id in s.db.articles {
      var row, w := s.db.articles[id], s.workers[id];
      EmptySound(|row.Tokens|);
      SameButLemmaRefl(row.Tokens);
      if act.TopUpSave? {
        InMemoryLength(row, w.text, w.tokens);
        MergedSound(u, act.known, w.tokens, w.running, act.addition, |row.Tokens|);
      }
    }
  }

  lemma TargetKeeps(u: Unicode, s: Sys, step: Step)
    requires SpacesSeparate(u) && !step.Crash? && LocalOk(u, Slice(s, step.id)) && Enabled(u, s, step) &&
      !Stale(s, step)
    ensures LocalOk(u, Slice(Do(u, s, step), step.id))
  {
    hide DoUser, DoFill, DoFetch, DoEnrich, DoTopUp, UserCan, FillCan, FetchCan, EnrichCan, TopUpCan, RowOk, WorkerOk;
    match step
    case Crash =>
    case Abandon(id) =>
    case User(id, act) => UserStepKeeps(u, s, id, act);
    case Backfill(id, act) => FillStepKeeps(u, s, id, act);
    case Fetch(id, act) => FetchStepKeeps(u, s, id, act);
    case Annotating(id, act) => EnrichStepKeeps(u, s, id, act);
    case ToppingUp(id, act) => TopUpStepKeeps(u, s, id, act);
  }

  lemma CrashKeeps(u: Unicode, s: Sys, id: ArticleId)
    requires LocalOk(u, Slice(s, id)) && Enabled(u, s, Crash)
    ensures LocalOk(u, Slice(Do(u, s, Crash), id))
  {
    hide RowOk;
  }

  /** No step but a stale backfill write breaks the invariant, whatever the model returned,
      whatever the user did meanwhile and wherever the process was killed. */
  lemma StepKeepsInv(u: Unicode, s: Sys, step: Step)
    requires SpacesSeparate(u) && Inv(u, s) && Enabled(u, s, step) && !Stale(s, step)
    ensures Inv(u, Do(u, s, step))
  {
    hide LocalOk, Enabled, Do, Slice;
    var s' := Do(u, s, step);
    forall id ensures LocalOk(u, Slice(s', id)) {
      assert LocalOk(u, Slice(s, id));
      if step.Crash? {
        CrashKeeps(u, s, id);
      } else if step.id != id {
        OthersUntouched(u, s, step, id);
      } else {
        TargetKeeps(u, s, step);
      }
    }
  }

  // ---------------------------------------------------------------- whole runs

  ghost predicate IsRun(u: Unicode, states: seq<Sys>, steps: seq<Step>) {
    && |states| == |steps| + 1
    && forall i | 0 <= i < |steps| :: Enabled(u, states[i], steps[i]) && states[i + 1] == Do(u, states[i], steps[i])
  }

  ghost predicate NeverStale(states: seq<Sys>, steps: seq<Step>)
    requires |states| == |steps| + 1
  {
    forall i | 0 <= i < |steps| :: !Stale(states[i], steps[i])
  }

  lemma InitialInv(u: Unicode)
    ensures Inv(u, INITIAL)
  {
  }

  /** Safety over every run of the pipeline from an empty store. */
  lemma {:induction false} RunSafe(u: Unicode, states: seq<Sys>, steps: seq<Step>, i: nat)
    requires SpacesSeparate(u) && IsRun(u, states, steps) && NeverStale(states, steps)
    requires states[0] == INITIAL && i < |states|
    ensures Inv(u, states[i])
  {
    hide Enabled, Do, Stale, LocalOk;
    if i == 0 {
      InitialInv(u);
    } else {
      RunSafe(u, states, steps, i - 1);
      StepKeepsInv(u, states[i - 1], steps[i - 1]);
    }
  }

  /** Non-empty content is never replaced: the text stays, the tokens stay up to their lemmas. */
  ghost predicate ContentKept(l: Local, l': Local) {
    l.row.Some? && l.row.value.Tokens != [] && l'.row.Some? ==>
      && l'.row.value.OriginalText == l.row.value.OriginalText
      && SameButLemma(l.row.value.Tokens, l'.row.value.Tokens)
  }

  /** ContentKept, and an id once given out is neither given out again nor comes back after a delete. */
  ghost predicate ContentStep(l: Local, l': Local) {
    && ContentKept(l, l')
    && (l.used ==> l'.used)
    && (l.used && l.row.None? ==> l'.row.None?)
  }

  lemma UserContent(u: Unicode, s: Sys, id: ArticleId, act: UserAct)
    requires LocalOk(u, Slice(s, id)) && UserCan(u, s, id, act)
    ensures ContentStep(Slice(s, id), Slice(DoUser(u, s, id, act), id))
  {
    hide RowOk, WorkerOk, TokensOf, SqlBlank, GoBlank;
    if id in s.db.articles {
      SameButLemmaRefl(s.db.articles[id].Tokens);
    }
  }

  lemma FillContent(u: Unicode, s: Sys, id: ArticleId, act: FillAct)
    requires LocalOk(u, Slice(s, id)) && FillCan(s, id, act) && !Stale(s, Backfill(id, act))
    ensures ContentStep(Slice(s, id), Slice(DoFill(s, id, act), id))
  {
    hide RowOk, WorkerOk, SameButLemma;
    if id in s.db.articles {
      SameButLemmaRefl(s.db.articles[id].Tokens);
      if act.Write? && s.db.articles[id].Tokens != [] {
        SameButLemmaTrans(act.tokens, s.backfill[id], s.db.articles[id].Tokens);
        SameButLemmaSym(act.tokens, s.db.articles[id].Tokens);
      }
    }
  }

  lemma FetchContent(u: Unicode, s: Sys, id: ArticleId, act: FetchAct)
    requires LocalOk(u, Slice(s, id)) && FetchCan(u, s, id, act)
    ensures ContentStep(Slice(s, id), Slice(DoFetch(u, s, id, act), id))
  {
    hide RowOk, TokensOf, SameButLemma;
    if id in s.db.articles {
      SameButLemmaRefl(s.db.articles[id].Tokens);
    }
  }

  lemma EnrichContent(u: Unicode, s: Sys, id: ArticleId, act: EnrichAct)
    requires LocalOk(u, Slice(s, id)) && EnrichCan(s, id, act)
    ensures ContentStep(Slice(s, id), Slice(DoEnrich(u, s, id, act), id))
  {
    hide RowOk, WorkerOk, Enrich.Coverage, Enrich.Merge, Enrich.Sanitize, Chunk.Chunks, ChunkDone, SameButLemma;
    if id in s.db.articles {
      SameButLemmaRefl(s.db.articles[id].Tokens);
    }
  }

  lemma TopUpContent(u: Unicode, s: Sys, id: ArticleId, act: TopUpAct)
    requires LocalOk(u, Slice(s, id)) && TopUpCan(s, id, act)
    ensures ContentStep(Slice(s, id), Slice(DoTopUp(u, s, id, act), id))
  {
    hide RowOk, WorkerOk, Enrich.Coverage, Enrich.Merge, Enrich.Sanitize, FullyCovered, SameButLemma;
    if id in s.db.articles {
      SameButLemmaRefl(s.db.articles[id].Tokens);
    }
  }

  lemma SameContent(l: Local, l': Local)
    requires l == l' || (l'.row == l.row && l'.used == l.used)
    ensures ContentStep(l, l')
  {
    if l.row.Some? {
      SameButLemmaRefl(l.row.value.Tokens);
    }
  }

  lemma StepKeepsContent(u: Unicode, s: Sys, step: Step, id: ArticleId)
    requires Inv(u, s) && Enabled(u, s, step) && !Stale(s, step)
    ensures ContentStep(Slice(s, id), Slice(Do(u, s, step), id))
  {
    hide LocalOk, DoUser, DoFill, DoFetch, DoEnrich, DoTopUp, UserCan, FillCan, FetchCan, EnrichCan, TopUpCan,
      ContentStep;
    assert LocalOk(u, Slice(s, id));
    if step.Crash? || step.Abandon? {
      SameContent(Slice(s, id), Slice(Do(u, s, step), id));
    } else if step.id != id {
      OthersUntouched(u, s, step, id);
      SameContent(Slice(s, id), Slice(Do(u, s, step), id));
    } else {
      match step
      case User(_, act) => UserContent(u, s, id, act);
      case Backfill(_, act) => FillContent(u, s, id, act);
      case Fetch(_, act) => FetchContent(u, s, id, act);
      case Annotating(_, act) => EnrichContent(u, s, id, act);
      case ToppingUp(_, act) => TopUpContent(u, s, id, act);
    }
  }

  /** Over every run: once an article has tokens, they are the article's tokens until it is deleted. */
  lemma {:induction false} RunKeepsContent(u: Unicode, states: seq<Sys>, steps: seq<Step>, i: nat, j: nat,
        id: ArticleId)
    requires SpacesSeparate(u) && IsRun(u, states, steps) && NeverStale(states, steps)
    requires states[0] == INITIAL && i <= j < |states|
    requires Slice(states[i], id).row.Some?
    ensures ContentKept(Slice(states[i], id), Slice(states[j], id))
    ensures Slice(states[j], id).used
  {
    hide Enabled, Do, Stale, Slice, RowOk, WorkerOk;
    RunSafe(u, states, steps, i);
    assert LocalOk(u, Slice(states[i], id));
    if i == j {
      SameContent(Slice(states[i], id), Slice(states[j], id));
    } else {
      RunKeepsContent(u, states, steps, i, j - 1, id);
      RunSafe(u, states, steps, j - 1);
      StepKeepsContent(u, states[j - 1], steps[j - 1], id);
      var a, b, c := Slice(states[i], id), Slice(states[j - 1], id), Slice(states[j], id);
      if a.row.value.Tokens != [] && c.row.Some? {
        SameButLemmaTrans(a.row.value.Tokens, b.row.value.Tokens, c.row.value.Tokens);
      }
    }
  }

  // ---------------------------------------------------------------- the backfill race

  /** A backfill write keeps an article's tokens exactly when it is not stale. */
  lemma StaleExactly(u: Unicode, s: Sys, id: ArticleId, tokens: seq<Token>)
    requires Inv(u, s) && Enabled(u, s, Backfill(id, Write(tokens))) && id in s.db.articles
    ensures SameButLemma(s.db.articles[id].Tokens, Do(u, s, Backfill(id, Write(tokens))).db.articles[id].Tokens)
      <==> !Stale(s, Backfill(id, Write(tokens)))
  {
    hide RowOk, WorkerOk;
    assert LocalOk(u, Slice(s, id));
    var old', read := s.db.articles[id].Tokens, s.backfill[id];
    if read != [] {
      SameButLemmaTrans(tokens, read, old');
      SameButLemmaSym(tokens, old');
    }
  }

  /** The store after one article's content was a single space and the user pressed retry, with that
      article's empty token list in the hands of the backfill. */
  function RaceMiddle(id: ArticleId): Sys {
    Sys(Db(map[id := Row([Rune(' ')], [], Queued, 1, 0.0, "", "")], map[]), map[], map[id := []], {id})
  }

  function RaceFetched(id: ArticleId): Sys {
    Sys(Db(map[id := Row([Rune(' ')], [], Fetched, 1, 0.0, "", "")], map[]),
        map[id := EnterEnrich([Rune(' ')], [])], map[], {id})
  }

  lemma RaceStart(u: Unicode, id: ArticleId) returns (states: seq<Sys>, steps: seq<Step>)
    requires SpacesSeparate(u)
    ensures IsRun(u, states, steps) && states[0] == INITIAL && states[|states| - 1] == RaceFetched(id)
  {
    var space := [Rune(' ')];
    SpaceTokens(u);
    hide TokensOf, SameButLemma;
    steps := [User(id, AddUrl(1)), Fetch(id, Pick), Fetch(id, StartFetch(true)), Fetch(id, FetchOk(space, []))];
    var s1 := Do(u, INITIAL, steps[0]);
    var s2 := Do(u, s1, steps[1]);
    var s3 := Do(u, s2, steps[2]);
    var s4 := Do(u, s3, steps[3]);
    assert s4 == RaceFetched(id);
    states := [INITIAL, s1, s2, s3, s4];
  }

  lemma RaceFirst(u: Unicode, id: ArticleId) returns (states: seq<Sys>, steps: seq<Step>)
    ensures IsRun(u, states, steps) && states[0] == RaceFetched(id) && states[|states| - 1] == RaceMiddle(id)
  {
    steps := [Backfill(id, Read), Abandon(id), User(id, Retry)];
    var s4 := RaceFetched(id);
    var s5 := Do(u, s4, steps[0]);
    var s6 := Do(u, s5, steps[1]);
    assert SqlBlank([Rune(' ')]);
    var s7 := Do(u, s6, steps[2]);
    assert s7 == RaceMiddle(id);
    states := [s4, s5, s6, s7];
  }

  lemma RaceSecond(u: Unicode, id: ArticleId) returns (states: seq<Sys>, steps: seq<Step>)
    requires u.letter('a')
    ensures IsRun(u, states, steps) && states[0] == RaceMiddle(id)
    ensures var last := states[|states| - 1].db;
      id in last.articles && last.articles[id].OriginalText == [Rune('a')] && last.articles[id].Tokens == []
  {
    var word := [Rune('a')];
    WordTokens(u);
    steps := [
      Fetch(id, Pick), Fetch(id, StartFetch(true)), Fetch(id, FetchOk(word, [Token(0, "a", 0, 1, "")])),
      Backfill(id, Write([]))];
    var s7 := RaceMiddle(id);
    var s8 := Do(u, s7, steps[0]);
    var s9 := Do(u, s8, steps[1]);
    var s10 := Do(u, s9, steps[2]);
    SameButLemmaRefl([]);
    hide TokensOf, SameButLemma;
    var s11 := Do(u, s10, steps[3]);
    states := [s7, s8, s9, s10, s11];
  }

  lemma RunConcat(u: Unicode, a: seq<Sys>, x: seq<Step>, b: seq<Sys>, y: seq<Step>)
    requires IsRun(u, a, x) && IsRun(u, b, y) && a[|a| - 1] == b[0]
    ensures IsRun(u, a + b[1..], x + y)
  {
    hide Enabled, Do;
    var c, z := a + b[1..], x + y;
    forall i | 0 <= i < |z| ensures Enabled(u, c[i], z[i]) && c[i + 1] == Do(u, c[i], z[i]) {
      if i < |x| {
        assert c[i] == a[i] && c[i + 1] == a[i + 1] && z[i] == x[i];
      } else {
        assert c[i] == b[i - |x|] && c[i + 1] == b[i - |x| + 1] && z[i] == y[i - |x|];
      }
    }
  }

  /** A stale write is reachable: content of one space is listed for the backfill, the article is sent
      back to the fetch stage, gets a word, and then loses its token list to the backfill. */
  lemma StaleReachable(u: Unicode, id: ArticleId) returns (states: seq<Sys>, steps: seq<Step>)
    requires SpacesSeparate(u) && u.letter('a')
    ensures IsRun(u, states, steps) && states[0] == INITIAL
    ensures var last := states[|states| - 1].db;
      id in last.articles && last.articles[id].OriginalText == [Rune('a')] && last.articles[id].Tokens == []
    ensures !Inv(u, states[|states| - 1])
  {
    hide LocalOk, Enabled, Do, RaceMiddle, RaceFetched;
    var a, x := RaceStart(u, id);
    var b, y := RaceFirst(u, id);
    var c, z := RaceSecond(u, id);
    RunConcat(u, a, x, b, y);
    RunConcat(u, a + b[1..], x + y, c, z);
    states, steps := a + b[1..] + c[1..], x + y + z;
    WordNeedsTokens(u);
    NotOk(u, Slice(states[|states| - 1], id));
  }

  lemma NotOk(u: Unicode, l: Local)
    requires l.row.Some? && !TokensOf(u, l.row.value.OriginalText, l.row.value.Tokens)
    ensures !LocalOk(u, l)
  {
  }

  lemma SpaceTokens(u: Unicode)
    requires SpacesSeparate(u)
    ensures TokensOf(u, [Rune(' ')], [])
  {
    var t := [Rune(' ')];
    assert Tokenizer.Segmentation(u, t, []);
    assert Tokenizer.Render(t, []) == [];
    assert Tokenizer.IsTokenization(u, t, []);
    SameButLemmaRefl([]);
  }

  lemma WordTokens(u: Unicode)
    requires u.letter('a')
    ensures TokensOf(u, [Rune('a')], [Token(0, "a", 0, 1, "")])
  {
    var t := [Rune('a')];
    var R := [Tokenizer.Range(0, 0)];
    assert Tokenizer.Covered(R, 0) by { assert Tokenizer.Holds(R[0], 0); }
    assert Tokenizer.Segmentation(u, t, R);
    assert Off(t, 0) == 0 && Off(t, 1) == 1;
    assert t[0..1] == t;
    assert Chars(t) == "a" by { assert Lift("a") == t; LiftInjective(Chars(t), "a"); }
    assert Tokenizer.Render(t, R) == [Token(0, "a", 0, 1, "")];
    assert Tokenizer.IsTokenization(u, t, [Token(0, "a", 0, 1, "")]);
    SameButLemmaRefl([Token(0, "a", 0, 1, "")]);
  }

  lemma WordNeedsTokens(u: Unicode)
    requires u.letter('a')
    ensures !TokensOf(u, [Rune('a')], [])
  {
    var t := [Rune('a')];
    forall plain | Tokenizer.IsTokenization(u, t, plain) ensures plain != [] {
      Tokenizer.NoTokensIffNoWords(u, t, plain);
      assert t[0] in t && Tokenizer.Word(u, t[0]);
    }
  }
}
