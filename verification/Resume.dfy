/** internal/enrich/enrich.go runEnrich: killed and restarted any number of times, it stores what an
    uninterrupted run stores. */
module Resume {
  import opened Model
  import opened Text
  import opened Rows
  import opened Pipeline
  import Chunk
  import Enrich
  import Store

  /** One article's enrichment with everything it depends on held fixed; the annotator is a function of the span. */
  datatype Job = Job(
    u: Unicode,
    id: ArticleId,
    text: seq<Piece>,
    tokens: seq<Token>,
    maxTokens: int,
    known: Enrich.Known,
    annotate: Span -> Enrichment,
    model: Span -> string,
    before: Enrichment)

  function Windows(p: Job): seq<Span> {
    Chunk.Chunks(p.text, p.tokens, p.maxTokens)
  }

  /** What the model's answer for window i contributes. */
  function Answer(p: Job, i: nat): Enrichment
    requires i < |Windows(p)|
  {
    Enrich.Sanitize(p.u, p.known, p.tokens, p.annotate(Windows(p)[i]))
  }

  /** The enrichment an uninterrupted run holds after its first i windows. */
  function After(p: Job, i: nat): Enrichment
    requires i <= |Windows(p)|
  {
    if i == 0 then p.before
    else
      var e := After(p, i - 1);
      if Enrich.SpanCovered(e.Sentences, Windows(p)[i - 1]) then e else Enrich.Merge(e, Answer(p, i - 1))
  }

  function Final(p: Job): Enrichment {
    After(p, |Windows(p)|)
  }

  /** The model that produced the last window the run annotated; "" when none did. */
  function LastModel(p: Job, i: nat): string
    requires i <= |Windows(p)|
  {
    if i == 0 then ""
    else if Enrich.SpanCovered(After(p, i - 1).Sentences, Windows(p)[i - 1]) then LastModel(p, i - 1)
    else p.model(Windows(p)[i - 1])
  }

  /** The stored model stamp after the final save, which leaves the column alone when it has no name to put there. */
  function Stamp(p: Job, column: string): string {
    var name := LastModel(p, |Windows(p)|);
    if name != "" then name else column
  }

  // ---------------------------------------------------------------- an uninterrupted run

  /** The loop of runEnrich over a live store, no window failing. */
  method RunEnrich(p: Job, db: Store.SQLite)
    requires p.before == StoredEnrichment(db.Value(), p.id)
    modifies db
    ensures p.id !in old(db.articles) ==> db.Value() == old(db.Value())
    ensures p.id in old(db.articles) ==>
      && p.id in db.articles && db.articles[p.id].Status == Enriched
      && StoredEnrichment(db.Value(), p.id) == Final(p)
      && db.articles[p.id].Coverage == Enrich.Coverage(Final(p).Sentences, |old(db.articles)[p.id].Tokens|)
      && db.articles[p.id].LLMModel == Stamp(p, old(db.articles)[p.id].LLMModel)
    ensures forall j :: j != p.id ==> DbSlice(db.Value(), j) == old(DbSlice(db.Value(), j))
  {
    hide Enrich.Coverage, Chunk.Chunks, Enrich.Merge, Enrich.Sanitize;
    var _ := db.SetStatus(p.id, Enriching, "");
    var running := if p.id in db.enrichments then db.enrichments[p.id] else EMPTY_ENRICHMENT;
    var chunks := Chunk.ChunkSpans(p.text, p.tokens, p.maxTokens);
    assert chunks == Windows(p);
    var ci, lastModel := 0, "";
    while ci < |chunks|
      invariant 0 <= ci <= |chunks| && running == After(p, ci) && lastModel == LastModel(p, ci)
      invariant p.id in db.articles <==> p.id in old(db.articles)
      invariant p.id !in old(db.articles) ==> db.Value() == old(db.Value())
      invariant p.id in old(db.articles) ==> |db.articles[p.id].Tokens| == |old(db.articles)[p.id].Tokens|
      invariant p.id in old(db.articles) ==> db.articles[p.id].LLMModel == old(db.articles)[p.id].LLMModel
      invariant forall j :: j != p.id ==> DbSlice(db.Value(), j) == old(DbSlice(db.Value(), j))
    {
      var covered := Enrich.SpanIsCovered(running.Sentences, chunks[ci]);
      if !covered {
        var clean := Enrich.SanitizeEnrichment(p.u, p.known, p.tokens, p.annotate(chunks[ci]));
        running := Enrich.MergeEnrichment(running, clean);
        lastModel := p.model(chunks[ci]);
        var found := db.SaveEnrichmentProgress(p.id, running);
        if !found {
          return;
        }
      }
      ci := ci + 1;
    }
    var _ := db.SaveEnrichment(p.id, running, lastModel);
  }

  // ---------------------------------------------------------------- later states absorb earlier windows

  lemma ExtendsTrans(a: Enrichment, b: Enrichment, c: Enrichment)
    requires Enrich.Extends(a, b) && Enrich.Extends(b, c)
    ensures Enrich.Extends(a, c)
  {
  }

  lemma {:induction false} AfterGrows(p: Job, i: nat, m: nat)
    requires i <= m <= |Windows(p)|
    ensures Enrich.Extends(After(p, i), After(p, m))
  {
    if i < m {
      AfterGrows(p, i, m - 1);
      Enrich.MergeExtends(After(p, m - 1), Answer(p, m - 1));
      ExtendsTrans(After(p, i), After(p, m - 1), After(p, m));
    }
  }

  lemma CoveredStays(a: seq<Sentence>, b: seq<Sentence>, span: Span)
    requires a <= b && Enrich.SpanCovered(a, span)
    ensures Enrich.SpanCovered(b, span)
  {
    forall i | span.Start <= i <= span.End ensures Enrich.Covered(b, i) {
      assert Enrich.Covered(a, i);
      Enrich.CoveredByPrefix(a, b, i);
    }
  }

  /** A window already passed is absorbed: annotating it again adds nothing, even after later windows. */
  lemma PassedWindowAbsorbed(p: Job, i: nat, m: nat)
    requires i < m <= |Windows(p)|
    requires !Enrich.SpanCovered(After(p, m).Sentences, Windows(p)[i])
    ensures Enrich.Merge(After(p, m), Answer(p, i)) == After(p, m)
  {
    AfterGrows(p, i, m);
    if Enrich.SpanCovered(After(p, i).Sentences, Windows(p)[i]) {
      CoveredStays(After(p, i).Sentences, After(p, m).Sentences, Windows(p)[i]);
      assert false;
    }
    AfterGrows(p, i + 1, m);
    Enrich.SanitizeValid(p.u, p.known, p.tokens, p.annotate(Windows(p)[i]));
    Enrich.MergeAbsorbs(After(p, i), Answer(p, i), After(p, m));
  }

  // ---------------------------------------------------------------- runs with crashes

  /** The steps of a run in which nothing the job fixes changes and no window fails: other articles do as
      they please; this one may be crashed, dropped, retried, picked up again, and its saves may fail. So may the
      load of what is stored, for an article enriched from nothing: the worker starts from nothing again. */
  ghost predicate Quiet(p: Job, s: Sys, step: Step) {
    match step
    case Crash => true
    case Abandon(_) => true
    case User(j, act) => j != p.id || act.Retry?
    case Backfill(j, act) => j != p.id || act.Read?
    case Fetch(j, act) => j != p.id || act.Pick? || act.SkipFetch?
    case ToppingUp(j, act) => j != p.id
    case Annotating(j, act) =>
      j != p.id ||
      match act
      case StartEnrich(_) => true
      case Load(maxTokens, ok) => maxTokens == p.maxTokens && (ok || p.before == EMPTY_ENRICHMENT)
      case SkipChunk => true
      case Annotate(known, addition) =>
        known == p.known && j in s.workers && AtChunk(s.workers[j]) &&
        addition == p.annotate(s.workers[j].chunks[s.workers[j].ci])
      case ChunkFails => false
      case SaveChunk(_) => true
      case Finish(_, _) => true
  }

  predicate IsAfter(p: Job, e: Enrichment, low: nat) {
    exists m: nat | low <= m <= |Windows(p)| :: e == After(p, m)
  }

  /** The worker's memory is a state of the uninterrupted run, at or past its own window. */
  ghost predicate WorkerOnTrack(p: Job, w: Worker) {
    match w
    case Listed(snap) =>
      snap.OriginalText == p.text && snap.Tokens == p.tokens && snap.Status in {Fetched, Enriching}
    case InFetch => false
    case EnterEnrich(text, tokens) => text == p.text && tokens == p.tokens
    case LoadEnrich(text, tokens) => text == p.text && tokens == p.tokens
    case InLoop(text, tokens, chunks, running, ci, _) =>
      text == p.text && tokens == p.tokens && chunks == Windows(p) && IsAfter(p, running, ci)
    case Unsaved(text, tokens, chunks, running, ci, _) =>
      text == p.text && tokens == p.tokens && chunks == Windows(p) && IsAfter(p, running, ci + 1)
    case InTopUp(_, _, _) => false
  }

  function Stored(l: Local): Enrichment {
    if l.enrichment.Some? then l.enrichment.value else EMPTY_ENRICHMENT
  }

  ghost predicate OnTrack(p: Job, l: Local) {
    && l.row.Some?
    && var row := l.row.value;
    && row.OriginalText == p.text && row.Tokens == p.tokens
    && row.Status in {Fetched, Enriching, Enriched, EnrichFailed}
    && IsAfter(p, Stored(l), 0)
    && (row.Status == Enriched ==> l.worker.None? && l.enrichment == Some(Final(p)))
    && (l.worker.Some? ==> WorkerOnTrack(p, l.worker.value))
  }

  /** Where the job starts: content stored, nobody working on it, `before` the stored enrichment. */
  ghost predicate Starts(p: Job, s: Sys) {
    var l := Slice(s, p.id);
    && l.row.Some?
    && l.row.value.OriginalText == p.text && l.row.value.Tokens == p.tokens
    && l.row.value.Status in {Fetched, Enriching, EnrichFailed}
    && l.worker.None?
    && Stored(l) == p.before
  }

  lemma EnrichOnTrack(p: Job, s: Sys, act: EnrichAct)
    requires EnrichCan(s, p.id, act) && Quiet(p, s, Annotating(p.id, act))
    requires OnTrack(p, Slice(s, p.id))
    ensures OnTrack(p, Slice(DoEnrich(p.u, s, p.id, act), p.id))
  {
    hide Enrich.Coverage, Enrich.Merge, Enrich.Sanitize, Chunk.Chunks, After, IsAfter, Enrich.SpanCovered;
    var id := p.id;
    var w := s.workers[id];
    match act
    case StartEnrich(ok) =>
    case Load(maxTokens, ok) => FromTheStart(p);
    case SkipChunk => SkipOnTrack(p, w.running, w.ci);
    case Annotate(known, addition) => AnnotateOnTrack(p, w.running, w.ci);
    case ChunkFails =>
    case SaveChunk(ok) => AfterLower(p, w.running, w.ci + 1);
    case Finish(llmModel, ok) =>
      AfterLower(p, w.running, w.ci);
      AfterAll(p, w.running, w.ci);
  }

  lemma FromTheStart(p: Job)
    ensures IsAfter(p, p.before, 0)
  {
    assert p.before == After(p, 0);
  }

  lemma AfterLower(p: Job, e: Enrichment, low: nat)
    requires IsAfter(p, e, low)
    ensures IsAfter(p, e, 0)
  {
  }

  lemma AfterAll(p: Job, e: Enrichment, low: nat)
    requires IsAfter(p, e, low) && low >= |Windows(p)|
    ensures e == Final(p)
  {
    hide After, Windows;
  }

  lemma SkipOnTrack(p: Job, running: Enrichment, ci: nat)
    requires ci < |Windows(p)| && IsAfter(p, running, ci) && Enrich.SpanCovered(running.Sentences, Windows(p)[ci])
    ensures IsAfter(p, running, ci + 1)
  {
    var m: nat :| ci <= m <= |Windows(p)| && running == After(p, m);
    if m == ci {
      assert After(p, ci + 1) == running;
    }
  }

  lemma AnnotateOnTrack(p: Job, running: Enrichment, ci: nat)
    requires ci < |Windows(p)| && IsAfter(p, running, ci) && !Enrich.SpanCovered(running.Sentences, Windows(p)[ci])
    ensures IsAfter(p, Enrich.Merge(running, Answer(p, ci)), ci + 1)
  {
    hide Enrich.SpanCovered, Enrich.Merge, Enrich.Sanitize;
    var m: nat :| ci <= m <= |Windows(p)| && running == After(p, m);
    if m == ci {
      assert After(p, ci + 1) == Enrich.Merge(running, Answer(p, ci));
    } else {
      PassedWindowAbsorbed(p, ci, m);
    }
  }

  lemma StepOnTrack(p: Job, s: Sys, step: Step)
    requires Enabled(p.u, s, step) && Quiet(p, s, step) && !SqlBlank(p.text)
    requires OnTrack(p, Slice(s, p.id))
    ensures OnTrack(p, Slice(Do(p.u, s, step), p.id))
  {
    hide IsAfter, Windows, DoEnrich, DoTopUp, EnrichCan, TopUpCan, SqlBlank, SaveTokenLemmas;
    if step.Crash? {
    } else if step.id != p.id {
      OthersUntouched(p.u, s, step, p.id);
    } else if step.Annotating? {
      EnrichOnTrack(p, s, step.enrich);
    }
  }

  lemma StartOnTrack(p: Job, s: Sys)
    requires Starts(p, s)
    ensures OnTrack(p, Slice(s, p.id))
  {
    assert p.before == After(p, 0);
  }

  lemma {:induction false} RunOnTrack(p: Job, states: seq<Sys>, steps: seq<Step>, i: nat)
    requires IsRun(p.u, states, steps) && Starts(p, states[0]) && !SqlBlank(p.text)
    requires forall k | 0 <= k < |steps| :: Quiet(p, states[k], steps[k])
    requires i < |states|
    ensures OnTrack(p, Slice(states[i], p.id))
  {
    hide OnTrack, Enabled, Do, Quiet, Slice, SqlBlank, Starts;
    if i == 0 {
      StartOnTrack(p, states[0]);
    } else {
      RunOnTrack(p, states, steps, i - 1);
      StepOnTrack(p, states[i - 1], steps[i - 1]);
    }
  }

  /** Whenever the article counts as enriched, whatever was killed and restarted on the way, the stored
      enrichment is the one RunEnrich stores without interruption. */
  lemma ResumeEquivalence(p: Job, states: seq<Sys>, steps: seq<Step>, i: nat)
    requires IsRun(p.u, states, steps) && Starts(p, states[0]) && !SqlBlank(p.text)
    requires forall k | 0 <= k < |steps| :: Quiet(p, states[k], steps[k])
    requires i < |states|
    ensures p.id in states[i].db.articles
    ensures states[i].db.articles[p.id].Status == Enriched ==>
      p.id in states[i].db.enrichments && states[i].db.enrichments[p.id] == Final(p)
    ensures Enrich.Extends(StoredEnrichment(states[i].db, p.id), Final(p))
  {
    RunOnTrack(p, states, steps, i);
    StoredBelowFinal(p, Stored(Slice(states[i], p.id)));
  }

  /** What is stored in between is a part of the final result. */
  lemma StoredBelowFinal(p: Job, e: Enrichment)
    requires IsAfter(p, e, 0)
    ensures Enrich.Extends(e, Final(p))
  {
    var m: nat :| 0 <= m <= |Windows(p)| && e == After(p, m);
    AfterGrows(p, m, |Windows(p)|);
  }

  // ---------------------------------------------------------------- the model stamp does not survive every crash

  /** The job as a run sees it that starts over after the first m windows were saved. */
  function Resumed(p: Job, m: nat): Job
    requires m <= |Windows(p)|
  {
    p.(before := After(p, m))
  }

  lemma {:induction false} ResumedAfter(p: Job, m: nat, i: nat)
    requires m <= |Windows(p)| && i <= |Windows(p)|
    ensures After(Resumed(p, m), i) == After(p, if i <= m then m else i)
  {
    hide Chunk.Chunks, Enrich.Merge, Enrich.Sanitize, Enrich.SpanCovered;
    if i > 0 {
      ResumedAfter(p, m, i - 1);
      assert Answer(Resumed(p, m), i - 1) == Answer(p, i - 1);
      if i <= m && !Enrich.SpanCovered(After(p, m).Sentences, Windows(p)[i - 1]) {
        PassedWindowAbsorbed(p, i - 1, m);
      }
    }
  }

  /** Window i is annotated, not skipped, by a run from the start. */
  predicate Annotates(p: Job, i: nat)
    requires i < |Windows(p)|
  {
    !Enrich.SpanCovered(After(p, i).Sentences, Windows(p)[i])
  }

  /** Window i is still uncovered when a run that starts over after m windows comes to it. */
  predicate StillUncovered(p: Job, m: nat, i: nat)
    requires m <= |Windows(p)| && i < |Windows(p)|
  {
    !Enrich.SpanCovered(After(p, if i <= m then m else i).Sentences, Windows(p)[i])
  }

  /** The last of the first n windows that a run which starts over after m windows still finds uncovered. */
  function LastFound(p: Job, m: nat, n: nat): Option<nat>
    requires m <= |Windows(p)| && n <= |Windows(p)|
  {
    if n == 0 then None
    else if StillUncovered(p, m, n - 1) then Some(n - 1)
    else LastFound(p, m, n - 1)
  }

  /** The last window that a run from the start annotates. */
  function LastAnnotated(p: Job): Option<nat> {
    LastFound(p, 0, |Windows(p)|)
  }

  /** The last window that a run which starts over after m windows annotates. */
  function LastReannotated(p: Job, m: nat): Option<nat>
    requires m <= |Windows(p)|
  {
    LastFound(p, m, |Windows(p)|)
  }

  /** The stamp a window leaves on the column: its model's name, if it has one. */
  function Named(p: Job, window: Option<nat>, column: string): string
    requires window.Some? ==> window.value < |Windows(p)|
  {
    if window.Some? && p.model(Windows(p)[window.value]) != "" then p.model(Windows(p)[window.value]) else column
  }

  lemma {:induction false} LastFoundMeans(p: Job, m: nat, n: nat)
    requires m <= |Windows(p)| && n <= |Windows(p)|
    ensures var w := LastFound(p, m, n);
      && (w.Some? ==> w.value < n && StillUncovered(p, m, w.value))
      && (forall i | 0 <= i < n && (w.Some? ==> w.value < i) :: !StillUncovered(p, m, i))
      && LastModel(Resumed(p, m), n) == (if w.Some? then p.model(Windows(p)[w.value]) else "")
  {
    hide Chunk.Chunks, After, Enrich.SpanCovered;
    if n > 0 {
      LastFoundMeans(p, m, n - 1);
      ResumedAfter(p, m, n - 1);
      assert Windows(Resumed(p, m)) == Windows(p);
    }
  }

  /** What an uninterrupted run skips, a run that starts over skips too. */
  lemma NeverAnnotated(p: Job, m: nat, i: nat)
    requires m <= |Windows(p)| && i < |Windows(p)| && !Annotates(p, i)
    ensures !StillUncovered(p, m, i)
  {
    var k := if i <= m then m else i;
    AfterGrows(p, i, k);
    CoveredStays(After(p, i).Sentences, After(p, k).Sentences, Windows(p)[i]);
  }

  /** The windows found when starting over are among those annotated from the start, and the stamps come from the
      last of each. */
  lemma StampMeans(p: Job, m: nat, column: string)
    requires m <= |Windows(p)|
    ensures var last, found := LastAnnotated(p), LastReannotated(p, m);
      && (last.Some? ==> last.value < |Windows(p)|)
      && (found.Some? ==> last.Some? && found.value <= last.value)
      && Stamp(p, column) == Named(p, last, column)
      && Stamp(Resumed(p, m), column) == Named(p, found, column)
  {
    var n := |Windows(p)|;
    assert Resumed(p, 0) == p && Windows(Resumed(p, m)) == Windows(p);
    LastFoundMeans(p, 0, n);
    LastFoundMeans(p, m, n);
    var last, found := LastAnnotated(p), LastReannotated(p, m);
    if found.Some? {
      if !Annotates(p, found.value) {
        NeverAnnotated(p, m, found.value);
        assert false;
      }
      AlwaysUncovered(p, found.value);
    }
    hide Chunk.Chunks, After, Enrich.SpanCovered;
  }

  lemma AlwaysUncovered(p: Job, i: nat)
    requires i < |Windows(p)| && Annotates(p, i)
    ensures StillUncovered(p, 0, i)
  {
  }

  predicate StampSurvives(p: Job, m: nat, column: string)
    requires m <= |Windows(p)|
  {
    Stamp(Resumed(p, m), column) == Stamp(p, column)
  }

  function WithModel(p: Job, model: Span -> string): Job {
    p.(model := model)
  }

  /** The windows do not depend on who annotates them. */
  lemma {:induction false} SameWindows(p: Job, model: Span -> string, m: nat, n: nat)
    requires m <= |Windows(p)| && n <= |Windows(p)|
    ensures Windows(WithModel(p, model)) == Windows(p)
    ensures LastFound(WithModel(p, model), m, n) == LastFound(p, m, n)
  {
    hide Chunk.Chunks, Enrich.SpanCovered, Enrich.Merge, Enrich.Sanitize;
    if n > 0 {
      SameWindows(p, model, m, n - 1);
      SameAfter(p, model, if n - 1 <= m then m else n - 1);
    }
  }

  lemma {:induction false} SameAfter(p: Job, model: Span -> string, n: nat)
    requires n <= |Windows(p)|
    ensures Windows(WithModel(p, model)) == Windows(p) && After(WithModel(p, model), n) == After(p, n)
  {
    hide Chunk.Chunks, Enrich.SpanCovered, Enrich.Merge, Enrich.Sanitize;
    if n > 0 {
      SameAfter(p, model, n - 1);
      assert Answer(WithModel(p, model), n - 1) == Answer(p, n - 1);
    }
  }

  lemma WindowsDiffer(p: Job, i: nat, j: nat)
    requires i < j < |Windows(p)|
    ensures Windows(p)[i] != Windows(p)[j]
  {
    var max := Chunk.Max(p.maxTokens, 1);
    Chunk.ChunksTile(p.text, p.tokens, max, 0);
    Chunk.TileBounds(Windows(p), 0, |p.tokens|);
    hide Chunk.ChunksFrom;
  }

  /** A run that starts over stores the stamp the uninterrupted run stores, whatever the models are called and whatever
      the column held, exactly when the last window it still finds uncovered is the last one annotated at all. */
  lemma StampSurvivesIff(p: Job, m: nat)
    requires m <= |Windows(p)|
    ensures (forall model, column :: StampSurvives(WithModel(p, model), m, column)) <==>
      LastReannotated(p, m) == LastAnnotated(p)
  {
    hide Chunk.Chunks, After, Stamp, LastFound;
    var last, found := LastAnnotated(p), LastReannotated(p, m);
    StampMeans(p, m, "");
    forall model, column
      ensures StampSurvives(WithModel(p, model), m, column) <==>
        Named(WithModel(p, model), found, column) == Named(WithModel(p, model), last, column)
    {
      SameWindows(p, model, m, |Windows(p)|);
      SameWindows(p, model, 0, |Windows(p)|);
      StampMeans(WithModel(p, model), m, column);
    }
    if found != last {
      var model := span => if span == Windows(p)[last.value] then "x" else "y";
      SameWindows(p, model, m, |Windows(p)|);
      if found.Some? {
        WindowsDiffer(p, found.value, last.value);
      }
      assert !StampSurvives(WithModel(p, model), m, "");
    }
  }

  /** With one name for every window, the stamp survives exactly when the run that starts over finds a window still
      uncovered, or the uninterrupted run annotates none, or the column holds the name already. */
  lemma OneModelStamp(p: Job, m: nat, name: string, column: string)
    requires m <= |Windows(p)| && name != "" && forall span :: p.model(span) == name
    ensures StampSurvives(p, m, column) <==>
      (exists i | 0 <= i < |Windows(p)| :: StillUncovered(p, m, i)) ||
      (forall i | 0 <= i < |Windows(p)| :: !Annotates(p, i)) || column == name
  {
    hide Chunk.Chunks, After, Stamp;
    var n := |Windows(p)|;
    StampMeans(p, m, column);
    LastFoundMeans(p, m, n);
    LastFoundMeans(p, 0, n);
    forall i | 0 <= i < n ensures Annotates(p, i) <==> StillUncovered(p, 0, i) {
    }
  }

  /** One word, one window, one answer: killed after the window was saved, the article is enriched without a stamp. */
  lemma StampLost(u: Unicode, id: ArticleId, known: Enrich.Known) returns (p: Job)
    requires !u.space('x')
    ensures |Windows(p)| == 1 && Stamp(p, "") == "m" && Stamp(Resumed(p, 1), "") == ""
  {
    var sentence := Sentence(0, 0, "x");
    var answer := Enrichment([], [], [sentence], []);
    p := Job(u, id, Lift("a"), [Token(0, "a", 0, 1, "")], 1, known, _ => answer, _ => "m", EMPTY_ENRICHMENT);
    assert Chunk.ChunksFrom(p.text, p.tokens, 1, 1) == [];
    assert Windows(p) == [Span(0, 0)];
    OneSentence(u, known, p.tokens, answer, sentence);
    assert !Enrich.SpanCovered([], Span(0, 0)) by { assert !Enrich.Covered([], 0); }
    assert After(p, 0) == EMPTY_ENRICHMENT;
    assert After(p, 1).Sentences == [sentence];
    assert Enrich.SpanCovered([sentence], Span(0, 0)) by { assert Enrich.InSentence([sentence][0], 0); }
    ResumedAfter(p, 1, 0);
    assert Windows(Resumed(p, 1)) == Windows(p);
    assert LastModel(Resumed(p, 1), 1) == "";
  }

  lemma OneSentence(u: Unicode, known: Enrich.Known, tokens: seq<Token>, answer: Enrichment, s: Sentence)
    requires !u.space('x') && s == Sentence(0, 0, "x") && |tokens| == 1 && answer == Enrichment([], [], [s], [])
    ensures Enrich.Merge(EMPTY_ENRICHMENT, Enrich.Sanitize(u, known, tokens, answer)).Sentences == [s]
  {
    assert [s][..0] == [];
    assert Enrich.SentenceOk(u, 1, s);
    assert Enrich.CleanSentences(u, 1, [s]) == [s];
    assert !Enrich.Overlaps([], s);
    assert Enrich.MergeSentences([], [s]) == [s];
  }
}
