/** What the sync protocol promises, over every run. */
module SyncResults {
  import opened Model
  import opened VocabRows
  import opened Client
  import opened SyncSystem
  import opened SyncSafety

  // ---------------------------------------------------------------- FIFO without loss

  /** What left the queue is a prefix of what was queued, in order, and each entry had a reason to go;
      what was acknowledged was handled, and the lookup log counts nothing twice. */
  lemma FifoWithoutLoss(ys: seq<Sys>, steps: seq<Step>, k: nat, d: nat)
    requires IsRun(ys, steps) && k < |ys| && d < |ys[k].devs|
    ensures var v := ys[k].devs[d];
      && Queue(v.issued) == v.left + Queue(v.tables.outbox)
      && LookupsOf(v.issued) == v.leftLookups + LookupsOf(v.tables.outbox)
      && |v.why| == |v.left| && |v.whyLookups| == |v.leftLookups|
      && (forall i | 0 <= i < |v.left| ::
            || (v.why[i] == Skipped && v.left[i].request.PutProgress?)
            || (v.why[i] == Answered(Accepted) && v.left[i].request in ys[k].shared.handled)
            || (v.why[i].Answered? && v.why[i].answer.Refused? && DismissesEntry(v.why[i].answer)))
      && (forall i | 0 <= i < |v.leftLookups| ::
            || (v.whyLookups[i] == Answered(Accepted) && v.leftLookups[i].request in ys[k].shared.handled)
            || (v.whyLookups[i].Answered? && v.whyLookups[i].answer.Refused? && DismissesEntry(v.whyLookups[i].answer)))
    ensures NoClashes(ys[k].shared.log)
    ensures forall e | Lookup(e) in ys[k].shared.handled || ManualLookup(e) in ys[k].shared.handled ::
      Duplicate(ys[k].shared.log, e)
  {
    hide Queue, LookupsOf, IsRun, InStep, Owned, Buried, NoClashes, Duplicate;
    RunKeeps(ys, steps, k);
    assert DevOk(ys[k].devs[d], ys[k].shared);
  }

  /** The histories of a device only grow. */
  ghost predicate Grows(d: Dev, d': Dev) {
    d.issued <= d'.issued && d.left <= d'.left && d.why <= d'.why &&
    d.leftLookups <= d'.leftLookups && d.whyLookups <= d'.whyLookups
  }

  lemma DevHistoryGrows(d: Dev, s: Shared, act: Act)
    requires EnabledOn(d, s, act)
    ensures Grows(d, After(d, s, act))
  {
    hide Grows, Issue, Turn, Ended, Settle, CommitPull, Queue, LookupsOf, Batch, Superseded, KeepsLocal, AnswerTo,
      Offers, Turns;
    var d' := After(d, s, act);
    match act
    case QueueWrite(a, p) => IssueGrows(d, PutProgress(a, p));
    case QueueDelete(a) => IssueGrows(d, DeleteArticle(a));
    case Look(e) => IssueGrows(d, Lookup(e));
    case LookManually(e) => IssueGrows(d, ManualLookup(e));
    case Ask(tag) => IssueGrows(d, Other(tag));
    case PutRow(a, p) =>
      TurnDoing(d, Putting(a, p), Saving(a, p));
      SameGrows(d, d');
    case DropProgress(a) =>
      TurnDoing(d, Deleting(a, false), Deleting(a, true));
      SameGrows(d, d');
    case PutMark(a, stamp) =>
      EndedDoing(d, Marking(a, stamp));
      SameGrows(d, d');
    case Receive => SettleGrows(d);
    case _ => SameGrows(d, d');
  }

  lemma IssueGrows(d: Dev, r: Request)
    ensures var d' := Issue(d, Enqueue(d.tables, r)); Grows(d, d') && forall was :: Grows(d, Ended(d', was))
  {
  }

  lemma SameGrows(d: Dev, d': Dev)
    requires d'.issued == d.issued && d'.left == d.left && d'.why == d.why
    requires d'.leftLookups == d.leftLookups && d'.whyLookups == d.whyLookups
    ensures Grows(d, d')
  {
  }

  lemma SettleGrows(d: Dev)
    requires d.phase.Sent? && Batch(d.phase.lookups, d.phase.queue) != []
    ensures Grows(d, Settle(d))
  {
    hide RemoveIds, IdsOf, Batch, Leaves;
  }

  lemma HistoryGrows(y: Sys, step: Step, d: nat)
    requires Enabled(y, step) && d < |y.devs|
    ensures var v, v' := y.devs[d], Do(y, step).devs[d];
      && |Do(y, step).devs| == |y.devs|
      && v.issued <= v'.issued && v.left <= v'.left && v.why <= v'.why
      && v.leftLookups <= v'.leftLookups && v.whyLookups <= v'.whyLookups
  {
    hide Handle, After, Served, EnabledOn;
    if step.On? {
      DevHistoryGrows(y.devs[step.dev], y.shared, step.act);
    }
  }

  lemma {:induction false} HistoriesGrow(ys: seq<Sys>, steps: seq<Step>, i: nat, j: nat, d: nat)
    requires IsRun(ys, steps) && i <= j < |ys| && d < |ys[i].devs|
    ensures |ys[j].devs| == |ys[i].devs| && ys[i].devs[d].left <= ys[j].devs[d].left &&
      ys[i].devs[d].why <= ys[j].devs[d].why
    decreases j
  {
    hide Do, Enabled;
    if i < j {
      HistoriesGrow(ys, steps, i, j - 1, d);
      assert Enabled(ys[j - 1], steps[j - 1]);
      HistoryGrows(ys[j - 1], steps[j - 1], d);
    }
  }

  // ---------------------------------------------------------------- deletes stick

  /** An acknowledged delete, or one answered by a 404, is final on the server: the article is never there again, nor in
      a response about to be applied. */
  lemma DeletedForGood(ys: seq<Sys>, steps: seq<Step>, i: nat, j: nat, d: nat)
    requires IsRun(ys, steps) && i <= j < |ys| && d < |ys[i].devs|
    ensures |ys[j].devs| == |ys[i].devs|
    ensures forall k: nat | DeleteDone(ys[i].devs[d], k) ::
      var a := ys[i].devs[d].left[k].request.article;
      DeleteDone(ys[j].devs[d], k) && ys[j].devs[d].left[k].request.article == a &&
      a !in ys[j].shared.articles && (ys[j].devs[d].phase.Got? ==> a !in ys[j].devs[d].phase.response.articles)
  {
    hide IsRun, Fifo, InStep, Acked, Owned;
    HistoriesGrow(ys, steps, i, j, d);
    RunKeeps(ys, steps, j);
    assert DevOk(ys[j].devs[d], ys[j].shared);
    forall k: nat | DeleteDone(ys[i].devs[d], k)
      ensures DeleteDone(ys[j].devs[d], k) && ys[j].devs[d].left[k] == ys[i].devs[d].left[k]
    {
    }
  }

  /** The library shows no article with a pending delete, and none whose delete is done. */
  ghost predicate Absent(d: Dev) {
    (forall e | e in d.tables.outbox && e.request.DeleteArticle? :: e.request.article !in d.tables.metas) &&
    forall k: nat | DeleteDone(d, k) :: d.left[k].request.article !in d.tables.metas
  }

  /** The delete queues for an article that is still out of the library; a meta is put back for one not deleted. */
  ghost predicate Clean(d: Dev, act: Act) {
    match act
    case QueueDelete(a) => a !in d.tables.metas
    case PutMark(a, _) =>
      (forall e | e in d.tables.outbox :: e.request != DeleteArticle(a)) &&
      forall k: nat | DeleteDone(d, k) :: d.left[k].request.article != a
    case _ => true
  }

  /** The library and the deletes may only shrink. */
  lemma AbsentShrinks(d: Dev, d': Dev)
    requires Absent(d) && d'.left == d.left && d'.why == d.why && d'.tables.metas.Keys <= d.tables.metas.Keys
    requires forall e | e in d'.tables.outbox && e.request.DeleteArticle? :: e in d.tables.outbox
    ensures Absent(d')
  {
    assert forall k: nat :: DeleteDone(d', k) <==> DeleteDone(d, k);
  }

  lemma AbsentQueued(d: Dev, a: ArticleId, d': Dev)
    requires Absent(d) && d'.left == d.left && d'.why == d.why && d'.tables == Enqueue(d.tables, DeleteArticle(a))
    ensures Absent(d') <==> a !in d.tables.metas
  {
    assert forall k: nat :: DeleteDone(d', k) <==> DeleteDone(d, k);
    assert OutboxEntry(d.tables.nextId, DeleteArticle(a)) in d'.tables.outbox;
  }

  lemma AbsentMarked(d: Dev, a: ArticleId, stamp: int, d': Dev)
    requires Absent(d) && d'.left == d.left && d'.why == d.why
    requires d'.tables == d.tables.(metas := d.tables.metas[a := stamp])
    ensures Absent(d') <==> Clean(d, PutMark(a, stamp))
  {
    assert forall k: nat :: DeleteDone(d', k) <==> DeleteDone(d, k);
  }

  lemma AbsentPulled(d: Dev, s: Shared, d': Dev)
    requires Absent(d) && Buried(d, s) && d.phase.Got? && d'.left == d.left && d'.why == d.why
    requires d'.tables == CommitPull(d.tables, d.phase.response)
    ensures Absent(d')
  {
    hide CommitPull, Gone;
    PullLibrary(d.tables, d.phase.response);
    PullTables(d.tables, d.phase.response);
    assert forall k: nat :: DeleteDone(d', k) <==> DeleteDone(d, k);
  }

  lemma AbsentOther(d: Dev, s: Shared, act: Act)
    requires Absent(d) && EnabledOn(d, s, act)
    requires !act.Receive? && !act.Commit? && !act.QueueDelete? && !act.PutMark?
    ensures Absent(After(d, s, act))
  {
    hide Absent, KeepsLocal, Turn, Ended, Superseded, Batch, Queue, LookupsOf, AnswerTo, Offers, Turns;
    var d' := After(d, s, act);
    match act {
      case QueueWrite(a, p) => EndedDoing(Issue(d, Enqueue(d.tables, PutProgress(a, p))), Saving(a, p));
      case PutRow(a, p) => TurnDoing(d, Putting(a, p), Saving(a, p));
      case DropProgress(a) => TurnDoing(d, Deleting(a, false), Deleting(a, true));
      case _ =>
    }
    AbsentShrinks(d, d');
  }

  /** One step keeps deleted articles out of the library exactly when it is clean. */
  lemma AbsentStep(d: Dev, s: Shared, act: Act)
    requires DevOk(d, s) && Absent(d) && EnabledOn(d, s, act)
    ensures Absent(After(d, s, act)) <==> Clean(d, act)
  {
    LocalParts(d, s);
    hide DevOk, Absent, CommitPull, Turn, Ended, Buried, Owned, Settle;
    match act
    case Receive => AbsentSettled(d, s);
    case Commit => AbsentPulled(d, s, After(d, s, act));
    case QueueDelete(a) =>
      EndedDoing(Issue(d, Enqueue(d.tables, DeleteArticle(a))), Deleting(a, true));
      AbsentQueued(d, a, After(d, s, act));
    case PutMark(a, stamp) =>
      EndedDoing(d, Marking(a, stamp));
      AbsentMarked(d, a, stamp, After(d, s, act));
    case _ => AbsentOther(d, s, act);
  }

  lemma AbsentSettled(d: Dev, s: Shared)
    requires DevOk(d, s) && Absent(d) && d.phase.Sent?
    ensures Absent(Settle(d))
  {
    hide Queue, LookupsOf, Acked, Owned, Buried, Settle, Leaves;
    Settled(d);
    var d' := Settle(d);
    forall k: nat | DeleteDone(d', k) ensures d'.left[k].request.article !in d'.tables.metas {
      if k < |d.left| {
        assert DeleteDone(d, k);
      }
    }
  }

  ghost predicate AllAbsent(y: Sys) {
    forall d | 0 <= d < |y.devs| :: Absent(y.devs[d])
  }

  ghost predicate AlwaysAbsent(ys: seq<Sys>) {
    forall k | 0 <= k < |ys| :: AllAbsent(ys[k])
  }

  ghost predicate AlwaysClean(ys: seq<Sys>, steps: seq<Step>)
    requires IsRun(ys, steps)
  {
    forall k | 0 <= k < |steps| :: CleanAt(ys[k], steps[k])
  }

  ghost predicate CleanAt(y: Sys, step: Step)
    requires Enabled(y, step)
  {
    step.On? ==> Clean(y.devs[step.dev], step.act)
  }

  lemma AbsentNext(y: Sys, step: Step)
    requires SysOk(y) && Enabled(y, step) && AllAbsent(y)
    ensures CleanAt(y, step) <==> AllAbsent(Do(y, step))
  {
    hide DevOk, ServerOk, Absent, Clean, After, Served, EnabledOn, Handle;
    if step.On? {
      AbsentStep(y.devs[step.dev], y.shared, step.act);
      assert Do(y, step).devs[step.dev] == After(y.devs[step.dev], y.shared, step.act);
    }
  }

  lemma {:induction false} CleanPrefixAbsent(ys: seq<Sys>, steps: seq<Step>, k: nat)
    requires IsRun(ys, steps) && k < |ys| && forall i | 0 <= i < k :: CleanAt(ys[i], steps[i])
    ensures AllAbsent(ys[k])
  {
    hide Do, Enabled, Absent, CleanAt, SysOk;
    if k == 0 {
      FreshAbsent();
    } else {
      CleanPrefixAbsent(ys, steps, k - 1);
      RunKeeps(ys, steps, k - 1);
      AbsentNext(ys[k - 1], steps[k - 1]);
    }
  }

  lemma FreshAbsent()
    ensures Absent(FRESH)
  {
  }

  /** Over a whole run, deleted articles stay out of every library exactly when every step is clean. */
  lemma DeletesStickIff(ys: seq<Sys>, steps: seq<Step>)
    requires IsRun(ys, steps)
    ensures AlwaysAbsent(ys) <==> AlwaysClean(ys, steps)
  {
    hide Do, Absent, CleanAt, SysOk, Enabled;
    if AlwaysClean(ys, steps) {
      forall k | 0 <= k < |ys| ensures AllAbsent(ys[k]) {
        CleanPrefixAbsent(ys, steps, k);
      }
    }
    if AlwaysAbsent(ys) {
      forall k | 0 <= k < |steps| ensures CleanAt(ys[k], steps[k]) {
        RunKeeps(ys, steps, k);
        AbsentNext(ys[k], steps[k]);
        assert AllAbsent(ys[k + 1]) && ys[k + 1] == Do(ys[k], steps[k]);
      }
    }
  }

  /** Applying a pull: a delta adds the response's articles, a full pull leaves them; articles with a pending delete
      stay out of it, whatever the library shows of them. */
  lemma PullsAreExact(ys: seq<Sys>, steps: seq<Step>, k: nat)
    requires IsRun(ys, steps) && k < |steps| && steps[k].On? && steps[k].act.Commit?
    ensures steps[k].dev < |ys[k].devs| && steps[k].dev < |ys[k + 1].devs|
    ensures var v, v' := ys[k].devs[steps[k].dev], ys[k + 1].devs[steps[k].dev];
      var pending := PendingDeletes(v.tables.outbox);
      && v.phase.Got?
      && v'.tables.metas.Keys == (v.phase.response.articles.Keys - pending) +
           (if v.phase.response.full then v.tables.metas.Keys * pending else v.tables.metas.Keys)
      && (Absent(v) && v.phase.response.full ==> v'.tables.metas.Keys == v.phase.response.articles.Keys - pending)
  {
    hide CommitPull;
    assert Enabled(ys[k], steps[k]) && ys[k + 1] == Do(ys[k], steps[k]);
    var v := ys[k].devs[steps[k].dev];
    PullLibrary(v.tables, v.phase.response);
  }

  // ---------------------------------------------------------------- what the server keeps

  /** The stored second is the greatest delivered, and the rest of the row came with it. */
  lemma ServerKeepsMaximum(ys: seq<Sys>, steps: seq<Step>, k: nat, a: ArticleId)
    requires IsRun(ys, steps) && k < |ys| && a in ys[k].shared.articles
    ensures var s := ys[k].shared;
      && (a in s.progress <==> exists p :: PutProgress(a, p) in s.handled)
      && (a in s.progress ==>
            && (forall p | PutProgress(a, p) in s.handled :: Second(p) <= Second(s.progress[a]))
            && (exists p :: PutProgress(a, p) in s.handled && SameContent(s.progress[a], p)))
  {
    hide IsRun, DevOk, LogIsClean;
    RunKeeps(ys, steps, k);
    var s := ys[k].shared;
    assert forall p | PutProgress(a, p) in s.handled :: Delivers(s, a, p);
    if a in s.progress {
      var p :| Delivers(s, a, p) && s.progress[a] == Truncated(p);
      assert PutProgress(a, p) in s.handled && SameContent(s.progress[a], p);
    }
  }

  // ---------------------------------------------------------------- a helper that nothing disturbs

  /** The steps of a save with nothing in between are the call. */
  lemma UndisturbedSave(d: Dev, s: Shared, a: ArticleId, p: Progress)
    ensures var d1 := After(d, s, Write(a, p)); var later := KeepsLocal(d.tables, a, p);
      && (!later ==> EnabledOn(d1, s, PutRow(a, p)))
      && var d2 := if later then d1 else After(d1, s, PutRow(a, p));
      && EnabledOn(d2, s, QueueWrite(a, p))
      && var d3 := After(d2, s, QueueWrite(a, p));
      d3.tables == EnqueueProgress(d.tables, a, p) && d3.doing == d.doing && d3.phase == d.phase
  {
    var d1 := After(d, s, Write(a, p));
    if !KeepsLocal(d.tables, a, p) {
      TurnDoing(d1, Putting(a, p), Saving(a, p));
    }
  }

  /** The steps of a delete with nothing in between are the call. */
  lemma UndisturbedDelete(d: Dev, s: Shared, a: ArticleId)
    requires EnabledOn(d, s, Delete(a))
    ensures var d1 := After(d, s, Delete(a));
      && EnabledOn(d1, s, DropProgress(a))
      && var d2 := After(d1, s, DropProgress(a));
      && EnabledOn(d2, s, QueueDelete(a))
      && var d3 := After(d2, s, QueueDelete(a));
      d3.tables == EnqueueDelete(d.tables, a) && d3.doing == d.doing && d3.phase == d.phase
  {
    var d1 := After(d, s, Delete(a));
    TurnDoing(d1, Deleting(a, false), Deleting(a, true));
  }

  // ---------------------------------------------------------------- what a device does next

  /** The request an action queues, if any. */
  function Queued(act: Act): Option<Request> {
    match act
    case QueueWrite(a, p) => Some(PutProgress(a, p))
    case QueueDelete(a) => Some(DeleteArticle(a))
    case Look(e) => Some(Lookup(e))
    case LookManually(e) => Some(ManualLookup(e))
    case Ask(tag) => Some(Other(tag))
    case _ => None
  }

  /** Such an action puts its request at the end of the outbox under the next id, and no other grows it; whatever the
      lookups of a batch, no entry moves from one stream to the other. */
  lemma ActsQueue(d: Dev, s: Shared, act: Act)
    requires EnabledOn(d, s, act)
    ensures var d' := After(d, s, act); var o, o' := d.tables.outbox, d'.tables.outbox;
      match Queued(act)
      case Some(r) => o' == o + [OutboxEntry(d.tables.nextId, r)] && d'.issued == d.issued + [o'[|o|]]
      case None => d'.issued == d.issued && (act.Receive? || o' == o)
    ensures forall e: LookupEvent ::
      LookupsOf([OutboxEntry(d.tables.nextId, Lookup(e))]) == [OutboxEntry(d.tables.nextId, Lookup(e))]
    ensures forall r: Request | !r.Lookup? ::
      Queue([OutboxEntry(d.tables.nextId, r)]) == [OutboxEntry(d.tables.nextId, r)]
  {
    hide Queue, LookupsOf, Batch, Superseded, KeepsLocal, AnswerTo, Offers, Turns, RemoveIds, IdsOf, MergeProgress;
    forall e: LookupEvent
      ensures LookupsOf([OutboxEntry(d.tables.nextId, Lookup(e))]) == [OutboxEntry(d.tables.nextId, Lookup(e))]
    {
      OneEntry(OutboxEntry(d.tables.nextId, Lookup(e)));
    }
    forall r: Request | !r.Lookup?
      ensures Queue([OutboxEntry(d.tables.nextId, r)]) == [OutboxEntry(d.tables.nextId, r)]
    {
      OneEntry(OutboxEntry(d.tables.nextId, r));
    }
  }

  lemma OneEntry(e: OutboxEntry)
    ensures e.request.Lookup? ==> LookupsOf([e]) == [e] && Queue([e]) == []
    ensures !e.request.Lookup? ==> Queue([e]) == [e] && LookupsOf([e]) == []
  {
    FilterSnoc([], e, {});
    assert [] + [e] == [e];
  }

  /** A device without a cursor is offered all the server has, and nothing else; one with a cursor any part of it. */
  lemma OfferMeans(s: Shared, r: Response)
    ensures Offers(s, false, r) <==> r == Response(true, s.articles, s.progress)
    ensures Offers(s, true, r) <==>
      !r.full && (forall a | a in r.articles :: a in s.articles && r.articles[a] == s.articles[a]) &&
      forall a | a in r.progress :: a in s.progress && r.progress[a] == s.progress[a]
  {
  }

  /** A sync run drains all there is when it begins, goes on to its pull however the drain ends, and is over when the
      pull is applied, with a cursor for the next, or fails. */
  lemma RunShape(d: Dev, s: Shared, act: Act)
    requires EnabledOn(d, s, act)
    ensures var d' := After(d, s, act);
      && (act.Begin? ==> d'.phase == Draining(LookupsOf(d.tables.outbox), Queue(d.tables.outbox)))
      && (act.Finish? ==> d'.phase == Pulling)
      && (act.Receive? ==>
            d'.phase == if Leaves(d.phase.outcome) then Draining(
                if d.phase.lookups == [] then [] else d.phase.lookups[|Batch(d.phase.lookups, d.phase.queue)|..],
                if d.phase.lookups == [] then d.phase.queue[1..] else d.phase.queue)
              else Pulling)
      && (act.Fetch? ==> d'.phase == Got(act.response))
      && (act.NoFetch? ==> d'.phase == Idle)
      && (act.Commit? ==> d'.phase == Idle && d'.tables.hasCursor)
      && (act.Close? ==> d'.phase == Idle && d'.doing == multiset{} && d'.tables == d.tables)
  {
    hide Queue, LookupsOf, RemoveIds, IdsOf, Superseded, KeepsLocal, AnswerTo, Offers, Turns, MergeProgress;
  }
}
