/** What every run of the sync system keeps. */
module SyncSafety {
  import opened Model
  import opened VocabRows
  import opened Client
  import opened SyncSystem

  // ---------------------------------------------------------------- the server

  ghost predicate Gone(s: Shared, a: ArticleId) {
    a in s.known && a !in s.articles
  }

  ghost predicate Delivers(s: Shared, a: ArticleId, p: Progress) {
    PutProgress(a, p) in s.handled
  }

  /** The stored second of every article is the greatest delivered for it, and the row is one delivered with it. */
  ghost predicate RowsAreMaxima(s: Shared) {
    (forall a, p | Delivers(s, a, p) && a in s.articles ::
      a in s.progress && Truncated(p).updatedAt <= s.progress[a].updatedAt) &&
    (forall a | a in s.progress :: exists p :: Delivers(s, a, p) && s.progress[a] == Truncated(p))
  }

  ghost predicate LogIsClean(s: Shared) {
    NoClashes(s.log) && forall e | Lookup(e) in s.handled || ManualLookup(e) in s.handled :: Duplicate(s.log, e)
  }

  ghost predicate ServerOk(s: Shared) {
    s.progress.Keys <= s.articles.Keys <= s.known && RowsAreMaxima(s) && LogIsClean(s) &&
    (forall a | DeleteArticle(a) in s.handled :: Gone(s, a)) &&
    (forall a, p | Delivers(s, a, p) :: a in s.known) &&
    s.handled <= s.wire && (forall a, p | PutProgress(a, p) in s.wire :: (a, p) in s.writes)
  }

  /** What never goes back. */
  ghost predicate Advances(s: Shared, s': Shared) {
    s.known <= s'.known && s.handled <= s'.handled && s.wire <= s'.wire && s.writes <= s'.writes && s.log <= s'.log &&
    (forall a | Gone(s, a) :: Gone(s', a)) &&
    (forall a | a in s.progress && a in s'.articles ::
      a in s'.progress && s.progress[a].updatedAt <= s'.progress[a].updatedAt)
  }

  lemma UpsertFacts(rows: map<ArticleId, Progress>, a: ArticleId, p: Progress)
    requires a in rows ==> rows[a].updatedAt % 1000 == 0
    ensures var r := UpsertProgress(rows, a, p);
      && r.Keys == rows.Keys + {a} && (forall b | b in rows && b != a :: r[b] == rows[b])
      && Truncated(p).updatedAt <= r[a].updatedAt && (r[a] == Truncated(p) || (a in rows && r[a] == rows[a]))
      && (a in rows ==> rows[a].updatedAt <= r[a].updatedAt)
  {
  }

  lemma WholeSeconds(s: Shared)
    requires RowsAreMaxima(s)
    ensures forall a | a in s.progress :: s.progress[a].updatedAt % 1000 == 0
  {
  }

  lemma UpsertRows(s: Shared, a: ArticleId, p: Progress)
    requires RowsAreMaxima(s) && s.progress.Keys <= s.articles.Keys && a in s.articles
    ensures RowsAreMaxima(Handle(s, PutProgress(a, p)))
    ensures Advances(s, Handle(s, PutProgress(a, p)))
  {
    hide UpsertProgress, Truncated, RowsAreMaxima;
    var s' := Handle(s, PutProgress(a, p));
    WholeSeconds(s);
    UpsertFacts(s.progress, a, p);
    UpsertMaxima(s, s', a, p);
  }

  lemma UpsertMaxima(s: Shared, s': Shared, a: ArticleId, p: Progress)
    requires RowsAreMaxima(s) && s'.articles == s.articles && s'.handled == s.handled + {PutProgress(a, p)}
    requires s'.progress.Keys == s.progress.Keys + {a}
    requires forall b | b in s.progress && b != a :: s'.progress[b] == s.progress[b]
    requires s'.progress[a] == Truncated(p) || (a in s.progress && s'.progress[a] == s.progress[a])
    requires Truncated(p).updatedAt <= s'.progress[a].updatedAt
    requires a in s.progress ==> s.progress[a].updatedAt <= s'.progress[a].updatedAt
    ensures RowsAreMaxima(s')
  {
    hide Truncated;
    assert Delivers(s', a, p);
    assert forall b, q :: Delivers(s', b, q) <==> Delivers(s, b, q) || (b == a && q == p);
    forall b | b in s'.progress ensures exists q :: Delivers(s', b, q) && s'.progress[b] == Truncated(q) {
      if b != a || s'.progress[b] != Truncated(p) {
        var q :| Delivers(s, b, q) && s.progress[b] == Truncated(q);
        assert Delivers(s', b, q);
      }
    }
  }

  lemma DeleteRows(s: Shared, a: ArticleId)
    requires ServerOk(s) && a in s.articles
    ensures RowsAreMaxima(Handle(s, DeleteArticle(a)))
    ensures Advances(s, Handle(s, DeleteArticle(a)))
  {
    hide LogIsClean;
    var s' := Handle(s, DeleteArticle(a));
    forall b | b in s'.progress ensures exists q :: Delivers(s', b, q) && s'.progress[b] == Truncated(q) {
      var q :| Delivers(s, b, q) && s.progress[b] == Truncated(q);
      assert Delivers(s', b, q);
    }
    forall b, q | Delivers(s', b, q) && b in s'.articles
      ensures b in s'.progress && Truncated(q).updatedAt <= s'.progress[b].updatedAt
    {
      assert Delivers(s, b, q);
    }
  }

  lemma LookupLog(s: Shared, r: Request, e: LookupEvent)
    requires LogIsClean(s) && (r == Lookup(e) || r == ManualLookup(e))
    ensures LogIsClean(Handle(s, r)) && s.log <= Handle(s, r).log
  {
    var log := InsertAll(s.log, [e]);
    InsertAllNoClashes(s.log, [e]);
    InsertAllExtends(s.log, [e]);
    SubmittedClash(s.log, [e], e);
    forall x | Duplicate(s.log, x) ensures Duplicate(log, x) {
      DuplicateStays(s.log, log, x);
    }
    hide InsertAll, Duplicate, NoClashes;
  }

  lemma SameRows(s: Shared, s': Shared)
    requires RowsAreMaxima(s)
    requires s'.progress == s.progress && s'.articles.Keys == s.articles.Keys
    requires forall a, p :: Delivers(s', a, p) <==> Delivers(s, a, p)
    ensures RowsAreMaxima(s')
  {
    forall a | a in s'.progress ensures exists p :: Delivers(s', a, p) && s'.progress[a] == Truncated(p) {
      var p :| Delivers(s, a, p) && s.progress[a] == Truncated(p);
      assert Delivers(s', a, p);
    }
  }

  lemma HandleKeeps(s: Shared, r: Request)
    requires ServerOk(s) && r in s.wire
    ensures ServerOk(Handle(s, r)) && Advances(s, Handle(s, r))
  {
    hide RowsAreMaxima, LogIsClean, UpsertProgress;
    var s' := Handle(s, r);
    match r
    case PutProgress(a, p) =>
      if a in s.articles {
        UpsertRows(s, a, p);
        UpsertKeys(s, a, p);
        SameLog(s, s');
        assert forall b, q :: Delivers(s', b, q) ==> Delivers(s, b, q) || b == a;
      }
    case DeleteArticle(a) =>
      if a in s.articles {
        DeleteRows(s, a);
        SameLog(s, s');
        assert forall b, p :: Delivers(s', b, p) <==> Delivers(s, b, p);
      }
    case Lookup(e) =>
      LookupLog(s, r, e);
      SameRows(s, s');
    case ManualLookup(e) =>
      LookupLog(s, r, e);
      SameRows(s, s');
    case Other(_) =>
      SameLog(s, s');
      SameRows(s, s');
  }

  lemma UpsertKeys(s: Shared, a: ArticleId, p: Progress)
    ensures UpsertProgress(s.progress, a, p).Keys == s.progress.Keys + {a}
  {
  }

  lemma SameLog(s: Shared, s': Shared)
    requires LogIsClean(s) && s'.log == s.log
    requires forall e | Lookup(e) in s'.handled || ManualLookup(e) in s'.handled ::
      Lookup(e) in s.handled || ManualLookup(e) in s.handled
    ensures LogIsClean(s')
  {
  }

  lemma AdvancesTrans(a: Shared, b: Shared, c: Shared)
    requires Advances(a, b) && Advances(b, c) && ServerOk(a) && ServerOk(c)
    ensures Advances(a, c)
  {
    hide RowsAreMaxima, LogIsClean;
    forall x | x in a.progress && x in c.articles
      ensures x in c.progress && a.progress[x].updatedAt <= c.progress[x].updatedAt
    {
      assert x in a.known && x in b.known;
      assert !Gone(c, x);
    }
  }

  lemma AdvancesRefl(s: Shared)
    ensures Advances(s, s)
  {
  }

  lemma {:induction false} HandleAllKeeps(s: Shared, batch: seq<OutboxEntry>)
    requires ServerOk(s) && Requests(batch) <= s.wire
    ensures ServerOk(HandleAll(s, batch)) && Advances(s, HandleAll(s, batch))
  {
    hide ServerOk, Advances, Handle;
    if batch == [] {
      AdvancesRefl(s);
    } else {
      var front := batch[..|batch| - 1];
      assert Requests(front) <= Requests(batch);
      assert batch[|batch| - 1].request in Requests(batch);
      HandleAllKeeps(s, front);
      var t := HandleAll(s, front);
      WireGrows(s, t);
      HandleKeeps(t, batch[|batch| - 1].request);
      AdvancesTrans(s, t, HandleAll(s, batch));
    }
  }

  lemma WireGrows(s: Shared, t: Shared)
    requires Advances(s, t)
    ensures s.wire <= t.wire
  {
  }

  lemma {:induction false} BatchHandled(s: Shared, batch: seq<OutboxEntry>)
    requires (|batch| == 1 && Reply(s, batch[0].request).Accepted?) || forall e | e in batch :: e.request.Lookup?
    ensures Requests(batch) <= HandleAll(s, batch).handled && s.handled <= HandleAll(s, batch).handled
  {
    hide Handle, Reply;
    if batch != [] {
      var front, last := batch[..|batch| - 1], batch[|batch| - 1];
      assert batch == front + [last];
      assert last in batch;
      assert |batch| == 1 ==> front == [] && HandleAll(s, front) == s;
      BatchHandled(s, front);
      HandleRecords(HandleAll(s, front), last.request);
      assert Requests(batch) == Requests(front) + {last.request};
    }
  }

  lemma HandleRecords(s: Shared, r: Request)
    ensures s.handled <= Handle(s, r).handled
    ensures Reply(s, r).Accepted? ==> r in Handle(s, r).handled
    ensures r.Lookup? ==> Reply(s, r).Accepted?
  {
  }

  lemma DeliveredKeeps(s: Shared, batch: seq<OutboxEntry>, d: Delivery)
    requires ServerOk(s)
    requires forall e, a, p | e in batch && e.request == PutProgress(a, p) :: (a, p) in s.writes
    ensures ServerOk(Delivered(s, batch, d)) && Advances(s, Delivered(s, batch, d))
  {
    hide RowsAreMaxima, LogIsClean;
    var t := s.(wire := s.wire + Requests(batch));
    SameRows(s, t);
    SameLog(s, t);
    if d.Handled? {
      HandleAllKeeps(t, batch);
      AdvancesTrans(s, t, HandleAll(t, batch));
    }
  }

  // ---------------------------------------------------------------- one device

  ghost predicate Numbered(outbox: seq<OutboxEntry>, next: nat) {
    Increasing(outbox) && forall e | e in outbox :: e.id < next
  }

  /** What was queued is what left, in order, and then what is left. */
  ghost predicate Ledger(issued: seq<OutboxEntry>, outbox: seq<OutboxEntry>, left: seq<OutboxEntry>,
        leftLookups: seq<OutboxEntry>) {
    Queue(issued) == left + Queue(outbox) && LookupsOf(issued) == leftLookups + LookupsOf(outbox)
  }

  /** Every entry that left had a reason to. */
  ghost predicate Reasoned(d: Dev) {
    |d.why| == |d.left| && |d.whyLookups| == |d.leftLookups| &&
    (forall k | 0 <= k < |d.why| :: Leaves(d.why[k]) && (d.why[k].Skipped? ==> d.left[k].request.PutProgress?)) &&
    (forall k | 0 <= k < |d.whyLookups| :: Leaves(d.whyLookups[k]) && d.whyLookups[k].Answered?)
  }

  ghost predicate Fifo(d: Dev) {
    Numbered(d.tables.outbox, d.tables.nextId) &&
    Ledger(d.issued, d.tables.outbox, d.left, d.leftLookups) && Reasoned(d)
  }

  /** The snapshots a drain works on are prefixes of what the outbox still holds. */
  ghost predicate InStep(d: Dev) {
    match d.phase
    case Draining(l, q) => l <= LookupsOf(d.tables.outbox) && q <= Queue(d.tables.outbox)
    case Sent(l, q, o) =>
      l <= LookupsOf(d.tables.outbox) && q <= Queue(d.tables.outbox) && Batch(l, q) != [] &&
      (o.Skipped? ==> l == [] && q[0].request.PutProgress?)
    case _ => true
  }

  lemma BatchMembers(d: Dev)
    requires InStep(d) && (d.phase.Draining? || d.phase.Sent?)
    ensures var b := Batch(d.phase.lookups, d.phase.queue);
      && (d.phase.lookups != [] ==> forall e | e in b :: e.request.Lookup? && e in d.tables.outbox)
      && (d.phase.lookups == [] && b != [] ==> |b| == 1 && b[0] in d.tables.outbox && !b[0].request.Lookup?)
  {
    hide Queue, LookupsOf;
    var l, q := d.phase.lookups, d.phase.queue;
    forall e | e in l ensures e.request.Lookup? && e in d.tables.outbox {
      assert e in LookupsOf(d.tables.outbox);
      QueueMembers(d.tables.outbox, e);
    }
    if l == [] && q != [] {
      assert q[0] in Queue(d.tables.outbox);
      QueueMembers(d.tables.outbox, q[0]);
    }
  }

  predicate Appends(t: Tables, t': Tables, r: Request) {
    t'.outbox == t.outbox + [OutboxEntry(t.nextId, r)] && t'.nextId == t.nextId + 1
  }

  lemma IssueKeepsFifo(d: Dev, t: Tables, r: Request)
    requires Fifo(d) && Appends(d.tables, t, r)
    ensures Fifo(Issue(d, t))
  {
    hide Ledger, Numbered, Leaves;
    var e := OutboxEntry(d.tables.nextId, r);
    assert Issue(d, t).issued == d.issued + [e];
    LedgerSnoc(d.issued, d.tables.outbox, d.left, d.leftLookups, e);
    SnocNumbered(d.tables.outbox, e);
  }

  lemma LedgerSnoc(
      issued: seq<OutboxEntry>, outbox: seq<OutboxEntry>, left: seq<OutboxEntry>, leftLookups: seq<OutboxEntry>,
      e: OutboxEntry)
    requires Ledger(issued, outbox, left, leftLookups)
    ensures Ledger(issued + [e], outbox + [e], left, leftLookups)
  {
    hide Queue, LookupsOf, RemoveIds;
    FilterSnoc(outbox, e, {});
    FilterSnoc(issued, e, {});
    Append(left, Queue(outbox), e);
    Append(leftLookups, LookupsOf(outbox), e);
  }

  lemma IssueKeepsStep(d: Dev, t: Tables, r: Request)
    requires InStep(d) && Appends(d.tables, t, r)
    ensures InStep(Issue(d, t))
  {
    hide Queue, LookupsOf, Batch;
    FilterSnoc(d.tables.outbox, OutboxEntry(d.tables.nextId, r), {});
  }

  lemma IssueKeeps(d: Dev, t: Tables, r: Request)
    requires Fifo(d) && InStep(d) && Appends(d.tables, t, r)
    ensures Fifo(Issue(d, t)) && InStep(Issue(d, t))
  {
    IssueKeepsFifo(d, t, r);
    IssueKeepsStep(d, t, r);
  }

  lemma Append(a: seq<OutboxEntry>, b: seq<OutboxEntry>, e: OutboxEntry)
    ensures a + b + [e] == a + (b + [e])
  {
  }

  lemma SnocNumbered(s: seq<OutboxEntry>, e: OutboxEntry)
    requires Numbered(s, e.id)
    ensures Numbered(s + [e], e.id + 1)
  {
  }

  lemma LedgerLookups(
      issued: seq<OutboxEntry>, outbox: seq<OutboxEntry>, left: seq<OutboxEntry>, leftLookups: seq<OutboxEntry>, n: nat)
    requires Ledger(issued, outbox, left, leftLookups) && Increasing(outbox) && n <= |LookupsOf(outbox)|
    ensures var batch := LookupsOf(outbox)[..n]; var r := RemoveIds(outbox, IdsOf(batch));
      && Ledger(issued, r, left, leftLookups + batch)
      && LookupsOf(r) == LookupsOf(outbox)[n..] && Queue(r) == Queue(outbox)
  {
    hide Queue, LookupsOf, RemoveIds, IdsOf, Increasing;
    SettleChunk(outbox, n);
    assert LookupsOf(outbox) == LookupsOf(outbox)[..n] + LookupsOf(outbox)[n..];
  }

  lemma LedgerHead(
      issued: seq<OutboxEntry>, outbox: seq<OutboxEntry>, left: seq<OutboxEntry>, leftLookups: seq<OutboxEntry>)
    requires Ledger(issued, outbox, left, leftLookups) && Increasing(outbox) && Queue(outbox) != []
    ensures var head := Queue(outbox)[0]; var r := RemoveIds(outbox, {head.id});
      && Ledger(issued, r, left + [head], leftLookups)
      && LookupsOf(r) == LookupsOf(outbox) && Queue(r) == Queue(outbox)[1..]
  {
    hide Queue, LookupsOf, RemoveIds, Increasing;
    SettleHead(outbox);
    assert Queue(outbox) == [Queue(outbox)[0]] + Queue(outbox)[1..];
  }

  lemma RemoveNumbered(outbox: seq<OutboxEntry>, ids: set<nat>, next: nat)
    requires Numbered(outbox, next)
    ensures Numbered(RemoveIds(outbox, ids), next)
  {
    RemoveIncreasing(outbox, ids);
    forall e | e in RemoveIds(outbox, ids) ensures e in outbox {
      RemoveMembers(outbox, ids, e);
    }
    hide RemoveIds, Increasing;
  }

  lemma SettleReasoned(d: Dev)
    requires Reasoned(d) && InStep(d) && d.phase.Sent?
    ensures Reasoned(Settle(d))
  {
    hide Queue, LookupsOf, RemoveIds, IdsOf, Leaves;
  }

  lemma SettleLookups(d: Dev)
    requires Fifo(d) && InStep(d) && d.phase.Sent? && d.phase.lookups != [] && Leaves(d.phase.outcome)
    ensures var d' := Settle(d); InStep(d') && Ledger(d'.issued, d'.tables.outbox, d'.left, d'.leftLookups)
  {
    var l, outbox := d.phase.lookups, d.tables.outbox;
    var batch := Batch(l, d.phase.queue);
    assert batch == l[..|batch|] == LookupsOf(outbox)[..|batch|];
    assert Increasing(outbox);
    hide Queue, LookupsOf, RemoveIds, IdsOf, Ledger, Numbered, Increasing, Reasoned, Leaves, Batch;
    LedgerLookups(d.issued, outbox, d.left, d.leftLookups, |batch|);
  }

  lemma SettleQueued(d: Dev)
    requires Fifo(d) && InStep(d) && d.phase.Sent? && d.phase.lookups == [] && Leaves(d.phase.outcome)
    ensures var d' := Settle(d); InStep(d') && Ledger(d'.issued, d'.tables.outbox, d'.left, d'.leftLookups)
  {
    var q, outbox := d.phase.queue, d.tables.outbox;
    var batch := Batch([], q);
    assert batch == [q[0]] && q[0] == Queue(outbox)[0];
    OneId(q[0]);
    assert Increasing(outbox);
    hide Queue, LookupsOf, RemoveIds, IdsOf, Ledger, Numbered, Increasing, Reasoned, Leaves, Batch;
    LedgerHead(d.issued, outbox, d.left, d.leftLookups);
  }

  lemma SettleKeepsFifo(d: Dev)
    requires Fifo(d) && InStep(d) && d.phase.Sent?
    ensures Fifo(Settle(d)) && InStep(Settle(d))
  {
    SettleReasoned(d);
    RemoveNumbered(d.tables.outbox, IdsOf(Batch(d.phase.lookups, d.phase.queue)), d.tables.nextId);
    if Leaves(d.phase.outcome) {
      if d.phase.lookups != [] {
        SettleLookups(d);
      } else {
        SettleQueued(d);
      }
    }
    hide Queue, LookupsOf, RemoveIds, IdsOf, Ledger, Numbered, Reasoned, Leaves, Batch;
  }

  lemma OneId(e: OutboxEntry)
    ensures IdsOf([e]) == {e.id}
  {
  }

  /** Everything acknowledged was handled. */
  ghost predicate Acked(d: Dev, s: Shared) {
    (forall k | 0 <= k < |d.why| && k < |d.left| && d.why[k] == Answered(Accepted) :: d.left[k].request in s.handled) &&
    (forall k | 0 <= k < |d.whyLookups| && k < |d.leftLookups| && d.whyLookups[k] == Answered(Accepted) ::
      d.leftLookups[k].request in s.handled) &&
    (d.phase.Sent? && d.phase.outcome == Answered(Accepted) ==>
      Requests(Batch(d.phase.lookups, d.phase.queue)) <= s.handled)
  }

  predicate SameContent(a: Progress, b: Progress) {
    a.position == b.position && a.isRead == b.isRead && Second(a) == Second(b)
  }

  ghost predicate FromWrite(s: Shared, a: ArticleId, row: Progress) {
    exists p :: (a, p) in s.writes && SameContent(row, p)
  }

  ghost predicate RowsFromWrites(s: Shared, rows: map<ArticleId, Progress>) {
    forall a | a in rows :: FromWrite(s, a, rows[a])
  }

  /** Queued, stored and half-saved progress goes back to writes some device made. */
  ghost predicate Owned(d: Dev, s: Shared) {
    (forall e | e in d.tables.outbox && e.request.PutProgress? ::
      (e.request.article, e.request.progress) in s.writes) &&
    RowsFromWrites(s, d.tables.progress) && (d.phase.Got? ==> RowsFromWrites(s, d.phase.response.progress)) &&
    (forall x | x in d.doing && (x.Putting? || x.Saving?) :: (x.article, x.progress) in s.writes)
  }

  /** The article is deleted: the server says so, or that it has no such article. */
  predicate EndsDelete(o: Outcome) {
    o == Answered(Accepted) || o == Answered(Refused(404))
  }

  /** The answer to a queued delete is on its way. */
  predicate DeleteAnswered(d: Dev) {
    d.phase.Sent? && d.phase.lookups == [] && d.phase.queue != [] && d.phase.queue[0].request.DeleteArticle? &&
    EndsDelete(d.phase.outcome)
  }

  predicate DeleteDone(d: Dev, k: nat) {
    k < |d.left| && k < |d.why| && d.left[k].request.DeleteArticle? && EndsDelete(d.why[k])
  }

  /** Deletes name articles the server has issued; a finished one means that the server has the article no more. */
  ghost predicate Buried(d: Dev, s: Shared) {
    (forall e | e in d.tables.outbox && e.request.DeleteArticle? :: e.request.article in s.known) &&
    (forall x | x in d.doing && x.Deleting? :: x.article in s.known) &&
    (forall k: nat | DeleteDone(d, k) ::
      var a := d.left[k].request.article;
      Gone(s, a) && (d.phase.Got? ==> a !in d.phase.response.articles)) &&
    (DeleteAnswered(d) ==> Gone(s, d.phase.queue[0].request.article))
  }

  ghost predicate DevOk(d: Dev, s: Shared) {
    Fifo(d) && InStep(d) && Acked(d, s) && Owned(d, s) && Buried(d, s)
  }

  // ---------------------------------------------------------------- other steps leave a device's invariant alone

  lemma Framed(d: Dev, s: Shared, s': Shared)
    requires DevOk(d, s) && Advances(s, s')
    ensures DevOk(d, s')
  {
    hide Fifo, InStep, Batch;
    FromWritesGrow(s, s', d.tables.progress);
    if d.phase.Got? {
      FromWritesGrow(s, s', d.phase.response.progress);
    }
    FramedAcks(d, s, s');
  }

  lemma FromWritesGrow(s: Shared, s': Shared, rows: map<ArticleId, Progress>)
    requires RowsFromWrites(s, rows) && s.writes <= s'.writes
    ensures RowsFromWrites(s', rows)
  {
    forall a | a in rows ensures FromWrite(s', a, rows[a]) {
      var p :| (a, p) in s.writes && SameContent(rows[a], p);
      assert (a, p) in s'.writes;
    }
  }

  lemma FramedAcks(d: Dev, s: Shared, s': Shared)
    requires Acked(d, s) && s.handled <= s'.handled
    ensures Acked(d, s')
  {
    hide Batch, Requests;
  }

  // ---------------------------------------------------------------- a device's own steps

  /** An edit is queued: the outbox grows by one entry at the end, and the suspended action may be over. */
  lemma IssueKeepsDev(d: Dev, s: Shared, r: Request, d': Dev)
    requires DevOk(d, s)
    requires d' == Issue(d, Enqueue(d.tables, r)).(doing := d'.doing)
    requires forall x | x in d'.doing :: x in d.doing
    requires r.PutProgress? ==> (r.article, r.progress) in s.writes
    requires r.DeleteArticle? ==> r.article in s.known
    ensures DevOk(d', s)
  {
    hide Fifo, InStep, Acked, Owned, Buried, Batch, FromWrite;
    var t := Enqueue(d.tables, r);
    IssueKeeps(d, t, r);
    SameOutbox(Issue(d, t), d');
    IssueKeepsAcks(d, s, t);
    SameAcks(Issue(d, t), d', s);
    IssueOwned(d, s, r, d');
  }

  lemma IssueOwned(d: Dev, s: Shared, r: Request, d': Dev)
    requires Owned(d, s) && Buried(d, s)
    requires d' == Issue(d, Enqueue(d.tables, r)).(doing := d'.doing)
    requires forall x | x in d'.doing :: x in d.doing
    requires r.PutProgress? ==> (r.article, r.progress) in s.writes
    requires r.DeleteArticle? ==> r.article in s.known
    ensures Owned(d', s) && Buried(d', s)
  {
    hide RowsFromWrites, Gone;
    var t := Enqueue(d.tables, r);
    assert t.outbox[|t.outbox| - 1] == OutboxEntry(d.tables.nextId, r);
    SameDone(d, d');
    hide DeleteDone;
  }

  lemma SameDone(d: Dev, d': Dev)
    requires d'.left == d.left && d'.why == d.why
    ensures forall k: nat :: DeleteDone(d', k) <==> DeleteDone(d, k)
  {
  }

  lemma SameOutbox(d: Dev, d': Dev)
    requires Fifo(d) && InStep(d) && d'.phase == d.phase
    requires d'.tables.outbox == d.tables.outbox && d'.tables.nextId == d.tables.nextId
    requires d'.issued == d.issued && d'.left == d.left && d'.why == d.why
    requires d'.leftLookups == d.leftLookups && d'.whyLookups == d.whyLookups
    ensures Fifo(d') && InStep(d')
  {
    hide Queue, LookupsOf, Batch, Ledger, Numbered;
  }

  lemma SameAcks(d: Dev, d': Dev, s: Shared)
    requires Acked(d, s) && d'.phase == d.phase && d'.left == d.left && d'.why == d.why
    requires d'.leftLookups == d.leftLookups && d'.whyLookups == d.whyLookups
    ensures Acked(d', s)
  {
    hide Batch, Requests;
  }

  lemma OwnWrite(s: Shared, a: ArticleId, p: Progress)
    requires (a, p) in s.writes
    ensures FromWrite(s, a, p)
  {
    assert SameContent(p, p);
  }

  lemma IssueKeepsAcks(d: Dev, s: Shared, t: Tables)
    requires Acked(d, s) && t.outbox != []
    ensures Acked(Issue(d, t), s)
  {
    hide Batch, Requests;
  }

  /** A step of a user action that touches no queue: metas, progress rows and suspended actions change. */
  lemma LocalKeepsDev(d: Dev, s: Shared, d': Dev)
    requires DevOk(d, s)
    requires d' == d.(tables := d.tables.(metas := d'.tables.metas, progress := d'.tables.progress), doing := d'.doing)
    requires RowsFromWrites(s, d'.tables.progress)
    requires forall x | x in d'.doing && (x.Putting? || x.Saving?) :: (x.article, x.progress) in s.writes
    requires forall x | x in d'.doing && x.Deleting? :: x.article in s.known
    ensures DevOk(d', s)
  {
    hide Fifo, InStep, Acked, Gone, FromWrite;
    SameOutbox(d, d');
    SameAcks(d, d', s);
    SameDone(d, d');
  }

  lemma TurnDoing(d: Dev, was: Pending, now: Pending)
    ensures var d' := Turn(d, was, now);
      && d' == d.(doing := d'.doing)
      && now in d'.doing && (forall x | x in d'.doing :: x == now || x in d.doing)
      && (forall x | x in d.doing && x != was :: x in d'.doing)
  {
  }

  lemma EndedDoing(d: Dev, was: Pending)
    ensures var d' := Ended(d, was);
      && d' == d.(doing := d'.doing)
      && (forall x | x in d'.doing :: x in d.doing) && (forall x | x in d.doing && x != was :: x in d'.doing)
  {
  }

  lemma LocalParts(d: Dev, s: Shared)
    requires DevOk(d, s)
    ensures Owned(d, s) && Buried(d, s)
  {
    hide Fifo, InStep, Acked, Owned, Buried;
  }

  /** A user action begins, or one comes to its next await; the progress rows stay. */
  lemma BeginKeepsDev(d: Dev, s: Shared, x: Pending, d': Dev)
    requires DevOk(d, s)
    requires d' == d.(tables := d.tables.(metas := d'.tables.metas), doing := d.doing + multiset{x})
    requires x.Putting? || x.Saving? ==> (x.article, x.progress) in s.writes
    requires x.Deleting? ==> x.article in s.known
    ensures DevOk(d', s)
  {
    LocalParts(d, s);
    hide DevOk, RowsFromWrites, Gone, DeleteDone, Batch;
    LocalKeepsDev(d, s, d');
  }

  lemma PutRowKeepsDev(d: Dev, s: Shared, a: ArticleId, p: Progress, d': Dev)
    requires DevOk(d, s) && Putting(a, p) in d.doing
    requires d' == Turn(d, Putting(a, p), Saving(a, p)).(
      tables := d.tables.(progress := d.tables.progress[a := p]))
    ensures DevOk(d', s)
  {
    LocalParts(d, s);
    hide DevOk, Turn, FromWrite, Gone, DeleteDone, Batch;
    TurnDoing(d, Putting(a, p), Saving(a, p));
    OwnWrite(s, a, p);
    LocalKeepsDev(d, s, d');
  }

  lemma DropKeepsDev(d: Dev, s: Shared, a: ArticleId, d': Dev)
    requires DevOk(d, s) && Deleting(a, false) in d.doing
    requires d' == Turn(d, Deleting(a, false), Deleting(a, true)).(
      tables := d.tables.(progress := d.tables.progress - {a}))
    ensures DevOk(d', s)
  {
    LocalParts(d, s);
    hide DevOk, Turn, FromWrite, Gone, DeleteDone, Batch;
    TurnDoing(d, Deleting(a, false), Deleting(a, true));
    LocalKeepsDev(d, s, d');
  }

  lemma MarkKeepsDev(d: Dev, s: Shared, a: ArticleId, stamp: int, d': Dev)
    requires DevOk(d, s)
    requires d' == Ended(d, Marking(a, stamp)).(tables := d.tables.(metas := d.tables.metas[a := stamp]))
    ensures DevOk(d', s)
  {
    LocalParts(d, s);
    hide DevOk, Ended, RowsFromWrites, Gone, DeleteDone, Batch;
    EndedDoing(d, Marking(a, stamp));
    LocalKeepsDev(d, s, d');
  }

  /** A change of phase alone, to one that carries nothing from the server. */
  lemma PhaseKeepsDev(d: Dev, s: Shared, d': Dev)
    requires DevOk(d, s)
    requires d' == d.(phase := d'.phase, tables := d.tables.(hasCursor := d'.tables.hasCursor), doing := d'.doing)
    requires (d'.phase == d.phase) || (!d'.phase.Sent? && !d'.phase.Got?)
    requires d'.doing == d.doing || d'.doing == multiset{}
    requires InStep(d')
    ensures DevOk(d', s)
  {
    hide Queue, LookupsOf, Gone, Batch, Requests, FromWrite;
    SameDone(d, d');
  }

  lemma FetchKeepsDev(d: Dev, s: Shared, r: Response)
    requires DevOk(d, s) && ServerOk(s) && Offers(s, d.tables.hasCursor, r)
    ensures DevOk(d.(phase := Got(r)), s)
  {
    hide Fifo, Batch, Requests, Truncated, LogIsClean, RowsAreMaxima, FromWrite;
    var d' := d.(phase := Got(r));
    FifoIgnoresPhase(d, d');
    SameDone(d, d');
    forall a | a in r.progress ensures FromWrite(s, a, r.progress[a]) {
      ServerRowOwned(s, a);
    }
  }

  lemma FifoIgnoresPhase(d: Dev, d': Dev)
    requires Fifo(d) && d' == d.(phase := d'.phase)
    ensures Fifo(d')
  {
    hide Queue, LookupsOf;
  }

  lemma ServerRowOwned(s: Shared, a: ArticleId)
    requires ServerOk(s) && a in s.progress
    ensures FromWrite(s, a, s.progress[a])
  {
    hide LogIsClean;
    var p :| Delivers(s, a, p) && s.progress[a] == Truncated(p);
    assert PutProgress(a, p) in s.wire;
    assert (a, p) in s.writes && SameContent(s.progress[a], p);
  }

  /** The answer of a request sent is on its way; s is the server after it was dealt with. */
  lemma SendKeepsDev(d: Dev, s: Shared, o: Outcome)
    requires DevOk(d, s) && d.phase.Draining? && Batch(d.phase.lookups, d.phase.queue) != []
    requires var batch := Batch(d.phase.lookups, d.phase.queue);
      && (o.Skipped? <==> Superseded(d.tables.progress, batch[0]))
      && (o == Answered(Accepted) ==> Requests(batch) <= s.handled)
      && (d.phase.lookups == [] && batch[0].request.DeleteArticle? && EndsDelete(o) ==>
            Gone(s, batch[0].request.article))
    ensures DevOk(d.(phase := Sent(d.phase.lookups, d.phase.queue, o)), s)
  {
    hide Fifo, Queue, LookupsOf, Gone, Requests, FromWrite;
    var l, q := d.phase.lookups, d.phase.queue;
    var d' := d.(phase := Sent(l, q, o));
    BatchMembers(d);
    FifoIgnoresPhase(d, d');
    SameDone(d, d');
  }

  lemma CommitKeepsDev(d: Dev, s: Shared)
    requires DevOk(d, s) && d.phase.Got?
    ensures DevOk(After(d, s, Commit), s)
  {
    hide Queue, LookupsOf, Gone, FromWrite, MergeProgress, CommitPull;
    var d', r := After(d, s, Commit), d.phase.response;
    PullTables(d.tables, r);
    SameDone(d, d');
    forall a | a in d'.tables.progress ensures FromWrite(s, a, d'.tables.progress[a]) {
    }
  }

  lemma PullTables(t: Tables, r: Response)
    ensures var t' := CommitPull(t, r);
      && t'.outbox == t.outbox && t'.nextId == t.nextId
      && t'.progress.Keys == t.progress.Keys + r.progress.Keys
      && (forall a | a in t'.progress ::
        t'.progress[a] ==
          if a in r.progress && (a !in t.progress || IsNewer(r.progress[a], t.progress[a])) then r.progress[a]
          else t.progress[a])
  {
  }

  /** What settling does, table by table. */
  lemma Settled(d: Dev)
    requires Fifo(d) && InStep(d) && d.phase.Sent?
    ensures var d' := Settle(d); var batch := Batch(d.phase.lookups, d.phase.queue);
      && d'.tables == d.tables.(outbox := d'.tables.outbox) && d'.issued == d.issued && d'.pulled == d.pulled
      && d'.doing == d.doing && d.left <= d'.left && d.why <= d'.why
      && (forall e | e in d'.tables.outbox :: e in d.tables.outbox)
      && (forall e | e in d.tables.outbox && e !in batch :: e in d'.tables.outbox)
      && (!Leaves(d.phase.outcome) ==> d'.tables.outbox == d.tables.outbox && d'.left == d.left && d'.why == d.why)
      && (Leaves(d.phase.outcome) ==> forall e | e in batch :: e !in d'.tables.outbox)
      && (Leaves(d.phase.outcome) && d.phase.lookups == [] ==>
        d'.left == d.left + [d.phase.queue[0]] && d'.why == d.why + [d.phase.outcome] &&
          d.phase.queue[0] in d.tables.outbox)
      && (Leaves(d.phase.outcome) && d.phase.lookups != [] ==> d'.left == d.left && d'.why == d.why)
      && !d'.phase.Sent? && !d'.phase.Got?
  {
    hide Queue, LookupsOf, RemoveIds, IdsOf, Leaves;
    var batch, outbox := Batch(d.phase.lookups, d.phase.queue), d.tables.outbox;
    BatchMembers(d);
    forall e ensures e in RemoveIds(outbox, IdsOf(batch)) <==> e in outbox && e.id !in IdsOf(batch) {
      RemoveMembers(outbox, IdsOf(batch), e);
    }
    forall e | e in outbox && e !in batch ensures e.id !in IdsOf(batch) {
      NotRemoved(outbox, batch, e);
    }
    forall e | e in batch ensures e.id in IdsOf(batch) {
      IdIn(batch, e);
    }
  }

  lemma IdIn(batch: seq<OutboxEntry>, e: OutboxEntry)
    requires e in batch
    ensures e.id in IdsOf(batch)
  {
  }

  lemma NotRemoved(outbox: seq<OutboxEntry>, batch: seq<OutboxEntry>, e: OutboxEntry)
    requires Increasing(outbox) && e in outbox && e !in batch && forall x | x in batch :: x in outbox
    ensures e.id !in IdsOf(batch)
  {
    forall x | x in batch ensures x.id != e.id {
      SameIdSame(outbox, x, e);
    }
  }

  lemma SettleKeepsAcks(d: Dev, s: Shared)
    requires Acked(d, s) && Fifo(d) && InStep(d) && d.phase.Sent?
    ensures Acked(Settle(d), s)
  {
    hide Queue, LookupsOf, RemoveIds, IdsOf, Leaves, Batch;
    var batch := Batch(d.phase.lookups, d.phase.queue);
    assert forall k | 0 <= k < |batch| :: batch[k].request in Requests(batch);
    hide Requests;
  }

  lemma SettleKeepsOwned(d: Dev, s: Shared)
    requires Owned(d, s) && Fifo(d) && InStep(d) && d.phase.Sent?
    ensures Owned(Settle(d), s)
  {
    hide FromWrite, Fifo, InStep, Settle, Leaves;
    Settled(d);
  }

  lemma SettleKeepsBuried(d: Dev, s: Shared)
    requires Buried(d, s) && Fifo(d) && InStep(d) && d.phase.Sent?
    ensures Buried(Settle(d), s)
  {
    hide Queue, LookupsOf, Settle, Leaves, Gone;
    Settled(d);
    var d' := Settle(d);
    forall k: nat | DeleteDone(d', k) ensures Gone(s, d'.left[k].request.article) {
      if k < |d.left| {
        assert DeleteDone(d, k);
      }
    }
  }

  lemma SettleKeepsDev(d: Dev, s: Shared)
    requires DevOk(d, s) && d.phase.Sent?
    ensures DevOk(Settle(d), s)
  {
    hide Fifo, Acked, Owned, Buried;
    SettleKeepsFifo(d);
    SettleKeepsAcks(d, s);
    SettleKeepsOwned(d, s);
    SettleKeepsBuried(d, s);
  }

  // ---------------------------------------------------------------- every step

  ghost predicate SysOk(y: Sys) {
    ServerOk(y.shared) && forall d | 0 <= d < |y.devs| :: DevOk(y.devs[d], y.shared)
  }

  lemma WriteKeepsServer(s: Shared, a: ArticleId, p: Progress)
    requires ServerOk(s)
    ensures var s' := s.(writes := s.writes + {(a, p)}); ServerOk(s') && Advances(s, s')
  {
    hide RowsAreMaxima, LogIsClean;
    var s' := s.(writes := s.writes + {(a, p)});
    SameRows(s, s');
    SameLog(s, s');
  }

  lemma ServedKeeps(d: Dev, s: Shared, act: Act)
    requires DevOk(d, s) && ServerOk(s) && EnabledOn(d, s, act)
    ensures ServerOk(Served(d, s, act)) && Advances(s, Served(d, s, act))
  {
    hide ServerOk, Advances, Fifo, Acked, Buried, Delivered, Batch, Superseded, FromWrite;
    AdvancesRefl(s);
    match act
    case Write(a, p) => WriteKeepsServer(s, a, p);
    case Send(delivery) =>
      var batch := Batch(d.phase.lookups, d.phase.queue);
      BatchMembers(d);
      DeliveredKeeps(s, batch, delivery);
    case _ =>
  }

  /** An answer tells the truth about the server. */
  lemma AnswerMeans(d: Dev, s: Shared, delivery: Delivery)
    requires DevOk(d, s) && ServerOk(s) && EnabledOn(d, s, Send(delivery))
    ensures var batch := Batch(d.phase.lookups, d.phase.queue); var s' := Delivered(s, batch, delivery);
      var o := Answered(AnswerTo(s, batch, delivery));
      && (o == Answered(Accepted) ==> Requests(batch) <= s'.handled)
      && (d.phase.lookups == [] && batch[0].request.DeleteArticle? && EndsDelete(o) ==>
            Gone(s', batch[0].request.article))
  {
    hide Queue, LookupsOf, Fifo, Acked, Batch, RowsAreMaxima, LogIsClean, FromWrite, HandleAll,
      Handle;
    var batch := Batch(d.phase.lookups, d.phase.queue);
    BatchMembers(d);
    DeliveredKeeps(s, batch, delivery);
    var t := s.(wire := s.wire + Requests(batch));
    if AnswerTo(s, batch, delivery) == Accepted {
      assert Reply(t, batch[0].request) == Reply(s, batch[0].request);
      BatchHandled(t, batch);
      assert batch[0].request in Requests(batch);
    }
  }

  lemma OwnStepKeeps(d: Dev, s: Shared, act: Act)
    requires DevOk(d, s) && ServerOk(s) && EnabledOn(d, s, act)
    ensures DevOk(After(d, s, act), Served(d, s, act))
  {
    hide DevOk, ServerOk, Advances, Delivered, Batch, Superseded, CommitPull, Queue, LookupsOf, Gone;
    var s' := Served(d, s, act);
    ServedKeeps(d, s, act);
    Framed(d, s, s');
    match act
    case QueueWrite(a, p) =>
      PendingKnown(d, s');
      IssueKeepsDev(d, s', PutProgress(a, p), After(d, s, act));
    case QueueDelete(a) =>
      PendingKnown(d, s');
      IssueKeepsDev(d, s', DeleteArticle(a), After(d, s, act));
    case Look(e) => IssueKeepsDev(d, s', Lookup(e), After(d, s, act));
    case LookManually(e) => IssueKeepsDev(d, s', ManualLookup(e), After(d, s, act));
    case Ask(tag) => IssueKeepsDev(d, s', Other(tag), After(d, s, act));
    case Send(delivery) =>
      var batch := Batch(d.phase.lookups, d.phase.queue);
      AnswerMeans(d, s, delivery);
      SendKeepsDev(d, s', After(d, s, act).phase.outcome);
    case Receive => SettleKeepsDev(d, s');
    case Fetch(r) => FetchKeepsDev(d, s', r);
    case Commit => CommitKeepsDev(d, s');
    case Begin => SettledPhase(d, s', act);
    case Finish => SettledPhase(d, s', act);
    case NoFetch => SettledPhase(d, s', act);
    case Close => SettledPhase(d, s', act);
    case ForgetCursor => SettledPhase(d, s', act);
    case _ => LocalStepKeepsDev(d, s', act);
  }

  lemma LocalStepKeepsDev(d: Dev, s: Shared, act: Act)
    requires DevOk(d, s) && EnabledOn(d, s, act)
    requires act.Write? || act.PutRow? || act.Delete? || act.DropProgress? || act.Mark? || act.PutMark?
    requires act.Write? ==> (act.article, act.progress) in s.writes
    ensures DevOk(After(d, s, act), s)
  {
    hide DevOk, Turn, Ended, KeepsLocal;
    var d' := After(d, s, act);
    match act
    case Write(a, p) => BeginKeepsDev(d, s, if KeepsLocal(d.tables, a, p) then Saving(a, p) else Putting(a, p), d');
    case PutRow(a, p) => PutRowKeepsDev(d, s, a, p, d');
    case Delete(a) => BeginKeepsDev(d, s, Deleting(a, false), d');
    case DropProgress(a) => DropKeepsDev(d, s, a, d');
    case Mark(a) => BeginKeepsDev(d, s, Marking(a, d.tables.metas[a]), d');
    case PutMark(a, stamp) => MarkKeepsDev(d, s, a, stamp, d');
    case _ =>
  }

  lemma PendingKnown(d: Dev, s: Shared)
    requires DevOk(d, s)
    ensures forall a, p | Saving(a, p) in d.doing :: (a, p) in s.writes
    ensures forall a | Deleting(a, true) in d.doing :: a in s.known
  {
    hide Fifo, InStep, Acked, FromWrite;
  }

  lemma SettledPhase(d: Dev, s: Shared, act: Act)
    requires DevOk(d, s) && EnabledOn(d, s, act)
    requires act.Begin? || act.Finish? || act.NoFetch? || act.Close? || act.ForgetCursor?
    ensures DevOk(After(d, s, act), s)
  {
    assert InStep(d);
    hide DevOk, LookupsOf, Queue, Batch;
    PhaseKeepsDev(d, s, After(d, s, act));
  }

  lemma ServerStepKeeps(y: Sys, step: Step)
    requires SysOk(y) && Enabled(y, step) && !step.On?
    ensures ServerOk(Do(y, step).shared) && Advances(y.shared, Do(y, step).shared)
  {
    hide DevOk, RowsAreMaxima, LogIsClean, Handle;
    var s, s' := y.shared, Do(y, step).shared;
    match step
    case Late(r) => HandleKeeps(s, r);
    case Touch(a, stamp) =>
      SameRows(s, s');
      SameLog(s, s');
    case Add(a, stamp) =>
      NewArticleRows(s, s', a);
      SameLog(s, s');
      assert s'.articles.Keys == s.articles.Keys + {a};
      assert forall b, p :: Delivers(s', b, p) <==> Delivers(s, b, p);
  }

  lemma NewArticleRows(s: Shared, s': Shared, a: ArticleId)
    requires ServerOk(s) && a !in s.known && s'.progress == s.progress && s'.handled == s.handled
    requires s'.articles.Keys == s.articles.Keys + {a}
    ensures RowsAreMaxima(s')
  {
    hide LogIsClean;
    assert forall b, p :: Delivers(s', b, p) <==> Delivers(s, b, p);
    forall b | b in s'.progress ensures exists p :: Delivers(s', b, p) && s'.progress[b] == Truncated(p) {
      var p :| Delivers(s, b, p) && s.progress[b] == Truncated(p);
      assert Delivers(s', b, p);
    }
  }

  lemma StepKeeps(y: Sys, step: Step)
    requires SysOk(y) && Enabled(y, step)
    ensures SysOk(Do(y, step)) && Advances(y.shared, Do(y, step).shared)
  {
    hide DevOk, ServerOk, Advances, After, Served;
    var y' := Do(y, step);
    if step.On? {
      ServedKeeps(y.devs[step.dev], y.shared, step.act);
      OwnStepKeeps(y.devs[step.dev], y.shared, step.act);
    } else {
      ServerStepKeeps(y, step);
    }
    forall d | 0 <= d < |y'.devs| && y'.devs[d] == y.devs[d] ensures DevOk(y'.devs[d], y'.shared) {
      Framed(y.devs[d], y.shared, y'.shared);
    }
  }

  lemma Start(y: Sys)
    requires y.shared == NO_DATA && forall d | 0 <= d < |y.devs| :: y.devs[d] == FRESH
    ensures SysOk(y)
  {
    FreshOk();
    EmptyServerOk();
    hide DevOk, ServerOk;
  }

  lemma FreshOk()
    ensures DevOk(FRESH, NO_DATA)
  {
    FreshFifo(FRESH);
    FreshRest(FRESH, NO_DATA);
    hide Fifo, InStep, Acked, Owned, Buried, Gone;
  }

  lemma FreshFifo(d: Dev)
    requires d == FRESH
    ensures Fifo(d) && InStep(d)
  {
    assert Queue([]) == [] && LookupsOf([]) == [];
    hide Queue, LookupsOf;
  }

  lemma FreshRest(d: Dev, s: Shared)
    requires d == FRESH
    ensures Acked(d, s) && Owned(d, s) && Buried(d, s)
  {
  }

  lemma EmptyServerOk()
    ensures ServerOk(NO_DATA)
  {
  }

  lemma {:induction false} RunKeeps(ys: seq<Sys>, steps: seq<Step>, k: nat)
    requires IsRun(ys, steps) && k < |ys|
    ensures SysOk(ys[k])
  {
    hide SysOk, Enabled, Do;
    if k == 0 {
      Start(ys[0]);
    } else {
      RunKeeps(ys, steps, k - 1);
      StepKeeps(ys[k - 1], steps[k - 1]);
    }
  }
}
