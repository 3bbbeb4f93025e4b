/** frontend/src/lib/sync/engine.ts and db.ts: one device's tables, and what the sync engine does to them. */
module Client {
  import opened Model
  import opened VocabRows

  type ArticleId = string

  /** A reading position; updatedAt is an instant in milliseconds. */
  datatype Progress = Progress(position: int, isRead: bool, updatedAt: int)

  /** A queued write. A manual lookup queues behind the other writes, a lookup in the batches. Kinds the properties
      do not distinguish (settings, add, retry, pin, ...) are Other. */
  datatype Request =
    | PutProgress(article: ArticleId, progress: Progress)
    | DeleteArticle(article: ArticleId)
    | Lookup(event: LookupEvent)
    | ManualLookup(event: LookupEvent)
    | Other(tag: int)

  datatype OutboxEntry = OutboxEntry(id: nat, request: Request)

  /** articles_meta (with the server's stamp), progress and outbox, ordered by id; whether a cursor is stored. */
  datatype Tables = Tables(
    metas: map<ArticleId, int>,
    progress: map<ArticleId, Progress>,
    outbox: seq<OutboxEntry>,
    nextId: nat,
    hasCursor: bool)

  /** GET /api/config, as far as articles and progress go. */
  datatype Response = Response(full: bool, articles: map<ArticleId, int>, progress: map<ArticleId, Progress>)

  const LOOKUP_BATCH_SIZE := 200

  predicate IsNewer(candidate: Progress, existing: Progress) {
    candidate.updatedAt > existing.updatedAt
  }

  function Enqueue(t: Tables, r: Request): Tables {
    t.(outbox := t.outbox + [OutboxEntry(t.nextId, r)], nextId := t.nextId + 1)
  }

  /** Optimistic update on newer-or-equal, then queue. */
  function EnqueueProgress(t: Tables, a: ArticleId, p: Progress): Tables {
    var local := if KeepsLocal(t, a, p) then t.progress else t.progress[a := p];
    Enqueue(t.(progress := local), PutProgress(a, p))
  }

  predicate KeepsLocal(t: Tables, a: ArticleId, p: Progress) {
    a in t.progress && IsNewer(t.progress[a], p)
  }

  function EnqueueDelete(t: Tables, a: ArticleId): Tables {
    Enqueue(t.(metas := t.metas - {a}, progress := t.progress - {a}), DeleteArticle(a))
  }

  function PendingDeletes(outbox: seq<OutboxEntry>): set<ArticleId> {
    set e | e in outbox && e.request.DeleteArticle? :: e.request.article
  }

  /** LWW by instant: the server's row wins only when it is newer. */
  function MergeProgress(local: map<ArticleId, Progress>, server: map<ArticleId, Progress>): map<ArticleId, Progress> {
    map a | a in local.Keys + server.Keys ::
      if a in server && (a !in local || IsNewer(server[a], local[a])) then server[a] else local[a]
  }

  lemma MergeNone(local: map<ArticleId, Progress>)
    ensures MergeProgress(local, map[]) == local
  {
  }

  /** Merging row by row. */
  lemma MergeStep(local: map<ArticleId, Progress>, rows: map<ArticleId, Progress>, a: ArticleId)
    requires a in rows
    ensures MergeProgress(local, rows) ==
      MergeProgress(if a !in local || IsNewer(rows[a], local[a]) then local[a := rows[a]] else local, rows - {a})
  {
    hide IsNewer;
  }

  /** The transaction of pull(). */
  function CommitPull(t: Tables, r: Response): Tables {
    var pending := PendingDeletes(t.outbox);
    var upserted := t.metas + (r.articles - pending);
    var metas := if r.full then map a | a in upserted && (a in r.articles || a in pending) :: upserted[a] else upserted;
    t.(metas := metas, progress := MergeProgress(t.progress, r.progress), hasCursor := true)
  }

  /** The FIFO part of the outbox: everything but the batched lookups. */
  function Queue(outbox: seq<OutboxEntry>): seq<OutboxEntry> {
    if outbox == [] then []
    else
      var q := Queue(outbox[..|outbox| - 1]);
      if outbox[|outbox| - 1].request.Lookup? then q else q + [outbox[|outbox| - 1]]
  }

  function LookupsOf(outbox: seq<OutboxEntry>): seq<OutboxEntry> {
    if outbox == [] then []
    else
      var q := LookupsOf(outbox[..|outbox| - 1]);
      if outbox[|outbox| - 1].request.Lookup? then q + [outbox[|outbox| - 1]] else q
  }

  function RemoveIds(outbox: seq<OutboxEntry>, ids: set<nat>): seq<OutboxEntry> {
    if outbox == [] then []
    else
      var r := RemoveIds(outbox[..|outbox| - 1], ids);
      if outbox[|outbox| - 1].id in ids then r else r + [outbox[|outbox| - 1]]
  }

  function IdsOf(entries: seq<OutboxEntry>): set<nat> {
    set e | e in entries :: e.id
  }

  /** dispatchEntry skips a progress write when the local row is newer. */
  predicate Superseded(local: map<ArticleId, Progress>, e: OutboxEntry) {
    e.request.PutProgress? && e.request.article in local && IsNewer(local[e.request.article], e.request.progress)
  }

  /** What the client learns about a request. */
  datatype Answer = Accepted | Refused(status: int) | Unreachable

  /** A 4xx other than 401 and 429: the entry is dropped. */
  predicate Permanent(a: Answer) {
    a.Refused? && 400 <= a.status < 500 && a.status != 401 && a.status != 429
  }

  /** The drain goes on to the next entry. */
  predicate Settles(a: Answer) {
    a.Accepted? || Permanent(a)
  }

  /** Why an entry left the outbox. */
  datatype Outcome = Skipped | Answered(answer: Answer)

  predicate Leaves(o: Outcome) {
    o.Skipped? || Settles(o.answer)
  }

  /** The outcomes of draining a queue in order: it stops at the first answer that does not settle its entry. */
  function Drain(local: map<ArticleId, Progress>, queue: seq<OutboxEntry>, answers: seq<Answer>): seq<Outcome> {
    if queue == [] then []
    else if Superseded(local, queue[0]) then [Skipped] + Drain(local, queue[1..], answers)
    else if answers == [] || !Settles(answers[0]) then []
    else [Answered(answers[0])] + Drain(local, queue[1..], answers[1..])
  }

  /** How many of the answers a drain has used up. */
  function Used(outcomes: seq<Outcome>): nat {
    if outcomes == [] then 0 else (if outcomes[0].Answered? then 1 else 0) + Used(outcomes[1..])
  }

  /** An entry is drained only when the local row is later than it, or its answer dismisses it. The first entry left
      waits for an answer, or got one that keeps it. */
  lemma {:induction false} DrainSound(local: map<ArticleId, Progress>, queue: seq<OutboxEntry>, answers: seq<Answer>)
    ensures var o := Drain(local, queue, answers);
      && |o| <= |queue| && Used(o) <= |answers|
      && (forall k | 0 <= k < |o| && o[k].Skipped? :: Outdated(local, queue[k]))
      && (forall k | 0 <= k < |o| && o[k].Answered? ::
            !Outdated(local, queue[k]) && o[k].answer in answers && DismissesEntry(o[k].answer))
      && (|o| < |queue| ==> !Outdated(local, queue[|o|]) && (Used(o) < |answers| ==> KeepsEntry(answers[Used(o)])))
  {
    if queue != [] {
      if Superseded(local, queue[0]) {
        DrainSound(local, queue[1..], answers);
        UsedCons(Skipped, Drain(local, queue[1..], answers));
      } else if answers != [] && Settles(answers[0]) {
        DrainSound(local, queue[1..], answers[1..]);
        UsedCons(Answered(answers[0]), Drain(local, queue[1..], answers[1..]));
      }
    }
  }

  /** The answers after which an entry goes: accepted, or a 4xx that is neither 401 nor 429. */
  predicate DismissesEntry(a: Answer) {
    match a
    case Accepted => true
    case Refused(status) => 400 <= status <= 499 && status != 401 && status != 429
    case Unreachable => false
  }

  /** The answers after which it stays, and all behind it: no connection, a lost session, too many requests, a failure
      of the server. */
  predicate KeepsEntry(a: Answer) {
    match a
    case Accepted => false
    case Refused(status) => status == 401 || status == 429 || status >= 500 || status < 400
    case Unreachable => true
  }

  /** A drain whose first answer keeps its entry removes nothing; after any other it goes on with the rest. */
  lemma DrainNext(local: map<ArticleId, Progress>, queue: seq<OutboxEntry>, answers: seq<Answer>)
    requires queue != [] && !Outdated(local, queue[0]) && answers != []
    ensures KeepsEntry(answers[0]) ==> Drain(local, queue, answers) == []
    ensures DismissesEntry(answers[0]) ==>
      Drain(local, queue, answers) == [Answered(answers[0])] + Drain(local, queue[1..], answers[1..])
    ensures KeepsEntry(answers[0]) <==> !DismissesEntry(answers[0])
  {
  }

  lemma UsedCons(o: Outcome, rest: seq<Outcome>)
    ensures Used([o] + rest) == Used(rest) + if o.Answered? then 1 else 0
  {
    assert ([o] + rest)[1..] == rest;
  }

  /** The device has a later row than the queued one. */
  predicate Outdated(local: map<ArticleId, Progress>, e: OutboxEntry) {
    match e.request
    case PutProgress(a, p) => a in local && p.updatedAt < local[a].updatedAt
    case _ => false
  }

  // ---------------------------------------------------------------- outbox algebra

  predicate Increasing(outbox: seq<OutboxEntry>) {
    forall i, j | 0 <= i < j < |outbox| :: outbox[i].id < outbox[j].id
  }

  lemma {:induction false} QueueMembers(outbox: seq<OutboxEntry>, e: OutboxEntry)
    ensures e in Queue(outbox) <==> e in outbox && !e.request.Lookup?
    ensures e in LookupsOf(outbox) <==> e in outbox && e.request.Lookup?
  {
    if outbox != [] {
      QueueMembers(outbox[..|outbox| - 1], e);
      assert outbox == outbox[..|outbox| - 1] + [outbox[|outbox| - 1]];
    }
  }

  lemma {:induction false} QueueIncreasing(outbox: seq<OutboxEntry>)
    requires Increasing(outbox)
    ensures Increasing(Queue(outbox)) && Increasing(LookupsOf(outbox))
  {
    if outbox != [] {
      var front, last := outbox[..|outbox| - 1], outbox[|outbox| - 1];
      QueueIncreasing(front);
      assert forall k | 0 <= k < |front| :: outbox[k].id < last.id;
      forall e | e in Queue(front) || e in LookupsOf(front) ensures e.id < last.id {
        QueueMembers(front, e);
      }
    }
  }

  lemma {:induction false} RemoveMembers(outbox: seq<OutboxEntry>, ids: set<nat>, e: OutboxEntry)
    ensures e in RemoveIds(outbox, ids) <==> e in outbox && e.id !in ids
  {
    if outbox != [] {
      RemoveMembers(outbox[..|outbox| - 1], ids, e);
      assert outbox == outbox[..|outbox| - 1] + [outbox[|outbox| - 1]];
    }
  }

  lemma {:induction false} RemoveIncreasing(outbox: seq<OutboxEntry>, ids: set<nat>)
    requires Increasing(outbox)
    ensures Increasing(RemoveIds(outbox, ids))
  {
    if outbox != [] {
      var front, last := outbox[..|outbox| - 1], outbox[|outbox| - 1];
      RemoveIncreasing(front, ids);
      forall e | e in RemoveIds(front, ids) ensures e.id < last.id {
        RemoveMembers(front, ids, e);
        var k :| 0 <= k < |front| && front[k] == e;
        assert outbox[k].id < outbox[|outbox| - 1].id;
      }
    }
  }

  /** Filtering by kind and removing by id commute. */
  lemma {:induction false} QueueOfRemove(outbox: seq<OutboxEntry>, ids: set<nat>)
    ensures Queue(RemoveIds(outbox, ids)) == RemoveIds(Queue(outbox), ids)
    ensures LookupsOf(RemoveIds(outbox, ids)) == RemoveIds(LookupsOf(outbox), ids)
  {
    if outbox != [] {
      var front, last := outbox[..|outbox| - 1], outbox[|outbox| - 1];
      QueueOfRemove(front, ids);
      FilterSnoc(RemoveIds(front, ids), last, ids);
      FilterSnoc(Queue(front), last, ids);
      FilterSnoc(LookupsOf(front), last, ids);
    }
  }

  lemma FilterSnoc(s: seq<OutboxEntry>, e: OutboxEntry, ids: set<nat>)
    ensures Queue(s + [e]) == if e.request.Lookup? then Queue(s) else Queue(s) + [e]
    ensures LookupsOf(s + [e]) == if e.request.Lookup? then LookupsOf(s) + [e] else LookupsOf(s)
    ensures RemoveIds(s + [e], ids) == if e.id in ids then RemoveIds(s, ids) else RemoveIds(s, ids) + [e]
  {
    assert (s + [e])[..|s|] == s;
  }

  lemma {:induction false} RemoveNone(s: seq<OutboxEntry>, ids: set<nat>)
    requires forall e | e in s :: e.id !in ids
    ensures RemoveIds(s, ids) == s
  {
    if s != [] {
      assert s == s[..|s| - 1] + [s[|s| - 1]];
      assert s[|s| - 1] in s;
      RemoveNone(s[..|s| - 1], ids);
    }
  }

  lemma {:induction false} RemovePrefix(s: seq<OutboxEntry>, n: nat)
    requires Increasing(s) && n <= |s|
    ensures RemoveIds(s, IdsOf(s[..n])) == s[n..]
    decreases |s|
  {
    var ids := IdsOf(s[..n]);
    if s == [] {
    } else if n == |s| {
      assert s[..n] == s;
      RemoveAll(s, ids);
    } else {
      var front := s[..|s| - 1];
      assert front[..n] == s[..n];
      RemovePrefix(front, n);
      assert s[|s| - 1].id !in ids by {
        forall e | e in s[..n] ensures e.id != s[|s| - 1].id {
          var k :| 0 <= k < n && s[..n][k] == e;
          assert s[k].id < s[|s| - 1].id;
        }
      }
      assert front[n..] + [s[|s| - 1]] == s[n..];
    }
  }

  lemma {:induction false} RemoveAll(s: seq<OutboxEntry>, ids: set<nat>)
    requires forall e | e in s :: e.id in ids
    ensures RemoveIds(s, ids) == []
  {
    if s != [] {
      assert s[|s| - 1] in s;
      RemoveAll(s[..|s| - 1], ids);
    }
  }

  /** Settling the first queued entry removes exactly it from the queue and no lookup. */
  lemma SettleHead(outbox: seq<OutboxEntry>)
    requires Increasing(outbox) && Queue(outbox) != []
    ensures var e := Queue(outbox)[0]; var r := RemoveIds(outbox, {e.id});
      Queue(r) == Queue(outbox)[1..] && LookupsOf(r) == LookupsOf(outbox) && Increasing(r)
  {
    hide Queue, LookupsOf, RemoveIds;
    var q := Queue(outbox);
    var e := q[0];
    QueueIncreasing(outbox);
    QueueOfRemove(outbox, {e.id});
    RemoveIncreasing(outbox, {e.id});
    RemovePrefix(q, 1);
    assert q[..1] == [e];
    assert IdsOf(q[..1]) == {e.id};
    forall x | x in LookupsOf(outbox) ensures x.id !in {e.id} {
      QueueMembers(outbox, x);
      QueueMembers(outbox, e);
      SameIdSame(outbox, x, e);
    }
    RemoveNone(LookupsOf(outbox), {e.id});
  }

  lemma SameIdSame(outbox: seq<OutboxEntry>, x: OutboxEntry, y: OutboxEntry)
    requires Increasing(outbox) && x in outbox && y in outbox
    ensures x.id == y.id ==> x == y
  {
    var i :| 0 <= i < |outbox| && outbox[i] == x;
    var j :| 0 <= j < |outbox| && outbox[j] == y;
  }

  /** Settling the first n lookups removes exactly them and nothing from the queue. */
  lemma SettleChunk(outbox: seq<OutboxEntry>, n: nat)
    requires Increasing(outbox) && n <= |LookupsOf(outbox)|
    ensures var r := RemoveIds(outbox, IdsOf(LookupsOf(outbox)[..n]));
      LookupsOf(r) == LookupsOf(outbox)[n..] && Queue(r) == Queue(outbox) && Increasing(r)
  {
    hide Queue, LookupsOf, RemoveIds;
    var l := LookupsOf(outbox);
    var ids := IdsOf(l[..n]);
    QueueIncreasing(outbox);
    QueueOfRemove(outbox, ids);
    RemoveIncreasing(outbox, ids);
    RemovePrefix(l, n);
    forall x | x in Queue(outbox) ensures x.id !in ids {
      QueueMembers(outbox, x);
      forall y | y in l[..n] ensures y.id != x.id {
        assert y in l;
        QueueMembers(outbox, y);
        SameIdSame(outbox, x, y);
      }
    }
    RemoveNone(Queue(outbox), ids);
  }

  // ---------------------------------------------------------------- what a pull does to the library

  /** A delta pull adds what the response offers; a full pull leaves just that. Neither adds an article with a pending
      delete, and neither removes one. */
  lemma PullLibrary(t: Tables, r: Response)
    ensures var pending := PendingDeletes(t.outbox); var metas := CommitPull(t, r).metas;
      && (!r.full ==> metas.Keys == t.metas.Keys + (r.articles.Keys - pending))
      && (r.full ==> metas.Keys == (r.articles.Keys - pending) + (t.metas.Keys * pending))
      && (forall a | a in r.articles && a !in pending :: metas[a] == r.articles[a])
  {
  }

  // ---------------------------------------------------------------- what the enqueue helpers leave

  /** A save is shown unless the device has a later row, and then its queued write is superseded: the last write made
      is the one shown, a tie going to the newer call. */
  lemma SaveTakes(t: Tables, a: ArticleId, p: Progress)
    ensures var t' := EnqueueProgress(t, a, p); var later := a in t.progress && t.progress[a].updatedAt > p.updatedAt;
      && t'.outbox == t.outbox + [OutboxEntry(t.nextId, PutProgress(a, p))] && t'.nextId == t.nextId + 1
      && t'.metas == t.metas && t'.progress.Keys == t.progress.Keys + {a} && t'.hasCursor == t.hasCursor
      && t'.progress[a] == (if later then t.progress[a] else p)
      && (forall b | b in t.progress && b != a :: t'.progress[b] == t.progress[b])
      && (Superseded(t'.progress, t'.outbox[|t.outbox|]) <==> later)
  {
  }

  /** After an undisturbed delete the article is gone from the library and its row from the progress, the delete is
      queued last, and no pull brings the article back while the delete is queued. */
  lemma DeleteHolds(t: Tables, a: ArticleId, r: Response)
    ensures var t' := EnqueueDelete(t, a);
      && t'.outbox == t.outbox + [OutboxEntry(t.nextId, DeleteArticle(a))] && t'.nextId == t.nextId + 1
      && t'.metas.Keys == t.metas.Keys - {a} && t'.progress.Keys == t.progress.Keys - {a}
      && (forall b | b in t.metas && b != a :: t'.metas[b] == t.metas[b])
      && (forall b | b in t.progress && b != a :: t'.progress[b] == t.progress[b])
      && a !in CommitPull(t', r).metas
  {
    var t' := EnqueueDelete(t, a);
    assert t'.outbox[|t.outbox|].request == DeleteArticle(a);
    PullLibrary(t', r);
  }

  /** A pulled row replaces the local one only when it is later; on a tie the local one stays. */
  lemma PullTakesLater(t: Tables, r: Response, a: ArticleId)
    ensures var local, pulled := t.progress, CommitPull(t, r).progress;
      && (a in pulled <==> a in local || a in r.progress)
      && (a in local && (a !in r.progress || r.progress[a].updatedAt <= local[a].updatedAt) ==> pulled[a] == local[a])
      && (a in r.progress && (a !in local || local[a].updatedAt < r.progress[a].updatedAt) ==>
            pulled[a] == r.progress[a])
  {
  }
}
