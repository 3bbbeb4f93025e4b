/** Several devices and the server they sync with, as a step system: local edits, serialised flush-then-pull runs
    broken into their awaits, lost answers, late deliveries, closed tabs. */
module SyncSystem {
  import opened Model
  import opened VocabRows
  import opened Client

  /** The server, and histories: ids ever issued, requests handled, requests sent, progress writes made. */
  datatype Shared = Shared(
    articles: map<ArticleId, int>,
    known: set<ArticleId>,
    progress: map<ArticleId, Progress>,
    log: seq<LookupEvent>,
    handled: set<Request>,
    wire: set<Request>,
    writes: set<(ArticleId, Progress)>)

  /** Where a sync run stands. The snapshots are what flushOutbox read and has not dealt with yet. */
  datatype Phase =
    | Idle
    | Draining(lookups: seq<OutboxEntry>, queue: seq<OutboxEntry>)
    | Sent(lookups: seq<OutboxEntry>, queue: seq<OutboxEntry>, outcome: Outcome)
    | Pulling
    | Got(response: Response)

  /** A user action suspended at an await of an enqueue helper: about to put the local row, about to queue the
      write, about to drop the progress row or to queue the delete, about to put back a meta it has read. */
  datatype Pending =
    | Putting(article: ArticleId, progress: Progress)
    | Saving(article: ArticleId, progress: Progress)
    | Deleting(article: ArticleId, dropped: bool)
    | Marking(article: ArticleId, stamp: int)

  /** A device, and histories: what it queued, what left the queue and why, the stamps of pulled progress rows. */
  datatype Dev = Dev(
    tables: Tables,
    phase: Phase,
    doing: multiset<Pending>,
    issued: seq<OutboxEntry>,
    left: seq<OutboxEntry>, why: seq<Outcome>,
    leftLookups: seq<OutboxEntry>, whyLookups: seq<Outcome>,
    pulled: map<ArticleId, int>)

  /** What becomes of a request: lost, handled (the answer seen or lost), or turned away without effect. */
  datatype Delivery = Lost | Handled(seen: bool) | Turned(status: int)

  datatype Act =
    | Write(article: ArticleId, progress: Progress)
    | PutRow(article: ArticleId, progress: Progress)
    | QueueWrite(article: ArticleId, progress: Progress)
    | Delete(article: ArticleId)
    | DropProgress(article: ArticleId)
    | QueueDelete(article: ArticleId)
    | Mark(article: ArticleId)
    | PutMark(article: ArticleId, stamp: int)
    | Look(event: LookupEvent)
    | LookManually(event: LookupEvent)
    | Ask(tag: int)
    | Begin
    | Send(delivery: Delivery)
    | Receive
    | Finish
    | Fetch(response: Response)
    | NoFetch
    | Commit
    | Close
    | ForgetCursor

  datatype Step =
    | On(dev: nat, act: Act)
    | Add(article: ArticleId, stamp: int)
    | Touch(article: ArticleId, stamp: int)
    | Late(request: Request)

  datatype Sys = Sys(devs: seq<Dev>, shared: Shared)

  function Second(p: Progress): int {
    p.updatedAt / 1000
  }

  /** The row the server keeps: times are stored in whole seconds. */
  function Truncated(p: Progress): Progress {
    p.(updatedAt := Second(p) * 1000)
  }

  /** UpsertProgress: the incoming record wins when it is strictly after the stored one. */
  function UpsertProgress(rows: map<ArticleId, Progress>, a: ArticleId, p: Progress): map<ArticleId, Progress> {
    if a in rows && !IsNewer(p, rows[a]) then rows else rows[a := Truncated(p)]
  }

  /** The server's handling of a request. Progress for a missing article breaks the foreign key: a 500. */
  function Reply(s: Shared, r: Request): Answer {
    match r
    case PutProgress(a, p) => if a in s.articles then Accepted else Refused(500)
    case DeleteArticle(a) => if a in s.articles then Accepted else Refused(404)
    case _ => Accepted
  }

  function Handle(s: Shared, r: Request): Shared {
    if !Reply(s, r).Accepted? then s
    else
      var s := s.(handled := s.handled + {r});
      match r
      case PutProgress(a, p) => s.(progress := UpsertProgress(s.progress, a, p))
      case DeleteArticle(a) => s.(articles := s.articles - {a}, progress := s.progress - {a})
      case Lookup(e) => s.(log := InsertAll(s.log, [e]))
      case ManualLookup(e) => s.(log := InsertAll(s.log, [e]))
      case Other(_) => s
  }

  function HandleAll(s: Shared, entries: seq<OutboxEntry>): Shared {
    if entries == [] then s
    else Handle(HandleAll(s, entries[..|entries| - 1]), entries[|entries| - 1].request)
  }

  /** What the next request of a drain carries: a batch of lookups, or one queued entry. */
  function Batch(lookups: seq<OutboxEntry>, queue: seq<OutboxEntry>): seq<OutboxEntry> {
    if lookups != [] then lookups[..if |lookups| < LOOKUP_BATCH_SIZE then |lookups| else LOOKUP_BATCH_SIZE]
    else if queue != [] then queue[..1]
    else []
  }

  function Requests(entries: seq<OutboxEntry>): set<Request> {
    set e | e in entries :: e.request
  }

  function Delivered(s: Shared, batch: seq<OutboxEntry>, d: Delivery): Shared {
    var s := s.(wire := s.wire + Requests(batch));
    if d.Handled? then HandleAll(s, batch) else s
  }

  function AnswerTo(s: Shared, batch: seq<OutboxEntry>, d: Delivery): Answer
    requires batch != []
  {
    match d
    case Lost => Unreachable
    case Handled(seen) => if seen then Reply(s, batch[0].request) else Unreachable
    case Turned(status) => Refused(status)
  }

  /** GET /api/config: everything without a cursor, otherwise any part of it. */
  predicate Offers(s: Shared, hasCursor: bool, r: Response) {
    r.full == !hasCursor &&
    (forall a | a in r.articles :: a in s.articles && r.articles[a] == s.articles[a]) &&
    (forall a | a in r.progress :: a in s.progress && r.progress[a] == s.progress[a]) &&
    (r.full ==> r.articles == s.articles && r.progress == s.progress)
  }

  predicate EnabledOn(d: Dev, s: Shared, act: Act) {
    match act
    case PutRow(a, p) => Putting(a, p) in d.doing
    case QueueWrite(a, p) => Saving(a, p) in d.doing
    case Delete(a) => a in s.known
    case DropProgress(a) => Deleting(a, false) in d.doing
    case QueueDelete(a) => Deleting(a, true) in d.doing
    case Mark(a) => a in d.tables.metas
    case PutMark(a, stamp) => Marking(a, stamp) in d.doing
    case Begin => d.phase.Idle?
    case Send(delivery) =>
      d.phase.Draining? && Batch(d.phase.lookups, d.phase.queue) != [] &&
      (delivery.Turned? ==> Turns(Batch(d.phase.lookups, d.phase.queue)[0].request, delivery.status))
    case Receive => d.phase.Sent? && Batch(d.phase.lookups, d.phase.queue) != []
    case Finish => d.phase.Draining? && d.phase.lookups == [] && d.phase.queue == []
    case Fetch(r) => d.phase.Pulling? && Offers(s, d.tables.hasCursor, r)
    case NoFetch => d.phase.Pulling?
    case Commit => d.phase.Got?
    case _ => true
  }

  /** A refusal without effect. A 404 for a delete means that the server has no such article. */
  predicate Turns(r: Request, status: int) {
    400 <= status && (r.DeleteArticle? ==> status != 404)
  }

  function Issue(d: Dev, t: Tables): Dev
    requires t.outbox != []
  {
    d.(tables := t, issued := d.issued + [t.outbox[|t.outbox| - 1]])
  }

  function Turn(d: Dev, was: Pending, now: Pending): Dev {
    d.(doing := d.doing - multiset{was} + multiset{now})
  }

  function Ended(d: Dev, was: Pending): Dev {
    d.(doing := d.doing - multiset{was})
  }

  /** The drain learns an outcome: the batch leaves the outbox, or the run goes on to its pull. */
  function Settle(d: Dev): Dev
    requires d.phase.Sent? && Batch(d.phase.lookups, d.phase.queue) != []
  {
    var lookups, queue, o := d.phase.lookups, d.phase.queue, d.phase.outcome;
    var batch := Batch(lookups, queue);
    if !Leaves(o) then d.(phase := Pulling)
    else
      var t := d.tables.(outbox := RemoveIds(d.tables.outbox, IdsOf(batch)));
      if lookups != [] then
        d.(tables := t, phase := Draining(lookups[|batch|..], queue),
           leftLookups := d.leftLookups + batch, whyLookups := d.whyLookups + seq(|batch|, _ => o))
      else
        d.(tables := t, phase := Draining([], queue[1..]), left := d.left + batch, why := d.why + [o])
  }

  /** The device's side of a step. */
  function After(d: Dev, s: Shared, act: Act): Dev
    requires EnabledOn(d, s, act)
  {
    match act
    case Write(a, p) =>
      d.(doing := d.doing + multiset{if KeepsLocal(d.tables, a, p) then Saving(a, p) else Putting(a, p)})
    case PutRow(a, p) =>
      Turn(d, Putting(a, p), Saving(a, p)).(
        tables := d.tables.(progress := d.tables.progress[a := p]))
    case QueueWrite(a, p) => Ended(Issue(d, Enqueue(d.tables, PutProgress(a, p))), Saving(a, p))
    case Delete(a) =>
      d.(tables := d.tables.(metas := d.tables.metas - {a}),
         doing := d.doing + multiset{Deleting(a, false)})
    case DropProgress(a) =>
      Turn(d, Deleting(a, false), Deleting(a, true)).(
        tables := d.tables.(progress := d.tables.progress - {a}))
    case QueueDelete(a) => Ended(Issue(d, Enqueue(d.tables, DeleteArticle(a))), Deleting(a, true))
    case Mark(a) => d.(doing := d.doing + multiset{Marking(a, d.tables.metas[a])})
    case PutMark(a, stamp) =>
      Ended(d, Marking(a, stamp)).(tables := d.tables.(metas := d.tables.metas[a := stamp]))
    case Look(e) => Issue(d, Enqueue(d.tables, Lookup(e)))
    case LookManually(e) => Issue(d, Enqueue(d.tables, ManualLookup(e)))
    case Ask(tag) => Issue(d, Enqueue(d.tables, Other(tag)))
    case Begin => d.(phase := Draining(LookupsOf(d.tables.outbox), Queue(d.tables.outbox)))
    case Send(delivery) =>
      var lookups, queue := d.phase.lookups, d.phase.queue;
      var batch := Batch(lookups, queue);
      d.(phase := Sent(lookups, queue,
        if Superseded(d.tables.progress, batch[0]) then Skipped else Answered(AnswerTo(s, batch, delivery))))
    case Receive => Settle(d)
    case Finish => d.(phase := Pulling)
    case Fetch(r) => d.(phase := Got(r))
    case NoFetch => d.(phase := Idle)
    case Commit =>
      var r := d.phase.response;
      d.(tables := CommitPull(d.tables, r), phase := Idle,
         pulled := d.pulled + map a | a in r.progress :: r.progress[a].updatedAt)
    case Close => d.(phase := Idle, doing := multiset{})
    case ForgetCursor => d.(tables := d.tables.(hasCursor := false))
  }

  /** The server's side. */
  function Served(d: Dev, s: Shared, act: Act): Shared
    requires EnabledOn(d, s, act)
  {
    match act
    case Write(a, p) => s.(writes := s.writes + {(a, p)})
    case Send(delivery) =>
      var batch := Batch(d.phase.lookups, d.phase.queue);
      if Superseded(d.tables.progress, batch[0]) then s else Delivered(s, batch, delivery)
    case _ => s
  }

  predicate Enabled(y: Sys, step: Step) {
    match step
    case On(d, act) => d < |y.devs| && EnabledOn(y.devs[d], y.shared, act)
    case Add(a, _) => a !in y.shared.known
    case Touch(a, _) => a in y.shared.articles
    case Late(r) => r in y.shared.wire
  }

  function Do(y: Sys, step: Step): Sys
    requires Enabled(y, step)
  {
    match step
    case On(d, act) =>
      Sys(y.devs[d := After(y.devs[d], y.shared, act)], Served(y.devs[d], y.shared, act))
    case Add(a, stamp) =>
      y.(shared := y.shared.(articles := y.shared.articles[a := stamp], known := y.shared.known + {a}))
    case Touch(a, stamp) => y.(shared := y.shared.(articles := y.shared.articles[a := stamp]))
    case Late(r) => y.(shared := Handle(y.shared, r))
  }

  const FRESH := Dev(Tables(map[], map[], [], 0, false), Idle, multiset{}, [], [], [], [], [], map[])
  const NO_DATA := Shared(map[], {}, map[], [], {}, {}, {})

  predicate IsRun(ys: seq<Sys>, steps: seq<Step>) {
    |ys| == |steps| + 1 && ys[0].shared == NO_DATA &&
    (forall d | 0 <= d < |ys[0].devs| :: ys[0].devs[d] == FRESH) &&
    forall k | 0 <= k < |steps| :: Enabled(ys[k], steps[k]) && ys[k + 1] == Do(ys[k], steps[k])
  }
}

/** The progress table of internal/store/store.go. */
module ProgressStore {
  import opened Model
  import opened Client
  import S = SyncSystem

  class ProgressTable {
    /** The articles table's keys, which the rows refer to. */
    var articles: set<ArticleId>
    var rows: map<ArticleId, Progress>

    constructor ()
      ensures articles == {} && rows == map[]
    {
      articles, rows := {}, map[];
    }

    /** Whether the record was applied; None when its article does not exist. */
    method UpsertProgress(a: ArticleId, p: Progress) returns (applied: Option<bool>)
      requires rows.Keys <= articles
      modifies this`rows
      ensures rows.Keys <= articles
      ensures a !in articles ==> applied == None && rows == old(rows)
      ensures a in articles ==> rows == S.UpsertProgress(old(rows), a, p)
      ensures a in articles ==> applied == Some(a in old(rows) ==> IsNewer(p, old(rows)[a]))
    {
      if a in rows {
        var existing := rows[a];
        if p.updatedAt <= existing.updatedAt {
          return Some(false);
        }
      }
      if a !in articles {
        return None;
      }
      rows := rows[a := S.Truncated(p)];
      return Some(true);
    }
  }
}
