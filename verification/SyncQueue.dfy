/** What an outbox queue gets past: an uninterrupted drain, step by step, and the entry it can never get past. */
module SyncQueue {
  import opened Model
  import opened VocabRows
  import opened Client
  import opened SyncSystem
  import opened SyncSafety
  import opened SyncResults

  // ---------------------------------------------------------------- an uninterrupted drain is FlushOutbox

  /** A device in the middle of draining its queue, lookups done. */
  predicate Drains(y: Sys, d: nat) {
    d < |y.devs| && y.devs[d].phase.Draining? && y.devs[d].phase.lookups == []
  }

  /** A refusal that no server made up: any error status but the 404 that answers a delete. */
  predicate Plain(x: Delivery) {
    x.Turned? ==> 400 <= x.status && x.status != 404
  }

  /** The device sends the head of its queue, what becomes of the request is given, and it learns the outcome. */
  function SendNext(y: Sys, d: nat, delivery: Delivery): Sys
    requires Drains(y, d) && y.devs[d].phase.queue != []
    requires Plain(delivery)
  {
    Do(Do(y, On(d, Send(delivery))), On(d, Receive))
  }

  /** Send and Receive, over and over, with nothing in between; a superseded entry uses up no delivery. */
  function RunDrain(y: Sys, d: nat, deliveries: seq<Delivery>): Sys
    requires Drains(y, d) && forall x | x in deliveries :: Plain(x)
    decreases |y.devs[d].phase.queue|
  {
    var q := y.devs[d].phase.queue;
    if q == [] then y
    else if Superseded(y.devs[d].tables.progress, q[0]) then
      OneRound(y, d, Lost);
      RunDrain(SendNext(y, d, Lost), d, deliveries)
    else if deliveries == [] then y
    else
      var next := SendNext(y, d, deliveries[0]);
      OneRound(y, d, deliveries[0]);
      if Drains(next, d) then RunDrain(next, d, deliveries[1..]) else next
  }

  /** One round of Send and Receive. */
  lemma OneRound(y: Sys, d: nat, delivery: Delivery)
    requires Drains(y, d) && y.devs[d].phase.queue != [] && Plain(delivery)
    ensures var q := y.devs[d].phase.queue; var next := SendNext(y, d, delivery); var v, v' := y.devs[d], next.devs[d];
      var skipped := Superseded(v.tables.progress, q[0]);
      var o := if skipped then Skipped else Answered(AnswerTo(y.shared, q[..1], delivery));
      && |next.devs| == |y.devs|
      && next.shared == (if skipped then y.shared else Delivered(y.shared, q[..1], delivery))
      && (Drains(next, d) <==> Leaves(o))
      && v'.tables.progress == v.tables.progress
      && (Leaves(o) ==>
            && v'.phase.queue == q[1..] && v'.left == v.left + [q[0]] && v'.why == v.why + [o]
            && v'.tables.outbox == RemoveIds(v.tables.outbox, {q[0].id}))
      && (!Leaves(o) ==>
            v'.phase.Pulling? && v'.left == v.left && v'.why == v.why && v'.tables.outbox == v.tables.outbox)
  {
    hide RemoveIds, Superseded, Delivered, AnswerTo;
    var q := y.devs[d].phase.queue;
    assert q[..1] == [q[0]];
    assert IdsOf(q[..1]) == {q[0].id};
  }

  /** The answers the device hears, until one does not settle its entry. */
  function Heard(s: Shared, local: map<ArticleId, Progress>, q: seq<OutboxEntry>,
        deliveries: seq<Delivery>): seq<Answer>
    decreases |q|
  {
    if q == [] then []
    else if Superseded(local, q[0]) then Heard(s, local, q[1..], deliveries)
    else if deliveries == [] then []
    else
      var a := AnswerTo(s, [q[0]], deliveries[0]);
      [a] + if Settles(a) then Heard(Delivered(s, [q[0]], deliveries[0]), local, q[1..], deliveries[1..]) else []
  }

  lemma DrainHeard(s: Shared, local: map<ArticleId, Progress>, q: seq<OutboxEntry>, deliveries: seq<Delivery>)
    requires q != []
    ensures var o := Drain(local, q, Heard(s, local, q, deliveries));
      && (Superseded(local, q[0]) ==> o == [Skipped] + Drain(local, q[1..], Heard(s, local, q[1..], deliveries)))
      && (!Superseded(local, q[0]) && (deliveries == [] || !Settles(AnswerTo(s, [q[0]], deliveries[0]))) ==> o == [])
      && (!Superseded(local, q[0]) && deliveries != [] && Settles(AnswerTo(s, [q[0]], deliveries[0])) ==>
            var rest := Heard(Delivered(s, [q[0]], deliveries[0]), local, q[1..], deliveries[1..]);
            o == [Answered(AnswerTo(s, [q[0]], deliveries[0]))] + Drain(local, q[1..], rest))
  {
    hide Superseded, AnswerTo, Delivered, Settles;
    if !Superseded(local, q[0]) && deliveries != [] && Settles(AnswerTo(s, [q[0]], deliveries[0])) {
      assert Heard(s, local, q, deliveries)[1..] ==
        Heard(Delivered(s, [q[0]], deliveries[0]), local, q[1..], deliveries[1..]);
    }
  }

  /** The steps of the system, uninterrupted, remove what SyncEngine.Engine.FlushOutbox removes for the answers heard,
      and for the same reasons. */
  lemma {:induction false} RunDrainIsDrain(y: Sys, d: nat, deliveries: seq<Delivery>)
    requires Drains(y, d) && forall x | x in deliveries :: Plain(x)
    ensures var v := y.devs[d]; var y' := RunDrain(y, d, deliveries);
      var o := Drain(v.tables.progress, v.phase.queue, Heard(y.shared, v.tables.progress, v.phase.queue, deliveries));
      && |y'.devs| == |y.devs| && |o| <= |v.phase.queue|
      && y'.devs[d].why == v.why + o && y'.devs[d].left == v.left + v.phase.queue[..|o|]
      && y'.devs[d].tables.progress == v.tables.progress
    decreases |y.devs[d].phase.queue|
  {
    hide Superseded, AnswerTo, Delivered, Settles, SendNext, Drain, Heard;
    var v := y.devs[d];
    var q, local := v.phase.queue, v.tables.progress;
    if q == [] {
      DrainNothing(y.shared, local, deliveries);
    } else {
      DrainHeard(y.shared, local, q, deliveries);
      assert q[..1] == [q[0]];
      if Superseded(local, q[0]) {
        OneRound(y, d, Lost);
        var next := SendNext(y, d, Lost);
        RunDrainIsDrain(next, d, deliveries);
        Taken(v.left, q, |Drain(local, q[1..], Heard(next.shared, local, q[1..], deliveries))|);
      } else if deliveries != [] {
        OneRound(y, d, deliveries[0]);
        var next := SendNext(y, d, deliveries[0]);
        if Drains(next, d) {
          RunDrainIsDrain(next, d, deliveries[1..]);
          Taken(v.left, q, |Drain(local, q[1..], Heard(next.shared, local, q[1..], deliveries[1..]))|);
        }
      }
    }
  }

  lemma DrainNothing(s: Shared, local: map<ArticleId, Progress>, deliveries: seq<Delivery>)
    ensures Drain(local, [], Heard(s, local, [], deliveries)) == []
  {
  }

  lemma Taken(left: seq<OutboxEntry>, q: seq<OutboxEntry>, n: nat)
    requires q != [] && n <= |q[1..]|
    ensures left + [q[0]] + q[1..][..n] == left + q[..1 + n]
  {
  }

  // ---------------------------------------------------------------- when a queue goes through

  /** Every request reaches the server and every answer the device. */
  function Honest(n: nat): (ds: seq<Delivery>)
    ensures |ds| == n && forall x | x in ds :: Plain(x)
  {
    seq(n, _ => Handled(true))
  }

  /** Every progress write that is still wanted names an article of the server that no delete before it removes. */
  predicate GoesThrough(articles: set<ArticleId>, local: map<ArticleId, Progress>, q: seq<OutboxEntry>) {
    forall i | 0 <= i < |q| && q[i].request.PutProgress? && !Superseded(local, q[i]) ::
      q[i].request.article in articles && !DeletedBefore(q, i, q[i].request.article)
  }

  predicate DeletedBefore(q: seq<OutboxEntry>, i: nat, a: ArticleId)
    requires i <= |q|
  {
    exists j | 0 <= j < i :: q[j].request == DeleteArticle(a)
  }

  function Remaining(articles: set<ArticleId>, r: Request): set<ArticleId> {
    if r.DeleteArticle? then articles - {r.article} else articles
  }

  lemma GoesThroughHead(articles: set<ArticleId>, local: map<ArticleId, Progress>, q: seq<OutboxEntry>)
    requires q != []
    ensures GoesThrough(articles, local, q) <==>
      (q[0].request.PutProgress? && !Superseded(local, q[0]) ==> q[0].request.article in articles) &&
      GoesThrough(Remaining(articles, q[0].request), local, q[1..])
  {
    hide Superseded;
    forall i, a | 1 <= i <= |q|
      ensures DeletedBefore(q, i, a) <==> q[0].request == DeleteArticle(a) || DeletedBefore(q[1..], i - 1, a)
    {
      if DeletedBefore(q, i, a) {
        var j :| 0 <= j < i && q[j].request == DeleteArticle(a);
        assert j > 0 ==> q[1..][j - 1].request == DeleteArticle(a);
      }
      if DeletedBefore(q[1..], i - 1, a) {
        var j :| 0 <= j < i - 1 && q[1..][j].request == DeleteArticle(a);
        assert q[j + 1].request == DeleteArticle(a);
      }
    }
    if GoesThrough(articles, local, q) {
      forall i | 0 <= i < |q[1..]| && q[1..][i].request.PutProgress? && !Superseded(local, q[1..][i])
        ensures q[1..][i].request.article in Remaining(articles, q[0].request) &&
          !DeletedBefore(q[1..], i, q[1..][i].request.article)
      {
        assert q[1..][i] == q[i + 1];
      }
    }
    if (q[0].request.PutProgress? && !Superseded(local, q[0]) ==> q[0].request.article in articles) &&
      GoesThrough(Remaining(articles, q[0].request), local, q[1..])
    {
      forall i | 0 <= i < |q| && q[i].request.PutProgress? && !Superseded(local, q[i])
        ensures q[i].request.article in articles && !DeletedBefore(q, i, q[i].request.article)
      {
        assert i > 0 ==> q[1..][i - 1] == q[i];
      }
    }
  }

  /** What an honest server answers to one entry, and leaves. */
  lemma HonestOne(s: Shared, e: OutboxEntry)
    ensures Settles(AnswerTo(s, [e], Handled(true))) <==> e.request.PutProgress? ==> e.request.article in s.articles
    ensures Delivered(s, [e], Handled(true)).articles.Keys == Remaining(s.articles.Keys, e.request)
    ensures Delivered(s, [e], Handled(true)).known == s.known
  {
    hide UpsertProgress, InsertAll;
    var t := s.(wire := s.wire + Requests([e]));
    assert [e][..0] == [];
    assert HandleAll(t, [e]) == Handle(HandleAll(t, []), e.request);
  }

  /** With an honest server in reach the whole queue is drained exactly when it goes through. */
  lemma {:induction false} HonestDrainIff(s: Shared, local: map<ArticleId, Progress>, q: seq<OutboxEntry>, n: nat)
    requires |q| <= n
    ensures |Drain(local, q, Heard(s, local, q, Honest(n)))| <= |q|
    ensures |Drain(local, q, Heard(s, local, q, Honest(n)))| == |q| <==> GoesThrough(s.articles.Keys, local, q)
    decreases |q|
  {
    hide Superseded, AnswerTo, Delivered, Settles, Drain, Heard, GoesThrough;
    if q == [] {
      DrainNothing(s, local, Honest(n));
      NothingToDo(s.articles.Keys, local);
    } else {
      DrainHeard(s, local, q, Honest(n));
      GoesThroughHead(s.articles.Keys, local, q);
      HonestOne(s, q[0]);
      assert Honest(n)[0] == Handled(true) && Honest(n)[1..] == Honest(n - 1);
      if Superseded(local, q[0]) {
        IsWrite(local, q[0]);
        HonestDrainIff(s, local, q[1..], n);
      } else if Settles(AnswerTo(s, [q[0]], Handled(true))) {
        HonestDrainIff(Delivered(s, [q[0]], Handled(true)), local, q[1..], n - 1);
      }
    }
  }

  lemma NothingToDo(articles: set<ArticleId>, local: map<ArticleId, Progress>)
    ensures GoesThrough(articles, local, [])
  {
  }

  lemma IsWrite(local: map<ArticleId, Progress>, e: OutboxEntry)
    ensures Superseded(local, e) ==> e.request.PutProgress?
  {
  }

  /** The outbox loses what the drain removes, and the first entry left is one the server has no article for. */
  lemma {:induction false} HonestRunStops(y: Sys, d: nat, n: nat)
    requires Drains(y, d) && Increasing(y.devs[d].tables.outbox) && |y.devs[d].phase.queue| <= n
    requires y.devs[d].phase.queue == Queue(y.devs[d].tables.outbox)
    ensures var y' := RunDrain(y, d, Honest(n)); |y'.devs| == |y.devs|
    ensures var y' := RunDrain(y, d, Honest(n)); var v, v' := y.devs[d], y'.devs[d];
      var rest := Queue(v'.tables.outbox);
      && v'.left + rest == v.left + v.phase.queue
      && v'.tables.progress == v.tables.progress && y'.shared.known == y.shared.known
      && (rest != [] ==>
            v'.phase.Pulling? && rest[0].request.PutProgress? && !Superseded(v.tables.progress, rest[0]) &&
            rest[0].request.article !in y'.shared.articles)
    decreases |y.devs[d].phase.queue|
  {
    hide Superseded, AnswerTo, Delivered, Settles, SendNext, Queue, RemoveIds, Increasing, Do;
    var v := y.devs[d];
    var q, local := v.phase.queue, v.tables.progress;
    if q != [] {
      assert q[..1] == [q[0]] && [q[0]] + q[1..] == q;
      SettleHead(v.tables.outbox);
      HonestOne(y.shared, q[0]);
      assert Honest(n)[0] == Handled(true) && Honest(n)[1..] == Honest(n - 1);
      if Superseded(local, q[0]) {
        OneRound(y, d, Lost);
        HonestRunStops(SendNext(y, d, Lost), d, n);
        assert v.left + [q[0]] + q[1..] == v.left + q;
      } else {
        OneRound(y, d, Handled(true));
        var next := SendNext(y, d, Handled(true));
        if Drains(next, d) {
          HonestRunStops(next, d, n - 1);
          assert v.left + [q[0]] + q[1..] == v.left + q;
        }
      }
    }
  }

  /** The head of the queue writes progress to an article the server does not have, and no newer local row
      supersedes it. */
  predicate Blocked(d: Dev, s: Shared, e: OutboxEntry) {
    e.request.PutProgress? && e.request.article !in s.articles && !Superseded(d.tables.progress, e)
  }

  /** A queue that nothing disturbs, with the server in reach, is emptied exactly when every progress write in it that
      is still wanted names an article the server has and no delete queued before removes; otherwise it stops at a
      write to an article the server has not. */
  lemma QueueGoesThroughIff(y: Sys, d: nat)
    requires Drains(y, d) && Increasing(y.devs[d].tables.outbox)
    requires y.devs[d].phase.queue == Queue(y.devs[d].tables.outbox)
    ensures var v := y.devs[d]; var q := v.phase.queue; var y' := RunDrain(y, d, Honest(|q|));
      && |y'.devs| == |y.devs|
      && (Queue(y'.devs[d].tables.outbox) == [] <==> GoesThrough(y.shared.articles.Keys, v.tables.progress, q))
      && (!GoesThrough(y.shared.articles.Keys, v.tables.progress, q) ==>
            && Queue(y'.devs[d].tables.outbox) != []
            && Blocked(y'.devs[d], y'.shared, Queue(y'.devs[d].tables.outbox)[0]))
  {
    hide Superseded, Queue, GoesThrough, RunDrain, Drain, Heard;
    var v := y.devs[d];
    var q := v.phase.queue;
    HonestDrainIff(y.shared, v.tables.progress, q, |q|);
    RunDrainIsDrain(y, d, Honest(|q|));
    HonestRunStops(y, d, |q|);
    var v' := RunDrain(y, d, Honest(|q|)).devs[d];
    var o := Drain(v.tables.progress, q, Heard(y.shared, v.tables.progress, q, Honest(|q|)));
    assert v'.left + Queue(v'.tables.outbox) == v.left + q && v'.left == v.left + q[..|o|];
    assert |Queue(v'.tables.outbox)| == |q| - |o|;
  }

  // ---------------------------------------------------------------- what the queue cannot get past

  /** Blocked at an article that was deleted, with nothing under way that could change that. */
  ghost predicate Stuck(d: Dev, s: Shared, e: OutboxEntry) {
    var q := Queue(d.tables.outbox);
    q != [] && q[0] == e && Blocked(d, s, e) && Gone(s, e.request.article) &&
    (d.phase.Sent? && d.phase.lookups == [] ==> !Leaves(d.phase.outcome)) &&
    (d.phase.Got? ==> e.request.article !in d.phase.response.progress)
  }

  /** Everything but a new local row for that article, and a 4xx made up by a proxy, on that device. */
  predicate Ordinary(d: nat, a: ArticleId, step: Step) {
    step.On? && step.dev == d ==>
      !(step.act.PutRow? && step.act.article == a) &&
      !(step.act.Send? && step.act.delivery.Turned? && Permanent(Refused(step.act.delivery.status)))
  }

  lemma StuckFrame(d: Dev, s: Shared, s': Shared, e: OutboxEntry)
    requires Stuck(d, s, e) && Advances(s, s')
    ensures Stuck(d, s', e)
  {
    hide Queue, Superseded;
  }

  lemma StuckIssue(d: Dev, s: Shared, r: Request, d': Dev, e: OutboxEntry)
    requires Stuck(d, s, e) && d' == Issue(d, Enqueue(d.tables, r)).(doing := d'.doing)
    ensures Stuck(d', s, e) && d'.left == d.left
  {
    hide Queue, LookupsOf, RemoveIds;
    FilterSnoc(d.tables.outbox, OutboxEntry(d.tables.nextId, r), {});
  }

  lemma StuckOther(d: Dev, s: Shared, d': Dev, e: OutboxEntry)
    requires Stuck(d, s, e) && d'.tables.outbox == d.tables.outbox && d'.left == d.left
    requires d'.phase == d.phase || (!d'.phase.Sent? && !d'.phase.Got?)
    requires e.request.article in d'.tables.progress ==>
      e.request.article in d.tables.progress &&
      d'.tables.progress[e.request.article] == d.tables.progress[e.request.article]
    ensures Stuck(d', s, e)
  {
    hide Queue;
  }

  lemma StuckSend(d: Dev, s: Shared, delivery: Delivery, e: OutboxEntry)
    requires DevOk(d, s) && Stuck(d, s, e) && EnabledOn(d, s, Send(delivery))
    requires Ordinary(0, e.request.article, On(0, Send(delivery)))
    ensures Stuck(After(d, s, Send(delivery)), s, e) && After(d, s, Send(delivery)).left == d.left
  {
    hide Queue, LookupsOf, Acked, Owned, Buried, Superseded;
  }

  lemma StuckPull(d: Dev, s: Shared, act: Act, e: OutboxEntry)
    requires Stuck(d, s, e) && EnabledOn(d, s, act) && ServerOk(s) && (act.Fetch? || act.Commit?)
    ensures Stuck(After(d, s, act), s, e) && After(d, s, act).left == d.left
  {
    hide Queue, CommitPull, RowsAreMaxima, LogIsClean;
    if act.Commit? {
      PullTables(d.tables, d.phase.response);
    }
  }

  lemma StuckStep(d: Dev, s: Shared, act: Act, e: OutboxEntry)
    requires DevOk(d, s) && ServerOk(s) && Stuck(d, s, e) && EnabledOn(d, s, act)
    requires Ordinary(0, e.request.article, On(0, act))
    ensures Stuck(After(d, s, act), s, e) && After(d, s, act).left == d.left
  {
    assert Fifo(d) && InStep(d) && e.request.PutProgress?;
    hide DevOk, ServerOk, Fifo, InStep, Stuck, Turn, Ended, CommitPull, Settle, Queue, LookupsOf, KeepsLocal, Offers,
      Turns;
    var d' := After(d, s, act);
    match act
    case QueueWrite(a, p) =>
      EndedDoing(Issue(d, Enqueue(d.tables, PutProgress(a, p))), Saving(a, p));
      StuckIssue(d, s, PutProgress(a, p), d', e);
    case QueueDelete(a) =>
      EndedDoing(Issue(d, Enqueue(d.tables, DeleteArticle(a))), Deleting(a, true));
      StuckIssue(d, s, DeleteArticle(a), d', e);
    case Look(x) => StuckIssue(d, s, Lookup(x), d', e);
    case LookManually(x) => StuckIssue(d, s, ManualLookup(x), d', e);
    case Ask(tag) => StuckIssue(d, s, Other(tag), d', e);
    case Send(delivery) => StuckSend(d, s, delivery, e);
    case Receive => StuckSettle(d, s, e);
    case Fetch(_) => StuckPull(d, s, act, e);
    case Commit => StuckPull(d, s, act, e);
    case _ => StuckElse(d, s, act, e);
  }

  lemma StuckElse(d: Dev, s: Shared, act: Act, e: OutboxEntry)
    requires Stuck(d, s, e) && EnabledOn(d, s, act) && Ordinary(0, e.request.article, On(0, act))
    requires !act.QueueWrite? && !act.QueueDelete? && !act.Look? && !act.LookManually? && !act.Ask?
    requires !act.Send? && !act.Receive? && !act.Fetch? && !act.Commit?
    ensures Stuck(After(d, s, act), s, e) && After(d, s, act).left == d.left
  {
    assert e.request.PutProgress?;
    hide Stuck, Turn, Ended, Queue, LookupsOf, KeepsLocal, Offers, Turns;
    var d' := After(d, s, act);
    match act {
      case PutRow(a, p) => TurnDoing(d, Putting(a, p), Saving(a, p));
      case DropProgress(a) => TurnDoing(d, Deleting(a, false), Deleting(a, true));
      case PutMark(a, stamp) => EndedDoing(d, Marking(a, stamp));
      case _ =>
    }
    StuckOther(d, s, d', e);
  }

  lemma StuckSettle(d: Dev, s: Shared, e: OutboxEntry)
    requires Fifo(d) && InStep(d) && Stuck(d, s, e) && d.phase.Sent?
    ensures Stuck(Settle(d), s, e) && Settle(d).left == d.left
  {
    hide Queue, LookupsOf, RemoveIds, IdsOf, Superseded;
    var batch := Batch(d.phase.lookups, d.phase.queue);
    if Leaves(d.phase.outcome) {
      SettleChunk(d.tables.outbox, |batch|);
      assert LookupsOf(d.tables.outbox)[..|batch|] == batch;
    }
  }

  lemma StuckNext(ys: seq<Sys>, steps: seq<Step>, k: nat, d: nat, e: OutboxEntry)
    requires IsRun(ys, steps) && k < |steps| && d < |ys[k].devs| && Stuck(ys[k].devs[d], ys[k].shared, e)
    requires Ordinary(d, e.request.article, steps[k])
    ensures |ys[k + 1].devs| == |ys[k].devs|
    ensures Stuck(ys[k + 1].devs[d], ys[k + 1].shared, e) && ys[k + 1].devs[d].left == ys[k].devs[d].left
  {
    var y, step := ys[k], steps[k];
    assert Enabled(y, step) && ys[k + 1] == Do(y, step) && e.request.PutProgress?;
    hide IsRun, Advances, DevOk, ServerOk, After, Served, Stuck, EnabledOn, Ordinary;
    RunKeeps(ys, steps, k);
    StepKeeps(y, step);
    if step.On? && step.dev == d {
      SameDevice(d, e.request.article, step);
      StuckStep(y.devs[d], y.shared, step.act, e);
      StuckFrame(After(y.devs[d], y.shared, step.act), y.shared, ys[k + 1].shared, e);
    } else {
      StuckFrame(y.devs[d], y.shared, ys[k + 1].shared, e);
    }
  }

  lemma SameDevice(d: nat, a: ArticleId, step: Step)
    requires step.On? && step.dev == d && Ordinary(d, a, step)
    ensures Ordinary(0, a, On(0, step.act))
  {
  }

  /** A queued progress write to an article that another device deleted blocks the queue: the server answers it
      with a 500, so nothing queued behind it is ever sent, however long the run goes on. */
  lemma {:induction false} DeletedElsewhereBlocks(ys: seq<Sys>, steps: seq<Step>, i: nat, j: nat, d: nat,
        e: OutboxEntry)
    requires IsRun(ys, steps) && i <= j < |ys| && d < |ys[i].devs| && Stuck(ys[i].devs[d], ys[i].shared, e)
    requires forall k | i <= k < j :: Ordinary(d, e.request.article, steps[k])
    ensures |ys[j].devs| == |ys[i].devs|
    ensures Stuck(ys[j].devs[d], ys[j].shared, e) && ys[j].devs[d].left == ys[i].devs[d].left
    decreases j
  {
    assert |ys| == |steps| + 1;
    hide IsRun, Stuck;
    if i < j {
      DeletedElsewhereBlocks(ys, steps, i, j - 1, d, e);
      StuckNext(ys, steps, j - 1, d, e);
    }
  }
}
