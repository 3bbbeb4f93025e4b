/** When a device's progress row agrees with the server: what backs a local row, the three steps that break it, and
    why nothing else does. */
module SyncAgreement {
  import opened Model
  import opened VocabRows
  import opened Client
  import opened SyncSystem
  import opened SyncSafety

  predicate ServerHas(s: Shared, a: ArticleId, at: int) {
    a in s.progress && at <= s.progress[a].updatedAt
  }

  predicate Carries(e: OutboxEntry, a: ArticleId, at: int) {
    e.request.PutProgress? && e.request.article == a && at <= e.request.progress.updatedAt
  }

  ghost predicate QueuedAt(outbox: seq<OutboxEntry>, a: ArticleId, at: int) {
    exists e :: e in outbox && Carries(e, a, at)
  }

  /** Another entry than this one carries it. */
  ghost predicate QueuedBeside(outbox: seq<OutboxEntry>, head: OutboxEntry, a: ArticleId, at: int) {
    exists e :: e in outbox && e != head && Carries(e, a, at)
  }

  ghost predicate SavingAt(doing: multiset<Pending>, a: ArticleId, at: int) {
    exists p :: Saving(a, p) in doing && at <= p.updatedAt
  }

  ghost predicate DeleteQueued(outbox: seq<OutboxEntry>, a: ArticleId) {
    exists e :: e in outbox && e.request == DeleteArticle(a)
  }

  predicate OnServer(d: Dev, s: Shared, a: ArticleId)
    requires a in d.tables.progress
  {
    ServerHas(s, a, Truncated(d.tables.progress[a]).updatedAt)
  }

  /** A local row the server does not have yet is queued, or about to be. */
  ghost predicate Backed(d: Dev, s: Shared, a: ArticleId) {
    a in d.tables.progress ==>
      OnServer(d, s, a) || QueuedAt(d.tables.outbox, a, d.tables.progress[a].updatedAt) ||
      SavingAt(d.doing, a, d.tables.progress[a].updatedAt)
  }

  /** The local row is not behind the one pulled. */
  predicate CaughtUp(d: Dev, a: ArticleId) {
    a in d.pulled ==> a in d.tables.progress && d.pulled[a] <= d.tables.progress[a].updatedAt
  }

  /** The row was dropped for a delete that is not dealt with. */
  ghost predicate Leaving(d: Dev, a: ArticleId) {
    Deleting(a, true) in d.doing || DeleteQueued(d.tables.outbox, a)
  }

  /** The device keeps track of the article: its row is not ahead of server and outbox, nor behind the row it pulled,
      unless the article is being deleted. Nothing is asked of an article the server has deleted. */
  ghost predicate Tracks(d: Dev, s: Shared, a: ArticleId) {
    Gone(s, a) || (Backed(d, s, a) && (Leaving(d, a) || CaughtUp(d, a)))
  }

  // ---------------------------------------------------------------- the steps that break it

  /** The entry about to leave the queue was refused for good. */
  predicate GivenUp(d: Dev) {
    d.phase.Sent? && d.phase.lookups == [] && d.phase.queue != [] &&
    d.phase.outcome.Answered? && Permanent(d.phase.outcome.answer)
  }

  /** The row put is not older than the one pulled, or goes with the delete. */
  ghost predicate SafePut(d: Dev, a: ArticleId, p: Progress) {
    (a in d.pulled ==> d.pulled[a] <= p.updatedAt) || Leaving(d, a)
  }

  /** The server has the row or a queued write carries it, and no delete is cut off that has dropped a pulled row. */
  ghost predicate SafeClose(d: Dev, s: Shared, a: ArticleId) {
    (a in d.tables.progress ==> OnServer(d, s, a) || QueuedAt(d.tables.outbox, a, d.tables.progress[a].updatedAt)) &&
    (Deleting(a, true) in d.doing ==> DeleteQueued(d.tables.outbox, a) || CaughtUp(d, a))
  }

  /** The write given up is not all there is behind the row; the delete given up is not the only one, or the row is
      back. */
  ghost predicate SafeGiveUp(d: Dev, s: Shared, a: ArticleId, head: OutboxEntry) {
    match head.request
    case PutProgress(b, _) =>
      a in d.tables.progress && b == a ==>
        OnServer(d, s, a) || SavingAt(d.doing, a, d.tables.progress[a].updatedAt) ||
        QueuedBeside(d.tables.outbox, head, a, d.tables.progress[a].updatedAt)
    case DeleteArticle(b) =>
      b == a ==>
        CaughtUp(d, a) || Deleting(a, true) in d.doing ||
        exists e :: e in d.tables.outbox && e != head && e.request == head.request
    case _ => true
  }

  ghost predicate Safe(d: Dev, s: Shared, act: Act, a: ArticleId) {
    Gone(s, a) ||
    match act
    case PutRow(b, p) => b == a ==> SafePut(d, a, p)
    case Close => SafeClose(d, s, a)
    case Receive => GivenUp(d) ==> SafeGiveUp(d, s, a, d.phase.queue[0])
    case _ => true
  }

  // ---------------------------------------------------------------- what always holds

  /** The head of the queue was skipped: it does not carry the local row, or something else does. */
  ghost predicate SkipIsSafe(d: Dev, a: ArticleId) {
    d.phase.Sent? && d.phase.outcome.Skipped? && d.phase.queue != [] && d.phase.lookups == [] &&
    a in d.tables.progress ==>
      !Carries(d.phase.queue[0], a, d.tables.progress[a].updatedAt) ||
      SavingAt(d.doing, a, d.tables.progress[a].updatedAt) ||
      QueuedBeside(d.tables.outbox, d.phase.queue[0], a, d.tables.progress[a].updatedAt)
  }

  /** Rows pulled, or about to be, are rows the server has or had. */
  ghost predicate PulledFrom(d: Dev, s: Shared, a: ArticleId) {
    Gone(s, a) || (
      (d.phase.Got? && a in d.phase.response.progress ==> ServerHas(s, a, d.phase.response.progress[a].updatedAt)) &&
      (a in d.pulled ==> ServerHas(s, a, d.pulled[a])))
  }

  ghost predicate Keeps(d: Dev, s: Shared, a: ArticleId) {
    SkipIsSafe(d, a) && PulledFrom(d, s, a)
  }

  // ---------------------------------------------------------------- the server moves on

  lemma ServerMovesOn(d: Dev, s: Shared, s': Shared, a: ArticleId)
    requires ServerOk(s) && Advances(s, s')
    ensures Keeps(d, s, a) ==> Keeps(d, s', a)
    ensures Tracks(d, s, a) ==> Tracks(d, s', a)
  {
    hide RowsAreMaxima, LogIsClean, QueuedAt, SavingAt, Leaving, SkipIsSafe, Truncated;
    if !Gone(s', a) {
      assert !Gone(s, a);
      assert a in s.progress ==> a in s'.articles;
    }
  }

  // ---------------------------------------------------------------- a device's own steps

  /** Row and pulled stamp stay; what carries the row is still there, a suspended save perhaps queued by now. */
  predicate Holds(d: Dev, d': Dev, a: ArticleId) {
    SameRow(d, d', a) && (a in d'.pulled <==> a in d.pulled) && (a in d.pulled ==> d'.pulled[a] == d.pulled[a]) &&
    (forall e | e in d.tables.outbox :: e in d'.tables.outbox) &&
    (Deleting(a, true) in d.doing ==> Deleting(a, true) in d'.doing || Queues(d, d', DeleteArticle(a))) &&
    (forall x | x in d.doing && x.Saving? && x.article == a ::
      x in d'.doing || Queues(d, d', PutProgress(a, x.progress)))
  }

  predicate SameRow(d: Dev, d': Dev, a: ArticleId) {
    (a in d'.tables.progress <==> a in d.tables.progress) &&
    (a in d.tables.progress ==> d'.tables.progress[a] == d.tables.progress[a])
  }

  predicate Queues(d: Dev, d': Dev, r: Request) {
    OutboxEntry(d.tables.nextId, r) in d'.tables.outbox
  }

  lemma HoldingTracks(d: Dev, s: Shared, d': Dev, a: ArticleId)
    requires Holds(d, d', a) && Tracks(d, s, a)
    ensures Tracks(d', s, a)
  {
    hide Gone, ServerHas, Truncated;
  }

  lemma HoldingKeeps(d: Dev, s: Shared, d': Dev, a: ArticleId)
    requires Holds(d, d', a) && Keeps(d, s, a) && d'.phase == d.phase && Fifo(d) && InStep(d)
    ensures Keeps(d', s, a)
  {
    BatchFresh(d);
    hide Gone, ServerHas, Fifo, InStep;
  }

  lemma BatchFresh(d: Dev)
    requires Fifo(d) && InStep(d)
    ensures d.phase.Sent? && d.phase.lookups == [] && d.phase.queue != [] ==>
      d.phase.queue[0] in d.tables.outbox && d.phase.queue[0].id < d.tables.nextId
  {
    hide Ledger, Queue, LookupsOf;
    if d.phase.Sent? && d.phase.lookups == [] && d.phase.queue != [] {
      BatchMembers(d);
    }
  }

  /** The steps that touch neither the row nor what carries it. */
  predicate Aside(act: Act, a: ArticleId) {
    !act.Close? && !act.Receive? && !act.Commit? && ((act.PutRow? || act.DropProgress?) ==> act.article != a)
  }

  lemma AsideHolds(d: Dev, s: Shared, act: Act, a: ArticleId)
    requires EnabledOn(d, s, act) && Aside(act, a)
    ensures Holds(d, After(d, s, act), a)
  {
    hide Turn, Ended, KeepsLocal, Superseded, Batch, Queue, LookupsOf, AnswerTo, Offers, Turns, CommitPull, Settle,
      Holds;
    var d' := After(d, s, act);
    match act
    case QueueWrite(b, p) => QueueingHolds(d, PutProgress(b, p), Saving(b, p), a);
    case QueueDelete(b) => QueueingHolds(d, DeleteArticle(b), Deleting(b, true), a);
    case PutRow(b, p) =>
      TurnDoing(d, Putting(b, p), Saving(b, p));
      EditHolds(d, d', a);
    case DropProgress(b) =>
      TurnDoing(d, Deleting(b, false), Deleting(b, true));
      EditHolds(d, d', a);
    case PutMark(b, stamp) =>
      EndedDoing(d, Marking(b, stamp));
      EditHolds(d, d', a);
    case _ => OtherHolds(d, s, act, a);
  }

  lemma OtherHolds(d: Dev, s: Shared, act: Act, a: ArticleId)
    requires EnabledOn(d, s, act) && Aside(act, a)
    requires !act.QueueWrite? && !act.QueueDelete? && !act.PutRow? && !act.DropProgress? && !act.PutMark?
    ensures Holds(d, After(d, s, act), a)
  {
    hide Turn, Ended, KeepsLocal, Superseded, Batch, Queue, LookupsOf, AnswerTo, Offers, Turns, CommitPull, Settle,
      Holds;
    EditHolds(d, After(d, s, act), a);
  }

  /** The queue may grow, suspended actions other than saves and deletes of the article may end. */
  lemma EditHolds(d: Dev, d': Dev, a: ArticleId)
    requires SameRow(d, d', a) && d'.pulled == d.pulled && d.tables.outbox <= d'.tables.outbox
    requires Deleting(a, true) in d.doing ==> Deleting(a, true) in d'.doing
    requires forall x | x in d.doing && x.Saving? :: x in d'.doing
    ensures Holds(d, d', a)
  {
  }

  lemma QueueingHolds(d: Dev, r: Request, was: Pending, a: ArticleId)
    requires r.PutProgress? || r.DeleteArticle?
    requires was == if r.PutProgress? then Saving(r.article, r.progress) else Deleting(r.article, true)
    ensures Holds(d, Ended(Issue(d, Enqueue(d.tables, r)), was), a)
  {
    hide Ended;
    EndedDoing(Issue(d, Enqueue(d.tables, r)), was);
  }

  lemma SendKeepsSkip(d: Dev, s: Shared, delivery: Delivery, a: ArticleId)
    requires EnabledOn(d, s, Send(delivery))
    ensures SkipIsSafe(After(d, s, Send(delivery)), a)
  {
    hide AnswerTo, SavingAt, QueuedBeside, Turns;
  }

  lemma AsideKeeps(d: Dev, s: Shared, act: Act, a: ArticleId)
    requires EnabledOn(d, s, act) && Aside(act, a) && Fifo(d) && InStep(d) && Keeps(d, s, a) && ServerOk(s)
    ensures Keeps(After(d, s, act), s, a)
  {
    hide Fifo, InStep, KeepsLocal, Superseded, Batch, Queue, LookupsOf, AnswerTo, Turns, SkipIsSafe, Holds, ServerOk;
    AsideHolds(d, s, act, a);
    var d' := After(d, s, act);
    if d'.phase == d.phase {
      HoldingKeeps(d, s, d', a);
    } else {
      assert act.Send? || act.Begin? || act.Finish? || act.Fetch? || act.NoFetch?;
      if act.Send? {
        SendKeepsSkip(d, s, act.delivery, a);
      } else {
        NotSent(d', a);
      }
    }
  }

  lemma NotSent(d: Dev, a: ArticleId)
    requires !d.phase.Sent?
    ensures SkipIsSafe(d, a)
  {
  }

  // ---------------------------------------------------------------- the row is put, dropped, or the tab closed

  lemma PutRowTracks(d: Dev, s: Shared, a: ArticleId, p: Progress)
    requires Putting(a, p) in d.doing
    ensures var d' := After(d, s, PutRow(a, p));
      && (Keeps(d, s, a) ==> Keeps(d', s, a))
      && (Tracks(d', s, a) <==> Safe(d, s, PutRow(a, p), a))
  {
    hide Turn, Gone, ServerHas, QueuedAt, QueuedBeside;
    var d' := After(d, s, PutRow(a, p));
    TurnDoing(d, Putting(a, p), Saving(a, p));
    assert SavingAt(d'.doing, a, p.updatedAt);
  }

  lemma DropTracks(d: Dev, s: Shared, a: ArticleId)
    requires Deleting(a, false) in d.doing
    ensures var d' := After(d, s, DropProgress(a)); Tracks(d', s, a) && (Keeps(d, s, a) ==> Keeps(d', s, a))
  {
    hide Turn, Gone, ServerHas, QueuedAt, QueuedBeside;
    TurnDoing(d, Deleting(a, false), Deleting(a, true));
  }

  lemma CloseTracks(d: Dev, s: Shared, a: ArticleId)
    ensures var d' := After(d, s, Close);
      && (Keeps(d, s, a) ==> Keeps(d', s, a))
      && (Tracks(d, s, a) ==> (Tracks(d', s, a) <==> Safe(d, s, Close, a)))
  {
    hide Gone, ServerHas, QueuedAt, DeleteQueued, Truncated;
    assert forall at :: !SavingAt(multiset{}, a, at);
  }

  // ---------------------------------------------------------------- a pull is applied

  lemma CommitTracks(d: Dev, s: Shared, a: ArticleId)
    requires d.phase.Got? && Keeps(d, s, a)
    ensures var d' := After(d, s, Commit); Keeps(d', s, a) && (Tracks(d, s, a) ==> Tracks(d', s, a))
  {
    hide Gone, QueuedAt, SavingAt, DeleteQueued, CommitPull;
    PullTables(d.tables, d.phase.response);
  }

  // ---------------------------------------------------------------- an entry leaves the queue

  /** The entry about to leave the queue, if one is. */
  predicate HeadLeaves(d: Dev) {
    d.phase.Sent? && d.phase.lookups == [] && d.phase.queue != [] && Leaves(d.phase.outcome)
  }

  /** What a settled drain step leaves in the outbox, as far as progress and deletes go. */
  lemma SettledOutbox(d: Dev, e: OutboxEntry)
    requires Fifo(d) && InStep(d) && d.phase.Sent? && !e.request.Lookup?
    ensures e in Settle(d).tables.outbox <==> e in d.tables.outbox && !(HeadLeaves(d) && e == d.phase.queue[0])
    ensures var d' := Settle(d);
      && d'.tables.progress == d.tables.progress && d'.doing == d.doing && d'.pulled == d.pulled
      && !d'.phase.Sent? && !d'.phase.Got?
  {
    BatchMembers(d);
    hide Fifo, InStep, Settle, Leaves;
    Settled(d);
  }

  lemma SettledCarriers(d: Dev, a: ArticleId)
    requires Fifo(d) && InStep(d) && d.phase.Sent?
    ensures var d' := Settle(d); var o, o' := d.tables.outbox, d'.tables.outbox;
      && SameRow(d, d', a) && d'.doing == d.doing && d'.pulled == d.pulled && !d'.phase.Sent? && !d'.phase.Got?
      && (!HeadLeaves(d) ==>
            (forall at :: QueuedAt(o', a, at) <==> QueuedAt(o, a, at)) && (DeleteQueued(o', a) <==> DeleteQueued(o, a)))
      && (HeadLeaves(d) ==>
            var head := d.phase.queue[0];
            && (forall at :: QueuedAt(o', a, at) <==> QueuedBeside(o, head, a, at))
            && (DeleteQueued(o', a) <==> exists e :: e in o && e != head && e.request == DeleteArticle(a)))
  {
    assert Batch(d.phase.lookups, d.phase.queue) != [];
    assert HeadLeaves(d) ==> d.phase.queue != [];
    hide Fifo, InStep, Settle, HeadLeaves, Batch;
    var d' := Settle(d);
    forall e: OutboxEntry | !e.request.Lookup?
      ensures e in d'.tables.outbox <==> e in d.tables.outbox && !(HeadLeaves(d) && e == d.phase.queue[0])
    {
      SettledOutbox(d, e);
    }
    SettledOutbox(d, OutboxEntry(0, Other(0)));
  }

  /** Once the head was accepted, the server has what it carried, or has no such article. */
  lemma AcceptedHead(d: Dev, s: Shared, a: ArticleId)
    requires Acked(d, s) && Buried(d, s) && ServerOk(s) && HeadLeaves(d) && !Gone(s, a) && InStep(d)
    requires !GivenUp(d) && d.phase.outcome.Answered?
    ensures var r := d.phase.queue[0].request;
      && (r.PutProgress? && r.article == a ==> ServerHas(s, a, Truncated(r.progress).updatedAt))
      && r != DeleteArticle(a)
  {
    hide Queue, LookupsOf, Gone, LogIsClean, Truncated;
    var head := d.phase.queue[0];
    assert d.phase.outcome == Answered(Accepted);
    assert Batch([], d.phase.queue) == [head];
    assert head.request in Requests([head]);
    if head.request.PutProgress? && head.request.article == a {
      assert Delivers(s, a, head.request.progress);
      Known(s, a);
    }
  }

  lemma Known(s: Shared, a: ArticleId)
    requires a in s.known && !Gone(s, a)
    ensures a in s.articles
  {
  }

  lemma SettleKeeps(d: Dev, s: Shared, a: ArticleId)
    requires Fifo(d) && InStep(d) && d.phase.Sent? && Keeps(d, s, a)
    ensures Keeps(Settle(d), s, a)
  {
    hide Fifo, Settle, Gone, ServerHas, HeadLeaves;
    SettledCarriers(d, a);
    NotSent(Settle(d), a);
  }

  /** Nothing leaves the queue. */
  lemma StayingTracks(d: Dev, s: Shared, a: ArticleId)
    requires Fifo(d) && InStep(d) && d.phase.Sent? && !HeadLeaves(d) && Tracks(d, s, a)
    ensures Tracks(Settle(d), s, a)
  {
    SettledCarriers(d, a);
    hide Settle, Gone, ServerHas, QueuedAt, SavingAt, HeadLeaves, Fifo, InStep, Truncated, DeleteQueued;
  }

  lemma GivingUpTracks(d: Dev, s: Shared, a: ArticleId)
    requires Fifo(d) && InStep(d) && HeadLeaves(d) && GivenUp(d) && Tracks(d, s, a)
    ensures Tracks(Settle(d), s, a) <==> Safe(d, s, Receive, a)
  {
    SettledCarriers(d, a);
    hide Settle, Gone, ServerHas, SavingAt, HeadLeaves, Fifo, InStep, Truncated, GivenUp;
  }

  lemma CarriedBy(outbox: seq<OutboxEntry>, head: OutboxEntry, a: ArticleId, at: int)
    requires QueuedAt(outbox, a, at)
    ensures QueuedBeside(outbox, head, a, at) || Carries(head, a, at)
  {
  }

  lemma SecondsFollow(p: Progress, q: Progress)
    requires p.updatedAt <= q.updatedAt
    ensures Truncated(p).updatedAt <= Truncated(q).updatedAt
  {
  }

  /** The head was accepted or skipped: the row it carried is on the server, or carried by something else. */
  lemma HeadSpared(d: Dev, s: Shared, a: ArticleId)
    requires DevOk(d, s) && ServerOk(s) && HeadLeaves(d) && !GivenUp(d) && SkipIsSafe(d, a) && !Gone(s, a)
    requires a in d.tables.progress && Carries(d.phase.queue[0], a, d.tables.progress[a].updatedAt)
    ensures var at := d.tables.progress[a].updatedAt;
      || OnServer(d, s, a) || SavingAt(d.doing, a, at)
      || QueuedBeside(d.tables.outbox, d.phase.queue[0], a, at)
  {
    hide Fifo, Owned, Truncated, SavingAt, QueuedBeside, ServerOk, Gone, GivenUp;
    SecondsFollow(d.tables.progress[a], d.phase.queue[0].request.progress);
    if d.phase.outcome.Answered? {
      AcceptedHead(d, s, a);
    }
    hide DevOk;
  }

  lemma StillBacked(d: Dev, s: Shared, a: ArticleId)
    requires DevOk(d, s) && ServerOk(s) && HeadLeaves(d) && !GivenUp(d) && SkipIsSafe(d, a)
    requires Backed(d, s, a) && !Gone(s, a)
    ensures Backed(Settle(d), s, a)
  {
    assert d.phase.Sent?;
    hide Fifo, InStep, Acked, Owned, Buried, ServerOk, Settle, Gone, SavingAt, GivenUp, QueuedAt, QueuedBeside,
      DeleteQueued, HeadLeaves, Carries, Truncated, SkipIsSafe;
    SettledCarriers(d, a);
    if a in d.tables.progress && QueuedAt(d.tables.outbox, a, d.tables.progress[a].updatedAt) {
      var at, head := d.tables.progress[a].updatedAt, d.phase.queue[0];
      CarriedBy(d.tables.outbox, head, a, at);
      if Carries(head, a, at) {
        HeadSpared(d, s, a);
      }
    }
  }

  lemma StillLeaving(d: Dev, s: Shared, a: ArticleId)
    requires DevOk(d, s) && ServerOk(s) && HeadLeaves(d) && !GivenUp(d) && !Gone(s, a)
    ensures Leaving(d, a) ==> Leaving(Settle(d), a)
  {
    SettledCarriers(d, a);
    if d.phase.outcome.Answered? {
      AcceptedHead(d, s, a);
    }
    assert InStep(d) && d.phase.queue[0].request != DeleteArticle(a);
    hide DevOk, ServerOk, Settle, Gone, SavingAt, GivenUp, QueuedAt, QueuedBeside;
  }

  lemma SettlingTracks(d: Dev, s: Shared, a: ArticleId)
    requires DevOk(d, s) && ServerOk(s) && HeadLeaves(d) && !GivenUp(d) && Keeps(d, s, a) && Tracks(d, s, a)
    ensures Tracks(Settle(d), s, a)
  {
    assert d.phase.Sent?;
    hide Backed, Leaving, HeadLeaves, GivenUp, Settle, ServerOk, Gone, SkipIsSafe, PulledFrom;
    if !Gone(s, a) {
      StillBacked(d, s, a);
      StillLeaving(d, s, a);
      SettledCarriers(d, a);
    }
    hide DevOk;
  }

  lemma SettleTracks(d: Dev, s: Shared, a: ArticleId)
    requires DevOk(d, s) && ServerOk(s) && d.phase.Sent? && Keeps(d, s, a) && Tracks(d, s, a)
    ensures Tracks(Settle(d), s, a) <==> Safe(d, s, Receive, a)
  {
    assert Batch(d.phase.lookups, d.phase.queue) != [];
    assert GivenUp(d) ==> HeadLeaves(d);
    hide Tracks, Settle, Keeps, ServerOk, HeadLeaves, Batch, GivenUp, SafeGiveUp;
    if !HeadLeaves(d) {
      StayingTracks(d, s, a);
    } else if GivenUp(d) {
      GivingUpTracks(d, s, a);
    } else {
      SettlingTracks(d, s, a);
    }
  }

  // ---------------------------------------------------------------- one step

  /** What a device's own step does: what always holds still holds, and a device that keeps track goes on keeping track
      exactly when the step is safe. */
  lemma OwnStepTracks(d: Dev, s: Shared, act: Act, a: ArticleId)
    requires DevOk(d, s) && ServerOk(s) && EnabledOn(d, s, act) && Keeps(d, s, a)
    ensures var d' := After(d, s, act);
      Keeps(d', s, a) && (Tracks(d, s, a) ==> (Tracks(d', s, a) <==> Safe(d, s, act, a)))
  {
    assert Fifo(d) && InStep(d);
    if !act.Close? && !act.Receive? && (act.PutRow? ==> act.article != a) {
      EasySafe(d, s, act, a);
    }
    hide Fifo, InStep, DevOk, ServerOk, Keeps, Tracks, Holds, After, Safe;
    if Aside(act, a) {
      AsideHolds(d, s, act, a);
      AsideKeeps(d, s, act, a);
      if Tracks(d, s, a) {
        HoldingTracks(d, s, After(d, s, act), a);
      }
    } else {
      match act
      case PutRow(b, p) => PutRowTracks(d, s, a, p);
      case DropProgress(b) => DropTracks(d, s, a);
      case Close => CloseTracks(d, s, a);
      case Commit => CommitTracks(d, s, a);
      case Receive =>
        SettleKeeps(d, s, a);
        Received(d, s);
        if Tracks(d, s, a) {
          SettleTracks(d, s, a);
        }
      case _ =>
    }
  }

  lemma EasySafe(d: Dev, s: Shared, act: Act, a: ArticleId)
    requires !act.Close? && !act.Receive? && (act.PutRow? ==> act.article != a)
    ensures Safe(d, s, act, a)
  {
    hide Gone;
  }

  lemma Received(d: Dev, s: Shared)
    requires EnabledOn(d, s, Receive)
    ensures After(d, s, Receive) == Settle(d)
  {
    hide Settle, Batch;
  }

  /** The step is another's, or safe for the article on this device. */
  ghost predicate SafeAt(y: Sys, step: Step, d: nat, a: ArticleId)
    requires Enabled(y, step)
  {
    step.On? && step.dev == d ==> Safe(y.devs[d], y.shared, step.act, a)
  }

  ghost predicate TracksAt(y: Sys, d: nat, a: ArticleId) {
    d < |y.devs| ==> Tracks(y.devs[d], y.shared, a)
  }

  ghost predicate KeepsAt(y: Sys, d: nat, a: ArticleId) {
    d < |y.devs| ==> Keeps(y.devs[d], y.shared, a)
  }

  lemma StepTracks(y: Sys, step: Step, d: nat, a: ArticleId)
    requires SysOk(y) && Enabled(y, step) && KeepsAt(y, d, a)
    ensures KeepsAt(Do(y, step), d, a)
    ensures TracksAt(y, d, a) ==> (TracksAt(Do(y, step), d, a) <==> SafeAt(y, step, d, a))
  {
    var s, s' := y.shared, Do(y, step).shared;
    StepKeeps(y, step);
    hide DevOk, ServerOk, Keeps, Tracks, Safe, After, Served, Advances, Handle, EnabledOn;
    if d < |y.devs| {
      var v := y.devs[d];
      if step.On? && step.dev == d {
        OwnStepTracks(v, s, step.act, a);
        ServerMovesOn(After(v, s, step.act), s, s', a);
        ServerStays(v, s, step.act, a);
      } else {
        ServerMovesOn(v, s, s', a);
      }
    }
  }

  /** The steps that may be unsafe leave the server alone. */
  lemma ServerStays(d: Dev, s: Shared, act: Act, a: ArticleId)
    requires EnabledOn(d, s, act)
    ensures Served(d, s, act) == s || Safe(d, s, act, a)
  {
    hide Delivered, Superseded, Batch, Gone;
  }

  lemma {:induction false} RunTracks(ys: seq<Sys>, steps: seq<Step>, k: nat, d: nat, a: ArticleId)
    requires IsRun(ys, steps) && k < |ys|
    ensures KeepsAt(ys[k], d, a)
    ensures (forall i | 0 <= i < k :: SafeAt(ys[i], steps[i], d, a)) ==> TracksAt(ys[k], d, a)
  {
    hide SysOk, Enabled, Do, KeepsAt, TracksAt, SafeAt;
    if k == 0 {
      StartTracks(ys[0], d, a);
    } else {
      RunTracks(ys, steps, k - 1, d, a);
      RunKeeps(ys, steps, k - 1);
      StepTracks(ys[k - 1], steps[k - 1], d, a);
    }
  }

  lemma StartTracks(y: Sys, d: nat, a: ArticleId)
    requires y.shared == NO_DATA && forall j | 0 <= j < |y.devs| :: y.devs[j] == FRESH
    ensures KeepsAt(y, d, a) && TracksAt(y, d, a)
  {
  }

  /** Up to any state of any run, a device keeps track of an article all along exactly when all its steps are safe:
      it puts no row older than the one it pulled, is not closed between a row and its queue entry or between dropping
      a pulled row and queueing the delete, and gives up no write or delete that nothing else stands behind. */
  lemma TracksIff(ys: seq<Sys>, steps: seq<Step>, k: nat, d: nat, a: ArticleId)
    requires IsRun(ys, steps) && k < |ys|
    ensures (forall i | 0 <= i <= k :: TracksAt(ys[i], d, a)) <==>
      (forall i | 0 <= i < k :: SafeAt(ys[i], steps[i], d, a))
  {
    hide SysOk, Do, KeepsAt, TracksAt, SafeAt, Enabled;
    if forall i | 0 <= i < k :: SafeAt(ys[i], steps[i], d, a) {
      forall i | 0 <= i <= k ensures TracksAt(ys[i], d, a) {
        RunTracks(ys, steps, i, d, a);
      }
    }
    if forall i | 0 <= i <= k :: TracksAt(ys[i], d, a) {
      forall i | 0 <= i < k ensures SafeAt(ys[i], steps[i], d, a) {
        RunTracks(ys, steps, i, d, a);
        RunKeeps(ys, steps, i);
        StepTracks(ys[i], steps[i], d, a);
        assert TracksAt(ys[i + 1], d, a) && ys[i + 1] == Do(ys[i], steps[i]);
      }
    }
  }

  // ---------------------------------------------------------------- agreement

  /** Nothing about the article's progress or deletion is queued or suspended. */
  ghost predicate AtRest(d: Dev, a: ArticleId) {
    (forall e | e in d.tables.outbox :: e.request != DeleteArticle(a)) &&
    (forall e | e in d.tables.outbox && e.request.PutProgress? :: e.request.article != a) &&
    Deleting(a, true) !in d.doing && forall p :: Saving(a, p) !in d.doing
  }

  /** The last pull of the article's row brought the row the server has now. */
  predicate UpToDate(d: Dev, s: Shared, a: ArticleId) {
    a in s.progress ==> a in d.pulled && d.pulled[a] == s.progress[a].updatedAt
  }

  /** The device says what the server says of the article, up to the second. */
  predicate Agrees(d: Dev, s: Shared, a: ArticleId) {
    (a in d.tables.progress <==> a in s.progress) &&
    (a in s.progress ==> a in d.tables.progress && Second(d.tables.progress[a]) == Second(s.progress[a]))
  }

  /** No two writes to the article share a second, unless they say the same. */
  ghost predicate OneWritePerSecond(s: Shared, a: ArticleId) {
    forall p, q | (a, p) in s.writes && (a, q) in s.writes && Second(p) == Second(q) :: SameContent(p, q)
  }

  lemma WholeSecond(p: Progress, at: int)
    requires at % 1000 == 0
    ensures Truncated(p).updatedAt <= at && at <= p.updatedAt <==> Second(p) == at / 1000
  {
  }

  lemma RestingAgrees(d: Dev, s: Shared, a: ArticleId)
    requires ServerOk(s) && PulledFrom(d, s, a) && a in s.articles && AtRest(d, a) && UpToDate(d, s, a)
    ensures Agrees(d, s, a) <==> Tracks(d, s, a)
  {
    WholeSeconds(s);
    assert !Leaving(d, a);
    assert forall at :: !QueuedAt(d.tables.outbox, a, at) && !SavingAt(d.doing, a, at);
    if a in s.progress && a in d.tables.progress {
      WholeSecond(d.tables.progress[a], s.progress[a].updatedAt);
    }
    hide ServerOk, AtRest, Truncated, QueuedAt, SavingAt, Leaving, Second;
  }

  /** In every run: on a device at rest that has pulled the current row, keeping track of the article is agreeing with
      the server on it. */
  lemma TracksMeansAgrees(ys: seq<Sys>, steps: seq<Step>, k: nat, d: nat, a: ArticleId)
    requires IsRun(ys, steps) && k < |ys| && d < |ys[k].devs| && a in ys[k].shared.articles
    requires AtRest(ys[k].devs[d], a) && UpToDate(ys[k].devs[d], ys[k].shared, a)
    ensures Agrees(ys[k].devs[d], ys[k].shared, a) <==> TracksAt(ys[k], d, a)
  {
    hide IsRun, DevOk, ServerOk, AtRest, UpToDate, Agrees, Tracks, SkipIsSafe, PulledFrom;
    RunKeeps(ys, steps, k);
    RunTracks(ys, steps, k, d, a);
    RestingAgrees(ys[k].devs[d], ys[k].shared, a);
  }

  lemma SameWrites(d: Dev, s: Shared, a: ArticleId)
    requires ServerOk(s) && DevOk(d, s) && Agrees(d, s, a) && a in s.progress && OneWritePerSecond(s, a)
    ensures SameContent(d.tables.progress[a], s.progress[a])
  {
    hide Fifo, InStep, Acked, Buried, LogIsClean;
    ServerRowOwned(s, a);
    assert FromWrite(s, a, d.tables.progress[a]);
  }

  lemma SafeDeviceAgrees(ys: seq<Sys>, steps: seq<Step>, k: nat, d: nat, a: ArticleId)
    requires IsRun(ys, steps) && k < |ys| && d < |ys[k].devs| && a in ys[k].shared.articles
    requires AtRest(ys[k].devs[d], a) && UpToDate(ys[k].devs[d], ys[k].shared, a)
    requires forall i | 0 <= i < k :: SafeAt(ys[i], steps[i], d, a)
    ensures var v, s := ys[k].devs[d], ys[k].shared;
      Agrees(v, s, a) &&
      (a in s.progress && OneWritePerSecond(s, a) ==> SameContent(v.tables.progress[a], s.progress[a]))
  {
    hide IsRun, AtRest, UpToDate, OneWritePerSecond, DevOk, ServerOk, SameContent, Second, SafeAt, Do, KeepsAt,
      TracksAt, Agrees;
    RunKeeps(ys, steps, k);
    RunTracks(ys, steps, k, d, a);
    TracksMeansAgrees(ys, steps, k, d, a);
    if a in ys[k].shared.progress && OneWritePerSecond(ys[k].shared, a) {
      SameWrites(ys[k].devs[d], ys[k].shared, a);
    }
  }

  /** Devices whose steps have all been safe, at rest and with the current row pulled, agree with the server on the
      second; and on the content too when no two writes to the article share a second. */
  lemma Converged(ys: seq<Sys>, steps: seq<Step>, k: nat, a: ArticleId)
    requires IsRun(ys, steps) && k < |ys| && a in ys[k].shared.articles
    requires forall d | 0 <= d < |ys[k].devs| ::
      AtRest(ys[k].devs[d], a) && UpToDate(ys[k].devs[d], ys[k].shared, a) &&
      forall i | 0 <= i < k :: SafeAt(ys[i], steps[i], d, a)
    ensures forall d | 0 <= d < |ys[k].devs| ::
      var row, s := ys[k].devs[d].tables.progress, ys[k].shared.progress;
      && (a in row <==> a in s)
      && (a in s ==> Second(row[a]) == Second(s[a]))
      && (a in s && OneWritePerSecond(ys[k].shared, a) ==> SameContent(row[a], s[a]))
  {
    hide IsRun, AtRest, UpToDate, OneWritePerSecond, SameContent, Second, SafeAt, Do;
    forall d | 0 <= d < |ys[k].devs|
      ensures Agrees(ys[k].devs[d], ys[k].shared, a)
      ensures a in ys[k].shared.progress && OneWritePerSecond(ys[k].shared, a) ==>
        SameContent(ys[k].devs[d].tables.progress[a], ys[k].shared.progress[a])
    {
      SafeDeviceAgrees(ys, steps, k, d, a);
    }
  }

  /** A pull whose row is still the server's when it is applied leaves the device up to date. */
  lemma PullBringsUpToDate(ys: seq<Sys>, steps: seq<Step>, i: nat, j: nat, d: nat, r: Response, a: ArticleId)
    requires IsRun(ys, steps) && i < j < |steps| && d < |ys[j].devs|
    requires steps[i] == On(d, Fetch(r)) && steps[j] == On(d, Commit) && ys[j].devs[d].phase == Got(r)
    requires a in ys[i].shared.progress ==> r.full || a in r.progress
    requires (a in ys[i].shared.progress <==> a in ys[j].shared.progress) &&
      (a in ys[j].shared.progress ==> ys[i].shared.progress[a] == ys[j].shared.progress[a])
    ensures d < |ys[j + 1].devs| && UpToDate(ys[j + 1].devs[d], ys[j + 1].shared, a)
  {
    hide CommitPull;
    assert Enabled(ys[i], steps[i]) && ys[j + 1] == Do(ys[j], steps[j]);
  }
}
