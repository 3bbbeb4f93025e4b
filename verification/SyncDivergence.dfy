/** One run for each way in which a device stops agreeing with the server: in the end nothing is queued or suspended,
    the current row is pulled, and the two disagree. */
module SyncDivergence {
  import opened Model
  import opened Client
  import opened SyncSystem
  import opened SyncSafety
  import opened SyncAgreement
  import opened SyncExamples

  /** The device knows no better: it is at rest, it has the row the server has now, and it disagrees. */
  ghost predicate Diverged(y: Sys) {
    |y.devs| == 1 &&
    var d, s := y.devs[0], y.shared;
    d.phase.Idle? && d.doing == multiset{} && d.tables.outbox == [] && AtRest(d, "a") && UpToDate(d, s, "a") &&
    "a" in s.articles && !Agrees(d, s, "a")
  }

  // ---------------------------------------------------------------- pieces of runs, on one device

  ghost predicate Ends(ys: seq<Sys>, steps: seq<Step>, d: Dev, s: Shared) {
    IsRun(ys, steps) && |ys| == |steps| + 1 && |ys[|steps|].devs| == 1 &&
    ys[|steps|].devs[0] == d && ys[|steps|].shared == s
  }

  lemma Then(ys: seq<Sys>, steps: seq<Step>, d: Dev, s: Shared, act: Act) returns (ys': seq<Sys>, steps': seq<Step>)
    requires Ends(ys, steps, d, s) && EnabledOn(d, s, act)
    ensures Ends(ys', steps', After(d, s, act), Served(d, s, act))
  {
    hide EnabledOn, After, Served, IsRun;
    ys', steps' := ThenOn(ys, steps, 0, act);
  }

  lemma Begins() returns (ys: seq<Sys>, steps: seq<Step>, s: Shared)
    ensures Ends(ys, steps, FRESH, s) && s == NO_DATA.(articles := map["a" := 0], known := {"a"})
  {
    hide IsRun;
    ys, steps := StartWith(1);
    s := ys[|steps|].shared;
  }

  /** A save begins where there is no row yet. */
  lemma Writes(ys: seq<Sys>, steps: seq<Step>, d: Dev, s: Shared, p: Progress)
      returns (ys': seq<Sys>, steps': seq<Step>, d': Dev, s': Shared)
    requires Ends(ys, steps, d, s) && "a" !in d.tables.progress
    ensures Ends(ys', steps', d', s')
    ensures d' == d.(doing := d.doing + multiset{Putting("a", p)}) && s' == s.(writes := s'.writes)
  {
    hide Ends;
    ys', steps' := Then(ys, steps, d, s, Write("a", p));
    d', s' := After(d, s, Write("a", p)), Served(d, s, Write("a", p));
  }

  lemma Puts(ys: seq<Sys>, steps: seq<Step>, d: Dev, s: Shared, p: Progress)
      returns (ys': seq<Sys>, steps': seq<Step>, d': Dev)
    requires Ends(ys, steps, d, s) && Putting("a", p) in d.doing
    ensures Ends(ys', steps', d', s)
    ensures d' == d.(tables := d.tables.(progress := d.tables.progress["a" := p]),
                     doing := d.doing - multiset{Putting("a", p)} + multiset{Saving("a", p)})
  {
    hide Ends;
    ys', steps' := Then(ys, steps, d, s, PutRow("a", p));
    d' := After(d, s, PutRow("a", p));
  }

  lemma Queues(ys: seq<Sys>, steps: seq<Step>, d: Dev, s: Shared, p: Progress)
      returns (ys': seq<Sys>, steps': seq<Step>, d': Dev)
    requires Ends(ys, steps, d, s) && Saving("a", p) in d.doing
    ensures Ends(ys', steps', d', s)
    ensures d' == d.(tables := Enqueue(d.tables, PutProgress("a", p)), issued := d'.issued,
                     doing := d.doing - multiset{Saving("a", p)})
  {
    hide Ends;
    ys', steps' := Then(ys, steps, d, s, QueueWrite("a", p));
    d' := After(d, s, QueueWrite("a", p));
  }

  /** A save from its beginning to its queue entry. */
  lemma Saves(ys: seq<Sys>, steps: seq<Step>, d: Dev, s: Shared, p: Progress)
      returns (ys': seq<Sys>, steps': seq<Step>, d': Dev, s': Shared)
    requires Ends(ys, steps, d, s) && "a" !in d.tables.progress && d.tables.outbox == []
    ensures Ends(ys', steps', d', s') && s' == s.(writes := s'.writes)
    ensures d' == d.(tables := d'.tables, issued := d'.issued) && d'.tables.hasCursor == d.tables.hasCursor
    ensures d'.tables.progress == d.tables.progress["a" := p] && |d'.tables.outbox| == 1
    ensures d'.tables.outbox[0].request == PutProgress("a", p)
  {
    hide Ends;
    var d1;
    ys', steps', d1, s' := Writes(ys, steps, d, s, p);
    var d2;
    ys', steps', d2 := Puts(ys', steps', d1, s', p);
    ys', steps', d' := Queues(ys', steps', d2, s', p);
    assert d'.doing == d.doing;
  }

  lemma Closes(ys: seq<Sys>, steps: seq<Step>, d: Dev, s: Shared) returns (ys': seq<Sys>, steps': seq<Step>, d': Dev)
    requires Ends(ys, steps, d, s)
    ensures Ends(ys', steps', d', s) && d' == d.(phase := Idle, doing := multiset{})
  {
    hide Ends;
    ys', steps' := Then(ys, steps, d, s, Close);
    d' := After(d, s, Close);
  }

  /** The drain of an empty outbox. */
  lemma DrainsNothing(ys: seq<Sys>, steps: seq<Step>, d: Dev, s: Shared)
      returns (ys': seq<Sys>, steps': seq<Step>, d': Dev)
    requires Ends(ys, steps, d, s) && d.phase.Idle? && d.tables.outbox == []
    ensures Ends(ys', steps', d', s) && d' == d.(phase := Pulling)
  {
    hide Ends;
    ys', steps' := Then(ys, steps, d, s, Begin);
    var d1 := After(d, s, Begin);
    assert d1.phase == Draining([], []);
    ys', steps' := Then(ys', steps', d1, s, Finish);
    d' := After(d1, s, Finish);
  }

  /** The drain of one write: the server has the article and handles it, or turns it away for good. */
  lemma DrainsOne(ys: seq<Sys>, steps: seq<Step>, d: Dev, s: Shared, p: Progress, delivery: Delivery)
      returns (ys': seq<Sys>, steps': seq<Step>, d': Dev, s': Shared)
    requires Ends(ys, steps, d, s) && d.phase.Idle? && |d.tables.outbox| == 1 && "a" in s.articles
    requires d.tables.outbox[0].request == PutProgress("a", p)
    requires "a" in d.tables.progress && d.tables.progress["a"] == p
    requires delivery == Handled(true) || delivery == Turned(400)
    ensures Ends(ys', steps', d', s')
    ensures d' == d.(tables := d.tables.(outbox := []), phase := Pulling, left := d'.left, why := d'.why)
    ensures s' == s.(progress := if delivery.Turned? then s.progress else UpsertProgress(s.progress, "a", p),
                     wire := s'.wire, handled := s'.handled)
  {
    hide Ends, UpsertProgress, After, Served, EnabledOn;
    var e := d.tables.outbox[0];
    BeginsOne(d, s);
    ys', steps' := Then(ys, steps, d, s, Begin);
    var d1 := After(d, s, Begin);
    SendsOne(d1, s, e, p, delivery);
    ys', steps' := Then(ys', steps', d1, s, Send(delivery));
    var d2 := After(d1, s, Send(delivery));
    s' := Served(d1, s, Send(delivery));
    ReceivesOne(d2, s', e);
    ys', steps' := Then(ys', steps', d2, s', Receive);
    var d3 := After(d2, s', Receive);
    Finishes(d3, s');
    ys', steps' := Then(ys', steps', d3, s', Finish);
    d' := After(d3, s', Finish);
  }

  lemma BeginsOne(d: Dev, s: Shared)
    requires d.phase.Idle? && |d.tables.outbox| == 1 && d.tables.outbox[0].request.PutProgress?
    ensures EnabledOn(d, s, Begin) && Served(d, s, Begin) == s
    ensures After(d, s, Begin) == d.(phase := Draining([], [d.tables.outbox[0]]))
  {
    OneQueued(d.tables.outbox);
    hide Queue, LookupsOf;
  }

  lemma SendsOne(d: Dev, s: Shared, e: OutboxEntry, p: Progress, delivery: Delivery)
    requires d.phase == Draining([], [e]) && e.request == PutProgress("a", p) && "a" in s.articles
    requires "a" in d.tables.progress && d.tables.progress["a"] == p
    requires delivery == Handled(true) || delivery == Turned(400)
    ensures EnabledOn(d, s, Send(delivery))
    ensures var o := Answered(if delivery.Turned? then Refused(400) else Accepted);
      After(d, s, Send(delivery)) == d.(phase := Sent([], [e], o))
    ensures Served(d, s, Send(delivery)) == Delivered(s, [e], delivery)
    ensures var s' := Delivered(s, [e], delivery);
      s' == s.(progress := if delivery.Turned? then s.progress else UpsertProgress(s.progress, "a", p),
               wire := s'.wire, handled := s'.handled)
  {
    hide Delivered, UpsertProgress;
    OneDelivered(s, e, p, delivery);
    assert Batch([], [e]) == [e];
  }

  lemma ReceivesOne(d: Dev, s: Shared, e: OutboxEntry)
    requires d.phase.Sent? && d.phase.lookups == [] && d.phase.queue == [e] && d.tables.outbox == [e]
    requires d.phase.outcome == Answered(Accepted) || d.phase.outcome == Answered(Refused(400))
    ensures EnabledOn(d, s, Receive) && Served(d, s, Receive) == s
    ensures var d' := After(d, s, Receive);
      d' == d.(tables := d.tables.(outbox := []), phase := Draining([], []), left := d'.left, why := d'.why)
  {
    assert Batch([], [e]) == [e];
    assert [e][1..] == [];
    OneId(e);
    RemovedOne(e);
    hide RemoveIds, IdsOf;
  }

  lemma Finishes(d: Dev, s: Shared)
    requires d.phase == Draining([], [])
    ensures EnabledOn(d, s, Finish) && Served(d, s, Finish) == s && After(d, s, Finish) == d.(phase := Pulling)
  {
  }

  lemma OneQueued(outbox: seq<OutboxEntry>)
    requires |outbox| == 1 && outbox[0].request.PutProgress?
    ensures Queue(outbox) == outbox && LookupsOf(outbox) == []
  {
    FilterSnoc([], outbox[0], {});
    assert [] + [outbox[0]] == outbox;
  }

  lemma RemovedOne(e: OutboxEntry)
    ensures RemoveIds([e], {e.id}) == []
  {
  }

  lemma OneDelivered(s: Shared, e: OutboxEntry, p: Progress, delivery: Delivery)
    requires e.request == PutProgress("a", p) && "a" in s.articles
    requires delivery == Handled(true) || delivery == Turned(400)
    ensures var s' := Delivered(s, [e], delivery);
      s' == s.(progress := if delivery.Turned? then s.progress else UpsertProgress(s.progress, "a", p),
               wire := s'.wire, handled := s'.handled)
  {
    hide UpsertProgress;
    var t := s.(wire := s.wire + Requests([e]));
    assert [e][..0] == [];
    assert HandleAll(t, [e]) == Handle(HandleAll(t, []), e.request);
  }

  lemma Pulls(ys: seq<Sys>, steps: seq<Step>, d: Dev, s: Shared, r: Response)
      returns (ys': seq<Sys>, steps': seq<Step>, d': Dev)
    requires Ends(ys, steps, d, s) && d.phase.Pulling? && Offers(s, d.tables.hasCursor, r)
    ensures Ends(ys', steps', d', s)
    ensures d' == d.(tables := CommitPull(d.tables, r), phase := Idle, pulled := d'.pulled)
    ensures d'.pulled == d.pulled + map a | a in r.progress :: r.progress[a].updatedAt
  {
    hide Ends, CommitPull;
    ys', steps' := Then(ys, steps, d, s, Fetch(r));
    var d1 := After(d, s, Fetch(r));
    ys', steps' := Then(ys', steps', d1, s, Commit);
    d' := After(d1, s, Commit);
  }

  /** A pull of everything there is. */
  lemma PullsAll(ys: seq<Sys>, steps: seq<Step>, d: Dev, s: Shared)
      returns (ys': seq<Sys>, steps': seq<Step>, d': Dev)
    requires Ends(ys, steps, d, s) && d.phase.Pulling? && !d.tables.hasCursor
    ensures Ends(ys', steps', d', s)
    ensures d' == d.(tables := CommitPull(d.tables, Response(true, s.articles, s.progress)), phase := Idle,
                     pulled := d'.pulled)
    ensures d'.pulled == d.pulled + map a | a in s.progress :: s.progress[a].updatedAt
    ensures d'.tables.outbox == d.tables.outbox && d'.tables.hasCursor
  {
    hide Ends;
    ys', steps', d' := Pulls(ys, steps, d, s, Response(true, s.articles, s.progress));
  }

  lemma EndsIn(ys: seq<Sys>, steps: seq<Step>, d: Dev, s: Shared)
    requires Ends(ys, steps, d, s)
    ensures IsRun(ys, steps) && |ys| == |steps| + 1
    ensures |ys[|steps|].devs| == 1 && ys[|steps|].devs[0] == d && ys[|steps|].shared == s
  {
  }

  // ---------------------------------------------------------------- the four runs

  /** The tab is closed between the local row and its queue entry: the server never gets the row. */
  lemma CutOffSave(p: Progress) returns (ys: seq<Sys>, steps: seq<Step>)
    ensures IsRun(ys, steps) && Diverged(ys[|steps|]) && "a" !in ys[|steps|].shared.progress
  {
    hide Ends, CommitPull, IsRun;
    var s, d;
    ys, steps, s := Begins();
    ys, steps, d, s := Writes(ys, steps, FRESH, s, p);
    ys, steps, d := Puts(ys, steps, d, s, p);
    ys, steps, d := Closes(ys, steps, d, s);
    ys, steps, d := DrainsNothing(ys, steps, d, s);
    PullTables(d.tables, Response(true, s.articles, s.progress));
    ys, steps, d := PullsAll(ys, steps, d, s);
    EndsIn(ys, steps, d, s);
  }

  /** The server turns the write away for good: the row stays where it is. */
  lemma RefusedSave(p: Progress) returns (ys: seq<Sys>, steps: seq<Step>)
    ensures IsRun(ys, steps) && Diverged(ys[|steps|]) && "a" !in ys[|steps|].shared.progress
  {
    hide Ends, CommitPull, IsRun;
    var s, d;
    ys, steps, s := Begins();
    ys, steps, d, s := Saves(ys, steps, FRESH, s, p);
    ys, steps, d, s := DrainsOne(ys, steps, d, s, p, Turned(400));
    PullTables(d.tables, Response(true, s.articles, s.progress));
    ys, steps, d := PullsAll(ys, steps, d, s);
    EndsIn(ys, steps, d, s);
  }

  /** A save that reached the server, and the row pulled back. */
  lemma SavedAndPulled(ys: seq<Sys>, steps: seq<Step>, d: Dev, s: Shared, p: Progress)
      returns (ys': seq<Sys>, steps': seq<Step>, d': Dev, s': Shared)
    requires Ends(ys, steps, d, s) && d.phase.Idle? && d.tables == FRESH.tables && d.pulled == map[]
    requires s.progress == map[] && s.articles == map["a" := 0] && s.known == {"a"}
    ensures Ends(ys', steps', d', s') && d'.phase.Idle? && d'.doing == d.doing && d'.tables.outbox == []
    ensures d'.tables.progress == map["a" := p] && d'.pulled == map["a" := Truncated(p).updatedAt]
    ensures d'.tables.hasCursor && "a" in d'.tables.metas
    ensures s'.progress == map["a" := Truncated(p)] && s'.articles == s.articles && s'.known == s.known
  {
    hide Ends, CommitPull, IsRun;
    ys', steps', d', s' := Saves(ys, steps, d, s, p);
    ys', steps', d', s' := DrainsOne(ys', steps', d', s', p, Handled(true));
    assert s'.progress == map["a" := Truncated(p)];
    var r := Response(true, s'.articles, s'.progress);
    PullTables(d'.tables, r);
    PullLibrary(d'.tables, r);
    ys', steps', d' := PullsAll(ys', steps', d', s');
    assert d'.tables.progress == map["a" := p];
  }

  /** The tab is closed after a delete has dropped the rows and before it is queued: the server keeps article and
      progress, the device has neither, and nothing is left to tell it so. */
  lemma CutOffDelete(p: Progress) returns (ys: seq<Sys>, steps: seq<Step>)
    ensures IsRun(ys, steps) && Diverged(ys[|steps|]) && "a" in ys[|steps|].shared.progress
    ensures "a" !in ys[|steps|].devs[0].tables.metas && ys[|steps|].devs[0].tables.hasCursor
  {
    hide Ends, CommitPull, IsRun;
    var s, d;
    ys, steps, s := Begins();
    ys, steps, d, s := SavedAndPulled(ys, steps, FRESH, s, p);
    ys, steps := Then(ys, steps, d, s, Delete("a"));
    d := After(d, s, Delete("a"));
    ys, steps := Then(ys, steps, d, s, DropProgress("a"));
    d := After(d, s, DropProgress("a"));
    ys, steps, d := Closes(ys, steps, d, s);
    EndsIn(ys, steps, d, s);
  }

  /** A save that found no row is overtaken by a later one, which is even pulled back before the first puts its row:
      the older row stays. */
  lemma OlderRow(p: Progress, q: Progress) returns (ys: seq<Sys>, steps: seq<Step>)
    requires Second(p) < Second(q)
    ensures IsRun(ys, steps) && Diverged(ys[|steps|]) && ys[|steps|].shared.progress == map["a" := Truncated(q)]
  {
    hide Ends, CommitPull, IsRun;
    var s, d;
    ys, steps, s := Begins();
    ys, steps, d, s := Writes(ys, steps, FRESH, s, p);
    ys, steps, d, s := SavedAndPulled(ys, steps, d, s, q);
    ys, steps, d := Puts(ys, steps, d, s, p);
    ys, steps, d := Queues(ys, steps, d, s, p);
    ys, steps, d, s := DrainsOne(ys, steps, d, s, p, Handled(true));
    var r := Response(false, map[], map[]);
    PullTables(d.tables, r);
    ys, steps, d := Pulls(ys, steps, d, s, r);
    EndsIn(ys, steps, d, s);
  }
}
