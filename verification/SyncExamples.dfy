/** Short runs of the sync system that end where its promises do. */
module SyncExamples {
  import opened Model
  import opened VocabRows
  import opened Client
  import opened SyncSystem
  import opened SyncSafety
  import opened SyncResults
  import opened SyncQueue

  lemma Extended(ys: seq<Sys>, steps: seq<Step>, step: Step) returns (ys': seq<Sys>, steps': seq<Step>)
    requires IsRun(ys, steps) && Enabled(ys[|steps|], step)
    ensures IsRun(ys', steps') && |ys'| == |steps'| + 1 && ys'[|steps'|] == Do(ys[|steps|], step)
  {
    hide Do, Enabled;
    ys', steps' := ys + [Do(ys[|steps|], step)], steps + [step];
  }

  /** One more step of a device. */
  lemma ThenOn(ys: seq<Sys>, steps: seq<Step>, d: nat, act: Act) returns (ys': seq<Sys>, steps': seq<Step>)
    requires IsRun(ys, steps)
    requires var y := ys[|steps|]; d < |y.devs| && EnabledOn(y.devs[d], y.shared, act)
    ensures IsRun(ys', steps') && |ys'| == |steps'| + 1
    ensures var y, y' := ys[|steps|], ys'[|steps'|];
      && |y'.devs| == |y.devs| && y'.devs[d] == After(y.devs[d], y.shared, act)
      && y'.shared == Served(y.devs[d], y.shared, act)
      && forall j | 0 <= j < |y.devs| && j != d :: y'.devs[j] == y.devs[j]
  {
    var y := ys[|steps|];
    hide After, Served, EnabledOn, IsRun;
    assert Enabled(y, On(d, act));
    ys', steps' := Extended(ys, steps, On(d, act));
  }

  lemma StartWith(n: nat) returns (ys: seq<Sys>, steps: seq<Step>)
    ensures IsRun(ys, steps) && |ys| == |steps| + 1 && |ys[|steps|].devs| == n
    ensures forall d | 0 <= d < n :: ys[|steps|].devs[d] == FRESH
    ensures ys[|steps|].shared == NO_DATA.(articles := map["a" := 0], known := {"a"})
  {
    ys, steps := [Sys(seq(n, _ => FRESH), NO_DATA)], [];
    ys, steps := Extended(ys, steps, Add("a", 0));
    hide IsRun;
  }

  // ---------------------------------------------------------------- one step each

  lemma DeleteOn(d: Dev, s: Shared)
    requires "a" in s.known
    ensures EnabledOn(d, s, Delete("a")) && Served(d, s, Delete("a")) == s
    ensures var d' := After(d, s, Delete("a"));
      Deleting("a", false) in d'.doing && d'.phase == d.phase && d'.tables == d.tables.(metas := d'.tables.metas)
  {
  }

  lemma DropOn(d: Dev, s: Shared)
    requires Deleting("a", false) in d.doing
    ensures EnabledOn(d, s, DropProgress("a")) && Served(d, s, DropProgress("a")) == s
    ensures var d' := After(d, s, DropProgress("a"));
      Deleting("a", true) in d'.doing && d'.phase == d.phase && d'.tables == d.tables.(progress := d'.tables.progress)
  {
    TurnDoing(d, Deleting("a", false), Deleting("a", true));
  }

  lemma QueueDeleteOn(d: Dev, s: Shared)
    requires Deleting("a", true) in d.doing && d.tables.outbox == [] && d.tables.nextId == 0
    ensures EnabledOn(d, s, QueueDelete("a")) && Served(d, s, QueueDelete("a")) == s
    ensures var d' := After(d, s, QueueDelete("a"));
      d'.phase == d.phase && d'.tables.metas == d.tables.metas &&
      d'.tables.outbox == [OutboxEntry(0, DeleteArticle("a"))]
  {
  }

  lemma BeginOn(d: Dev, s: Shared)
    requires d.phase.Idle?
    ensures EnabledOn(d, s, Begin) && Served(d, s, Begin) == s
    ensures var d' := After(d, s, Begin); d' == d.(phase := d'.phase)
    ensures d.tables.outbox == [] ==> After(d, s, Begin).phase == Draining([], [])
    ensures d.tables.outbox == [OutboxEntry(0, DeleteArticle("a"))] ==>
      After(d, s, Begin).phase == Draining([], d.tables.outbox)
  {
    var e := OutboxEntry(0, DeleteArticle("a"));
    FilterSnoc([], e, {});
    assert [] + [e] == [e];
  }

  lemma SendDelete(d: Dev, s: Shared)
    requires d.phase == Draining([], [OutboxEntry(0, DeleteArticle("a"))]) && "a" in s.articles && "a" in s.known
    ensures EnabledOn(d, s, Send(Handled(true))) && Gone(Served(d, s, Send(Handled(true))), "a")
  {
    var batch := Batch(d.phase.lookups, d.phase.queue);
    assert batch == [OutboxEntry(0, DeleteArticle("a"))];
    HonestOne(s, batch[0]);
    hide Delivered;
  }

  lemma WriteOn(d: Dev, s: Shared, p: Progress)
    requires d == FRESH
    ensures EnabledOn(d, s, Write("a", p))
    ensures Served(d, s, Write("a", p)) == s.(writes := s.writes + {("a", p)})
    ensures After(d, s, Write("a", p)) == d.(doing := multiset{Putting("a", p)})
  {
  }

  lemma PutRowOn(d: Dev, s: Shared, p: Progress)
    requires d == FRESH.(doing := multiset{Putting("a", p)})
    ensures EnabledOn(d, s, PutRow("a", p)) && Served(d, s, PutRow("a", p)) == s
    ensures var d' := After(d, s, PutRow("a", p));
      Saving("a", p) in d'.doing && d'.tables == FRESH.tables.(progress := map["a" := p]) && d'.phase == Idle
  {
    TurnDoing(d, Putting("a", p), Saving("a", p));
  }

  lemma QueueWriteOn(d: Dev, s: Shared, p: Progress)
    requires Saving("a", p) in d.doing && d.tables == FRESH.tables.(progress := map["a" := p]) && d.phase == Idle
    requires Gone(s, "a")
    ensures EnabledOn(d, s, QueueWrite("a", p)) && Served(d, s, QueueWrite("a", p)) == s
    ensures Stuck(After(d, s, QueueWrite("a", p)), s, OutboxEntry(0, PutProgress("a", p)))
  {
    var e := OutboxEntry(0, PutProgress("a", p));
    assert After(d, s, QueueWrite("a", p)).tables.outbox == [e];
    FilterSnoc([], e, {});
    assert [] + [e] == [e];
  }

  lemma FetchOn(d: Dev, s: Shared) returns (r: Response)
    requires d.phase == Draining([], []) && !d.tables.hasCursor && "a" in s.articles
    ensures EnabledOn(d, s, Finish) && Served(d, s, Finish) == s
    ensures var d' := After(d, s, Finish);
      && EnabledOn(d', s, Fetch(r)) && Served(d', s, Fetch(r)) == s
      && After(d', s, Fetch(r)) == d.(phase := Got(r)) && "a" in r.articles && r.progress == s.progress
  {
    r := Response(true, s.articles, s.progress);
  }

  lemma CommitOn(d: Dev, s: Shared)
    requires d.phase.Got? && "a" in d.phase.response.articles && d.tables.outbox == []
    ensures EnabledOn(d, s, Commit) && Served(d, s, Commit) == s
    ensures var d' := After(d, s, Commit);
      "a" in d'.tables.metas && d'.doing == d.doing && d'.tables.outbox == [] && d'.tables.nextId == d.tables.nextId
  {
    hide CommitPull;
    PullLibrary(d.tables, d.phase.response);
    PullTables(d.tables, d.phase.response);
  }

  // ---------------------------------------------------------------- a queue that is blocked

  /** The first device deletes an article; the second has done nothing. */
  lemma OneDeletes() returns (ys: seq<Sys>, steps: seq<Step>)
    ensures IsRun(ys, steps) && |ys| == |steps| + 1
    ensures |ys[|steps|].devs| == 2 && ys[|steps|].devs[1] == FRESH && Gone(ys[|steps|].shared, "a")
  {
    hide IsRun, After, Served, EnabledOn;
    ys, steps := StartWith(2);
    var s := ys[|steps|].shared;
    DeleteOn(FRESH, s);
    ys, steps := ThenOn(ys, steps, 0, Delete("a"));
    DropOn(ys[|steps|].devs[0], s);
    ys, steps := ThenOn(ys, steps, 0, DropProgress("a"));
    QueueDeleteOn(ys[|steps|].devs[0], s);
    ys, steps := ThenOn(ys, steps, 0, QueueDelete("a"));
    BeginOn(ys[|steps|].devs[0], s);
    ys, steps := ThenOn(ys, steps, 0, Begin);
    SendDelete(ys[|steps|].devs[0], s);
    ys, steps := ThenOn(ys, steps, 0, Send(Handled(true)));
  }

  /** A blocked queue: one device deletes an article that another is still reading. */
  lemma BlockingIsReachable(p: Progress) returns (ys: seq<Sys>, steps: seq<Step>, e: OutboxEntry)
    ensures IsRun(ys, steps) && |ys[|steps|].devs| == 2
    ensures Stuck(ys[|steps|].devs[1], ys[|steps|].shared, e)
  {
    hide IsRun, After, Served, EnabledOn, Stuck;
    e := OutboxEntry(0, PutProgress("a", p));
    ys, steps := OneDeletes();
    WriteOn(FRESH, ys[|steps|].shared, p);
    ys, steps := ThenOn(ys, steps, 1, Write("a", p));
    PutRowOn(ys[|steps|].devs[1], ys[|steps|].shared, p);
    ys, steps := ThenOn(ys, steps, 1, PutRow("a", p));
    QueueWriteOn(ys[|steps|].devs[1], ys[|steps|].shared, p);
    ys, steps := ThenOn(ys, steps, 1, QueueWrite("a", p));
  }

  // ---------------------------------------------------------------- a delete that a pull undoes

  /** A run after which an article is back in the library while its delete is pending: a pull has fetched the article
      when the user deletes it, and is applied before the delete is queued. */
  lemma ResurrectionIsReachable() returns (ys: seq<Sys>, steps: seq<Step>)
    ensures IsRun(ys, steps) && |ys[|steps|].devs| == 1
    ensures var t := ys[|steps|].devs[0].tables; "a" in t.metas && "a" in PendingDeletes(t.outbox)
    ensures !AlwaysAbsent(ys)
  {
    hide IsRun, After, Served, EnabledOn, Absent;
    ys, steps := StartWith(1);
    var s := ys[|steps|].shared;
    BeginOn(FRESH, s);
    ys, steps := ThenOn(ys, steps, 0, Begin);
    var r := FetchOn(ys[|steps|].devs[0], s);
    ys, steps := ThenOn(ys, steps, 0, Finish);
    ys, steps := ThenOn(ys, steps, 0, Fetch(r));
    DeleteOn(ys[|steps|].devs[0], s);
    ys, steps := ThenOn(ys, steps, 0, Delete("a"));
    DropOn(ys[|steps|].devs[0], s);
    ys, steps := ThenOn(ys, steps, 0, DropProgress("a"));
    CommitOn(ys[|steps|].devs[0], s);
    ys, steps := ThenOn(ys, steps, 0, Commit);
    QueueDeleteOn(ys[|steps|].devs[0], s);
    ys, steps := ThenOn(ys, steps, 0, QueueDelete("a"));
    PendingInLibrary(ys[|steps|].devs[0]);
    assert !AllAbsent(ys[|steps|]);
  }

  lemma PendingInLibrary(d: Dev)
    requires "a" in d.tables.metas && d.tables.outbox == [OutboxEntry(0, DeleteArticle("a"))]
    ensures "a" in PendingDeletes(d.tables.outbox) && !Absent(d)
  {
    assert OutboxEntry(0, DeleteArticle("a")) in d.tables.outbox;
  }

  /** No delta takes such an article out again, whether its delete is pending or done. */
  lemma DeltasKeepIt(d: Dev, s: Shared, a: ArticleId)
    requires a in d.tables.metas && d.phase.Got? && !d.phase.response.full
    ensures EnabledOn(d, s, Commit) && a in After(d, s, Commit).tables.metas
  {
    PullLibrary(d.tables, d.phase.response);
  }
}
