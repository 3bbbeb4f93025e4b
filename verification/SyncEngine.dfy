/** frontend/src/lib/sync/engine.ts: the engine over one device's tables, requests answered by the caller. */
module SyncEngine {
  import opened Model
  import opened VocabRows
  import opened Client

  class Engine {
    var metas: map<ArticleId, int>
    var progress: map<ArticleId, Progress>
    var outbox: seq<OutboxEntry>
    var nextId: nat
    var hasCursor: bool

    function Value(): Tables
      reads this
    {
      Tables(metas, progress, outbox, nextId, hasCursor)
    }

    constructor ()
      ensures Value() == Tables(map[], map[], [], 0, false)
    {
      metas, progress, outbox, nextId, hasCursor := map[], map[], [], 0, false;
    }

    method EnqueueOutbox(r: Request)
      modifies this
      ensures Value() == Enqueue(old(Value()), r)
    {
      outbox := outbox + [OutboxEntry(nextId, r)];
      nextId := nextId + 1;
    }

    method EnqueueProgress(a: ArticleId, p: Progress)
      modifies this
      ensures Value() == Client.EnqueueProgress(old(Value()), a, p)
    {
      if a !in progress || !IsNewer(progress[a], p) {
        progress := progress[a := p];
      }
      EnqueueOutbox(PutProgress(a, p));
    }

    method EnqueueDelete(a: ArticleId)
      modifies this
      ensures Value() == Client.EnqueueDelete(old(Value()), a)
    {
      metas := metas - {a};
      progress := progress - {a};
      EnqueueOutbox(DeleteArticle(a));
    }

    /** The transaction of pull(), table by table. */
    method ApplyPull(r: Response)
      modifies this
      ensures Value() == CommitPull(old(Value()), r)
    {
      var pendingDeleteIds := PendingDeletes(outbox);
      metas := metas + (r.articles - pendingDeleteIds);
      if r.full {
        var toDelete := set a | a in metas && a !in r.articles && a !in pendingDeleteIds;
        metas := metas - toDelete;
      }
      ApplyProgress(r.progress);
      hasCursor := true;
    }

    method ApplyProgress(rows: map<ArticleId, Progress>)
      modifies this`progress
      ensures progress == MergeProgress(old(progress), rows)
    {
      hide IsNewer, MergeProgress;
      var todo := rows;
      while todo != map[]
        invariant MergeProgress(progress, todo) == MergeProgress(old(progress), rows)
        decreases |todo|
      {
        var a :| a in todo;
        MergeStep(progress, todo, a);
        if a !in progress || IsNewer(todo[a], progress[a]) {
          progress := progress[a := todo[a]];
        }
        Fewer(todo, a);
        todo := todo - {a};
      }
      MergeNone(progress);
    }

    /** flushOutbox: lookups first, in batches, then the queue in order, nothing else happening meanwhile.
        `answers` are the outcomes of the requests it sends, in order. */
    method FlushOutbox(answers: seq<Answer>) returns (batches: nat, outcomes: seq<Outcome>)
      requires Increasing(outbox)
      modifies this`outbox
      ensures Increasing(outbox)
      // the lookups lose whole batches of 200, each dismissed by its answer; the drain stops at the first that is not
      ensures LookupsOf(outbox) == LookupsOf(old(outbox))[Min(batches * 200, |LookupsOf(old(outbox))|)..]
      ensures batches <= |answers| && forall k | 0 <= k < batches :: DismissesEntry(answers[k])
      ensures LookupsOf(outbox) != [] ==> batches == |answers| || KeepsEntry(answers[batches])
      // then the queue loses exactly the drained prefix
      ensures outcomes ==
        if LookupsOf(outbox) != [] then [] else Drain(progress, Queue(old(outbox)), answers[batches..])
      ensures |outcomes| <= |Queue(old(outbox))| && Queue(outbox) == Queue(old(outbox))[|outcomes|..]
      // each entry of it is outdated or dismissed by its answer, and the first one left is neither
      ensures forall k | 0 <= k < |outcomes| :: Drained(progress, Queue(old(outbox))[k], outcomes[k])
      ensures LookupsOf(outbox) == [] && Queue(outbox) != [] ==>
        !Outdated(progress, Queue(outbox)[0]) &&
        (batches + Used(outcomes) >= |answers| || KeepsEntry(answers[batches + Used(outcomes)]))
    {
      hide Queue, LookupsOf, RemoveIds, Superseded, Settles, Drain, Increasing, IdsOf, Min, Drained, Outdated, Used,
        KeepsEntry, DismissesEntry;
      var allEntries := outbox;
      outcomes := [];
      var lookupEntries := LookupsOf(allEntries);
      var more;
      batches, more := FlushLookups(lookupEntries, answers);
      if !more {
        return;
      }
      var entries := Queue(allEntries);
      var i, a := 0, batches;
      ghost var all := Drain(progress, entries, answers[batches..]);
      DrainedSound(progress, entries, answers, batches);
      assert entries[0..] == entries;
      while i < |entries|
        invariant 0 <= i <= |entries| && batches <= a <= |answers|
        invariant Increasing(outbox) && Queue(outbox) == entries[i..] && LookupsOf(outbox) == []
        invariant |outcomes| == i && all == outcomes + Drain(progress, entries[i..], answers[a..])
      {
        var entry := entries[i];
        SettleHead(outbox);
        DrainStep(progress, entries, i, answers, a);
        Shift(outcomes, Drain(progress, entries[i + 1..], answers[a..]), Skipped);
        if Superseded(progress, entry) {
          outbox := RemoveIds(outbox, {entry.id});
          outcomes := outcomes + [Skipped];
        } else if a < |answers| && Settles(answers[a]) {
          Shift(outcomes, Drain(progress, entries[i + 1..], answers[a + 1..]), Answered(answers[a]));
          outbox := RemoveIds(outbox, {entry.id});
          outcomes := outcomes + [Answered(answers[a])];
          a := a + 1;
        } else {
          return;
        }
        i := i + 1;
      }
      assert entries[i..] == [];
      DrainNothing(progress, answers[a..]);
    }

    /** Why an entry was drained. */
    predicate Drained(local: map<ArticleId, Progress>, e: OutboxEntry, o: Outcome) {
      match o
      case Skipped => Outdated(local, e)
      case Answered(a) => !Outdated(local, e) && DismissesEntry(a)
    }

    lemma DrainedSound(local: map<ArticleId, Progress>, entries: seq<OutboxEntry>, answers: seq<Answer>, used: nat)
      requires used <= |answers|
      ensures var o := Drain(local, entries, answers[used..]);
        && |o| <= |entries| && (forall k | 0 <= k < |o| :: Drained(local, entries[k], o[k]))
        && (|o| < |entries| ==>
              !Outdated(local, entries[|o|]) && (used + Used(o) >= |answers| || KeepsEntry(answers[used + Used(o)])))
    {
      hide Drain, Outdated, DismissesEntry, KeepsEntry, Used;
      DrainSound(local, entries, answers[used..]);
    }

    lemma Shift(front: seq<Outcome>, rest: seq<Outcome>, o: Outcome)
      ensures front + ([o] + rest) == (front + [o]) + rest
    {
    }

    lemma DrainNothing(local: map<ArticleId, Progress>, answers: seq<Answer>)
      ensures Drain(local, [], answers) == []
    {
    }

    lemma DrainStep(local: map<ArticleId, Progress>, entries: seq<OutboxEntry>, i: nat, answers: seq<Answer>, a: nat)
      requires i < |entries| && a <= |answers|
      ensures entries[i..][0] == entries[i] && entries[i..][1..] == entries[i + 1..]
      ensures Drain(local, entries[i..], answers[a..]) ==
        if Superseded(local, entries[i]) then [Skipped] + Drain(local, entries[i + 1..], answers[a..])
        else if a < |answers| && Settles(answers[a]) then
          [Answered(answers[a])] + Drain(local, entries[i + 1..], answers[a + 1..])
        else []
    {
      hide Superseded, Settles;
      if a < |answers| {
        assert answers[a..][1..] == answers[a + 1..];
      }
    }

    /** flushLookups: false when the drain should stop. */
    method FlushLookups(entries: seq<OutboxEntry>, answers: seq<Answer>) returns (used: nat, more: bool)
      requires Increasing(outbox) && entries == LookupsOf(outbox)
      modifies this`outbox
      ensures Increasing(outbox) && Queue(outbox) == Queue(old(outbox))
      ensures LookupsOf(outbox) == entries[Min(used * 200, |entries|)..]
      ensures used <= |answers| && forall k | 0 <= k < used :: DismissesEntry(answers[k])
      ensures more <==> LookupsOf(outbox) == []
      ensures !more ==> used == |answers| || KeepsEntry(answers[used])
    {
      hide Queue, LookupsOf, RemoveIds;
      used := 0;
      var i := 0;
      while i < |entries|
        invariant i == used * LOOKUP_BATCH_SIZE
        invariant used <= |answers| && forall k | 0 <= k < used :: DismissesEntry(answers[k])
        invariant Increasing(outbox) && Queue(outbox) == Queue(old(outbox))
        invariant LookupsOf(outbox) == entries[Min(i, |entries|)..]
      {
        var n := Min(LOOKUP_BATCH_SIZE, |entries| - i);
        var chunk := entries[i..i + n];
        if used == |answers| || !Settles(answers[used]) {
          return used, false;
        }
        SettleChunk(outbox, n);
        assert LookupsOf(outbox)[..n] == chunk;
        assert LookupsOf(outbox)[n..] == entries[i + n..];
        outbox := RemoveIds(outbox, IdsOf(chunk));
        used := used + 1;
        i := i + LOOKUP_BATCH_SIZE;
      }
      more := true;
    }
  }

  lemma Fewer(m: map<ArticleId, Progress>, a: ArticleId)
    requires a in m
    ensures |m - {a}| < |m|
  {
    assert (m - {a}).Keys == m.Keys - {a};
  }

  function Min(a: int, b: int): int {
    if a < b then a else b
  }
}
