/** internal/store/vocab.go: from the events a client submits to the row a reader sees. */
module LookupLog {
  import opened Model
  import opened Text
  import opened VocabRows
  import K = VocabKey

  // ---------------------------------------------------------------- one batch

  /** What the log keeps of a submitted event: all of it, with the second for the instant and a known source. */
  predicate LoggedAs(e: LookupEvent, r: LookupEvent) {
    && r.ID == e.ID && r.EntryKey == e.EntryKey && r.Kind == e.Kind
    && r.ArticleID == e.ArticleID && r.ArticleTitle == e.ArticleTitle
    && r.SpanStart == e.SpanStart && r.SpanEnd == e.SpanEnd
    && r.Surface == e.Surface && r.Lemma == e.Lemma && r.Translation == e.Translation
    && r.CEFRLevel == e.CEFRLevel && r.PhraseType == e.PhraseType && r.Context == e.Context
    && r.Source == (if e.Source == "manual" then "manual" else "tap")
    && 0 <= e.OccurredAt - 1000 * r.OccurredAt < 1000
  }

  /** The same id, or the same kind of lookup at the same place of the same article. */
  predicate SameLookup(a: LookupEvent, b: LookupEvent) {
    a.ID == b.ID || (a.ArticleID, a.Kind, a.SpanStart) == (b.ArticleID, b.Kind, b.SpanStart)
  }

  predicate New(log: seq<LookupEvent>, e: LookupEvent) {
    forall k | 0 <= k < |log| :: !SameLookup(log[k], e)
  }

  /** No event of the batch that was taken before it is the same lookup. */
  predicate NewInBatch(events: seq<LookupEvent>, at: seq<nat>, i: nat)
    requires Rising(at, |events|) && i < |events|
  {
    forall k | 0 <= k < |at| && at[k] < i :: !SameLookup(events[at[k]], events[i])
  }

  lemma DuplicateTaken(r: seq<LookupEvent>, log: seq<LookupEvent>, events: seq<LookupEvent>, at: seq<nat>, n: nat)
    requires n < |events| && Rising(at, n) && |r| == |log| + |at| && log <= r
    requires forall k | 0 <= k < |at| :: LoggedAs(events[at[k]], r[|log| + k])
    ensures Rising(at, |events|) && (!Duplicate(r, events[n]) <==> New(log, events[n]) && NewInBatch(events, at, n))
  {
    var e := events[n];
    assert forall k | 0 <= k < |log| :: r[k] == log[k];
    forall k | 0 <= k < |at| ensures Clashes(r[|log| + k], e) <==> SameLookup(events[at[k]], e) {
      assert LoggedAs(events[at[k]], r[|log| + k]);
    }
    assert forall p | |log| <= p < |r| :: Clashes(r[p], e) <==> SameLookup(events[at[p - |log|]], e);
    hide LoggedAs;
  }

  lemma StoredAs(e: LookupEvent)
    ensures LoggedAs(e, Stored(e))
  {
  }

  /** Saving a batch appends, in the order submitted, each event that is the same lookup neither as one logged before
      nor as one of the batch already taken, with all its fields; it drops the others. */
  lemma {:induction false} BatchLogged(log: seq<LookupEvent>, events: seq<LookupEvent>) returns (at: seq<nat>)
    ensures var r := InsertAll(log, events);
      && Rising(at, |events|) && |r| == |log| + |at| && log <= r
      && (forall k | 0 <= k < |at| :: LoggedAs(events[at[k]], r[|log| + k]))
      && (forall i | 0 <= i < |events| :: i in at <==> New(log, events[i]) && NewInBatch(events, at, i))
  {
    hide Duplicate, New, NewInBatch, LoggedAs, Stored;
    at := [];
    if events != [] {
      var front, n := events[..|events| - 1], |events| - 1;
      var taken := BatchLogged(log, front);
      var r := InsertAll(log, front);
      assert forall i | 0 <= i < n :: front[i] == events[i];
      DuplicateTaken(r, log, events, taken, n);
      StoredAs(events[n]);
      RisingSnoc(taken, n);
      SnocMembers(taken, n);
      at := if Duplicate(r, events[n]) then taken else taken + [n];
      forall i | 0 <= i < |events| ensures NewInBatch(events, at, i) <==> NewInBatch(events, taken, i) {
        SnocNew(events, taken, n, i);
      }
      forall i | 0 <= i < n ensures NewInBatch(front, taken, i) <==> NewInBatch(events, taken, i) {
        FrontNew(events, taken, i);
      }
    }
  }

  lemma SnocNew(events: seq<LookupEvent>, at: seq<nat>, n: nat, i: nat)
    requires Rising(at, n) && i <= n < |events|
    ensures Rising(at, |events|) && Rising(at + [n], |events|)
    ensures NewInBatch(events, at + [n], i) <==> NewInBatch(events, at, i)
  {
    hide SameLookup;
    RisingSnoc(at, n);
    assert forall k | 0 <= k < |at| :: (at + [n])[k] == at[k];
  }

  lemma FrontNew(events: seq<LookupEvent>, at: seq<nat>, i: nat)
    requires events != [] && i < |events| - 1 && Rising(at, |events| - 1)
    ensures NewInBatch(events[..|events| - 1], at, i) <==> Rising(at, |events|) && NewInBatch(events, at, i)
  {
    hide SameLookup;
  }

  /** The number accepted is the number taken. */
  lemma AcceptedMeans(v: Vocab, events: seq<LookupEvent>) returns (at: seq<nat>)
    ensures Rising(at, |events|) && Accepted(v, events) == |at|
    ensures forall i | 0 <= i < |events| :: i in at <==> New(v.log, events[i]) && NewInBatch(events, at, i)
  {
    hide New, NewInBatch, LoggedAs;
    at := BatchLogged(v.log, events);
  }

  // ---------------------------------------------------------------- whole runs

  /** An event someone saved in the run. */
  ghost predicate Submitted(ops: seq<Op>, e: LookupEvent) {
    exists i | 0 <= i < |ops| :: ops[i].Save? && e in ops[i].events
  }

  ghost predicate FromSubmitted(ops: seq<Op>, r: LookupEvent) {
    exists e :: Submitted(ops, e) && LoggedAs(e, r)
  }

  lemma SubmittedLater(ops: seq<Op>, e: LookupEvent)
    requires ops != [] && Submitted(ops[..|ops| - 1], e)
    ensures Submitted(ops, e)
  {
    var front := ops[..|ops| - 1];
    var i :| 0 <= i < |front| && front[i].Save? && e in front[i].events;
    assert ops[i] == front[i];
  }

  lemma SavedNow(ops: seq<Op>, e: LookupEvent)
    requires ops != [] && ops[|ops| - 1].Save? && e in ops[|ops| - 1].events
    ensures Submitted(ops, e)
  {
  }

  lemma FromLater(ops: seq<Op>, r: LookupEvent)
    requires ops != [] && FromSubmitted(ops[..|ops| - 1], r)
    ensures FromSubmitted(ops, r)
  {
    hide LoggedAs, Submitted;
    var e :| Submitted(ops[..|ops| - 1], e) && LoggedAs(e, r);
    SubmittedLater(ops, e);
  }

  /** What a save takes comes from the batch it was given. */
  lemma FromBatch(log: seq<LookupEvent>, ops: seq<Op>, r: LookupEvent)
    requires ops != [] && ops[|ops| - 1].Save? && r in InsertAll(log, ops[|ops| - 1].events) && r !in log
    ensures FromSubmitted(ops, r)
  {
    hide LoggedAs, Submitted, New, NewInBatch, InsertAll;
    var events := ops[|ops| - 1].events;
    var at := BatchLogged(log, events);
    var all := InsertAll(log, events);
    var p :| 0 <= p < |all| && all[p] == r;
    var e := events[at[p - |log|]];
    assert LoggedAs(e, all[|log| + (p - |log|)]);
    SavedNow(ops, e);
  }

  /** Over every run: whatever is in the log was submitted, and stands there with all its fields. */
  lemma {:induction false} LogIsSubmitted(u: Unicode, ops: seq<Op>)
    ensures forall r | r in Run(u, ops).log :: FromSubmitted(ops, r)
  {
    hide FromSubmitted, SaveLookups;
    if ops != [] {
      var front, op := ops[..|ops| - 1], ops[|ops| - 1];
      LogIsSubmitted(u, front);
      var v := Run(u, front);
      if op.Save? {
        SavedLog(u, v, op.events, op.at);
      }
      forall r | r in Run(u, ops).log ensures FromSubmitted(ops, r) {
        if r in v.log {
          FromLater(ops, r);
        } else {
          FromBatch(v.log, ops, r);
        }
      }
    }
  }

  /** The row shows this event: its latest fields are the event's. */
  predicate Shows(row: Entry, e: LookupEvent) {
    && row.Kind == e.Kind && row.Lemma == e.Lemma && row.Translation == e.Translation
    && row.CEFRLevel == e.CEFRLevel && row.PhraseType == e.PhraseType && row.Context == e.Context
    && row.ArticleID == e.ArticleID && row.ArticleTitle == e.ArticleTitle
    && row.Source == (if e.Source == "manual" then "manual" else "tap")
  }

  /** e is the latest logged event of the key: none has a later second, or the same second and a greater id. */
  predicate Latest(log: seq<LookupEvent>, key: string, e: LookupEvent) {
    e.EntryKey == key &&
    forall r | r in log && r.EntryKey == key ::
      1000 * r.OccurredAt <= e.OccurredAt && (1000 * (r.OccurredAt + 1) > e.OccurredAt ==> r.ID <= e.ID)
  }

  /** Over every run: each row shows a submitted event, the latest of its key in the log, and counts the events. */
  lemma RowShowsLatest(u: Unicode, ops: seq<Op>, key: string) returns (e: LookupEvent)
    requires key in Run(u, ops).entries
    ensures var v := Run(u, ops); var row := v.entries[key];
      && Submitted(ops, e) && Latest(v.log, key, e) && Shows(row, e)
      && row.Count == |EventsOf(v.log, key)| && (exists r :: r in v.log && r.EntryKey == key && LoggedAs(e, r))
  {
    hide EventsOf, Aggregate, LoggedAs, Submitted, NoClashes;
    var v := Run(u, ops);
    RunAggregates(u, ops);
    LogIsSubmitted(u, ops);
    assert Faithful(u, v.log, key, v.entries[key]);
    var latest := AggregateMeans(u, v.log, key, v.entries[key].UpdatedAt);
    assert FromSubmitted(ops, latest);
    e :| Submitted(ops, e) && LoggedAs(e, latest);
    SameFields(e, latest);
    forall r | r in v.log && r.EntryKey == key
      ensures 1000 * r.OccurredAt <= e.OccurredAt && (1000 * (r.OccurredAt + 1) > e.OccurredAt ==> r.ID <= e.ID)
    {
      assert Newer(latest, r);
      LaterSecond(e, latest, r);
    }
  }

  lemma SameFields(e: LookupEvent, r: LookupEvent)
    requires LoggedAs(e, r)
    ensures r.ID == e.ID && r.EntryKey == e.EntryKey && r.Kind == e.Kind && r.Lemma == e.Lemma
    ensures r.Translation == e.Translation && r.CEFRLevel == e.CEFRLevel && r.PhraseType == e.PhraseType
    ensures r.Context == e.Context && r.ArticleID == e.ArticleID && r.ArticleTitle == e.ArticleTitle
    ensures SourceOrDefault(r.Source) == if e.Source == "manual" then "manual" else "tap"
  {
  }

  lemma LaterSecond(e: LookupEvent, latest: LookupEvent, r: LookupEvent)
    requires LoggedAs(e, latest) && Newer(latest, r)
    ensures 1000 * r.OccurredAt <= e.OccurredAt && (1000 * (r.OccurredAt + 1) > e.OccurredAt ==> r.ID <= e.ID)
  {
  }

  /** The first lookup ever is what its row shows. */
  lemma FirstLookup(u: Unicode, e: LookupEvent, at: int)
    ensures var v := Run(u, [Save([e], at)]);
      e.EntryKey in v.entries && Shows(v.entries[e.EntryKey], e) && v.entries[e.EntryKey].DeletedAt == None
  {
    hide EventsOf, Aggregate, SaveLookups, Run, TouchedKeys;
    var ops := [Save([e], at)];
    OneOp(u, ops[0]);
    OneEvent(e);
    LandedEventRevives(u, EMPTY_VOCAB, [e], at, e.EntryKey);
    var x := RowShowsLatest(u, ops, e.EntryKey);
    assert x == e;
  }

  lemma OneOp(u: Unicode, op: Op)
    ensures Run(u, [op]) == Apply(u, EMPTY_VOCAB, op)
  {
    hide Apply;
    assert [op][..0] == [];
    assert Run(u, []) == EMPTY_VOCAB;
  }

  lemma OneEvent(e: LookupEvent)
    ensures e.EntryKey in TouchedKeys([], [e])
  {
    assert [e][..0] == [];
    assert InsertAll([], []) == [] && TouchedKeys([], []) == [];
    assert !Duplicate([], e);
  }

  // ---------------------------------------------------------------- when an entry is shown

  predicate Live(v: Vocab, key: string) {
    key in v.entries && v.entries[key].DeletedAt == None
  }

  /** The save takes an event of the key. */
  predicate Lands(log: seq<LookupEvent>, op: Op, key: string) {
    op.Save? && |EventsOf(InsertAll(log, op.events), key)| > |EventsOf(log, key)|
  }

  lemma LandsTouched(log: seq<LookupEvent>, op: Op, key: string)
    requires op.Save?
    ensures Lands(log, op, key) <==> key in TouchedKeys(log, op.events)
  {
    hide EventsOf, TouchedKeys;
    var log' := InsertAll(log, op.events);
    NewEventsTouched(log, op.events);
    EventsOfPrefix(log, log', key);
    if key in TouchedKeys(log, op.events) {
      var k :| |log| <= k < |log'| && log'[k].EntryKey == key;
      MoreEvents(log, log', key, k);
    }
  }

  lemma {:induction false} MoreEvents(a: seq<LookupEvent>, b: seq<LookupEvent>, key: string, k: nat)
    requires a <= b && |a| <= k < |b| && b[k].EntryKey == key
    ensures |EventsOf(b, key)| > |EventsOf(a, key)|
    decreases |b|
  {
    var front := b[..|b| - 1];
    EventsOfPrefix(a, front, key);
    if k < |front| {
      MoreEvents(a, front, key, k);
    }
  }

  /** Removing hides the entry, at once and with its history kept; nothing else changes. */
  lemma RemoveMeans(v: Vocab, key: string, at: int)
    ensures var v' := DeleteVocabEntry(v, key, at);
      && !Live(v', key) && v'.log == v.log && v'.entries.Keys == v.entries.Keys
      && (forall k | k in v.entries && k != key :: v'.entries[k] == v.entries[k])
      && (Live(v, key) ==> v'.entries[key] == v.entries[key].(DeletedAt := Some(at), UpdatedAt := at))
  {
  }

  /** Pruning drops the tombstones older than ninety days, and keeps every live entry and every younger tombstone. */
  lemma PruneMeans(v: Vocab, at: int)
    ensures var v' := PruneVocabTombstones(v, at);
      && v'.log == v.log
      && (forall key :: key in v'.entries <==>
            key in v.entries &&
              (v.entries[key].DeletedAt == None || at - v.entries[key].DeletedAt.value <= 90 * 24 * 60 * 60))
      && (forall key | key in v'.entries :: v'.entries[key] == v.entries[key])
  {
  }

  /** Some save took an event of the key, and no removal of the key came after it. */
  ghost predicate TakenSince(u: Unicode, ops: seq<Op>, key: string) {
    exists i | 0 <= i < |ops| ::
      Lands(Run(u, ops[..i]).log, ops[i], key) && KeptAfter(ops, key, i)
  }

  lemma TakenNext(u: Unicode, ops: seq<Op>, key: string)
    requires ops != []
    ensures var front, op := ops[..|ops| - 1], ops[|ops| - 1];
      TakenSince(u, ops, key) <==>
        Lands(Run(u, front).log, op, key) || (TakenSince(u, front, key) && !(op.Remove? && op.key == key))
  {
    hide Lands, Run;
    var front, n := ops[..|ops| - 1], |ops| - 1;
    assert forall i | 0 <= i <= n :: front[..i] == ops[..i];
    if Lands(Run(u, front).log, ops[n], key) {
      assert Lands(Run(u, ops[..n]).log, ops[n], key);
    }
    if i :| 0 <= i < |front| && Lands(Run(u, front[..i]).log, front[i], key) && KeptAfter(front, key, i) {
      if !(ops[n].Remove? && ops[n].key == key) {
        assert Lands(Run(u, ops[..i]).log, ops[i], key) && KeptAfter(ops, key, i);
      }
    }
    if i :| 0 <= i < n && Lands(Run(u, ops[..i]).log, ops[i], key) && KeptAfter(ops, key, i) {
      assert Lands(Run(u, front[..i]).log, front[i], key) && KeptAfter(front, key, i);
    }
  }

  predicate KeptAfter(ops: seq<Op>, key: string, i: nat)
    requires i < |ops|
  {
    forall j | i < j < |ops| :: !(ops[j].Remove? && ops[j].key == key)
  }

  lemma SaveLive(u: Unicode, v: Vocab, op: Op, key: string)
    requires op.Save?
    ensures Live(SaveLookups(u, v, op.events, op.at), key) <==> Lands(v.log, op, key) || Live(v, key)
  {
    hide Aggregate, EventsOf, TouchedKeys, InsertAll, Recompute, Lands;
    LandsTouched(v.log, op, key);
    var log := InsertAll(v.log, op.events);
    RecomputeAt(u, v.entries, log, TouchedKeys(v.log, op.events), op.at, key);
    if key in TouchedKeys(v.log, op.events) {
      LandedEventRevives(u, v, op.events, op.at, key);
    }
  }

  /** Over every run, an entry is shown exactly when an event of its key was taken after the last time it was removed:
      a new lookup revives it, a repeated one does not. */
  lemma {:induction false} LiveIff(u: Unicode, ops: seq<Op>, key: string)
    ensures Live(Run(u, ops), key) <==> TakenSince(u, ops, key)
  {
    hide SaveLookups, DeleteVocabEntry, PruneVocabTombstones, Lands, TakenSince;
    if ops == [] {
      NothingTaken(u, key);
    } else {
      var front, op := ops[..|ops| - 1], ops[|ops| - 1];
      LiveIff(u, front, key);
      TakenNext(u, ops, key);
      OnlySavesLand(Run(u, front).log, op, key);
      match op
      case Save(_, _) => SaveLive(u, Run(u, front), op, key);
      case Remove(k, at) => RemoveMeans(Run(u, front), k, at);
      case Prune(at) => PruneMeans(Run(u, front), at);
    }
  }

  lemma NothingTaken(u: Unicode, key: string)
    ensures !TakenSince(u, [], key) && !Live(EMPTY_VOCAB, key)
  {
  }

  lemma OnlySavesLand(log: seq<LookupEvent>, op: Op, key: string)
    ensures Lands(log, op, key) ==> op.Save?
  {
  }
}
