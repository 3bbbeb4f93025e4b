/** internal/store/vocab.go: the append-only lookup log and the aggregate rows derived from it, as values. */
module VocabRows {
  import opened Model
  import opened Text
  import K = VocabKey

  /** ID is the event id's rank in the text order SQLite compares ids by; OccurredAt is in milliseconds on
      the way in and in whole seconds once stored. */
  datatype LookupEvent = LookupEvent(
    ID: int, EntryKey: string, Kind: string, ArticleID: string, ArticleTitle: string, SpanStart: int, SpanEnd: int,
    Surface: string, Lemma: string, Translation: string, CEFRLevel: string, PhraseType: string, Context: string,
    Source: string, OccurredAt: int)

  /** A vocab_entries row; DeletedAt is None while the entry is live. */
  datatype Entry = Entry(
    Kind: string, Lemma: string, TargetLang: string, SurfaceForms: seq<string>,
    Count: nat, FirstSeen: int, LastSeen: int,
    Translation: string, CEFRLevel: string, PhraseType: string, Context: string,
    ArticleID: string, ArticleTitle: string,
    Source: string, DeletedAt: Option<int>, UpdatedAt: int)

  datatype Vocab = Vocab(log: seq<LookupEvent>, entries: map<string, Entry>)

  const MAX_SURFACE_FORMS := 10
  const TOMBSTONE_RETENTION := 90 * 24 * 60 * 60

  function SourceOrDefault(source: string): string {
    if source == "manual" then "manual" else "tap"
  }

  /** The row written for an event: a default source, and the second the event happened in. */
  function Stored(e: LookupEvent): LookupEvent {
    e.(Source := SourceOrDefault(e.Source), OccurredAt := e.OccurredAt / 1000)
  }

  predicate Clashes(a: LookupEvent, b: LookupEvent) {
    a.ID == b.ID || (a.ArticleID == b.ArticleID && a.Kind == b.Kind && a.SpanStart == b.SpanStart)
  }

  predicate Duplicate(log: seq<LookupEvent>, e: LookupEvent) {
    exists k | 0 <= k < |log| :: Clashes(log[k], e)
  }

  /** INSERT OR IGNORE under the two unique keys. */
  function InsertOne(log: seq<LookupEvent>, e: LookupEvent): seq<LookupEvent> {
    if Duplicate(log, e) then log else log + [Stored(e)]
  }

  function InsertAll(log: seq<LookupEvent>, events: seq<LookupEvent>): seq<LookupEvent> {
    if events == [] then log else InsertOne(InsertAll(log, events[..|events| - 1]), events[|events| - 1])
  }

  function EventsOf(log: seq<LookupEvent>, key: string): seq<LookupEvent> {
    if log == [] then []
    else
      var r := EventsOf(log[..|log| - 1], key);
      if log[|log| - 1].EntryKey == key then r + [log[|log| - 1]] else r
  }

  /** a comes before b in ORDER BY occurred_at DESC, id DESC. */
  predicate Newer(a: LookupEvent, b: LookupEvent) {
    a.OccurredAt > b.OccurredAt || (a.OccurredAt == b.OccurredAt && a.ID >= b.ID)
  }

  function InsertNewest(sorted: seq<LookupEvent>, e: LookupEvent): seq<LookupEvent> {
    if sorted == [] || Newer(e, sorted[0]) then [e] + sorted
    else [sorted[0]] + InsertNewest(sorted[1..], e)
  }

  /** The events of a query, newest first. */
  function NewestFirst(evs: seq<LookupEvent>): seq<LookupEvent> {
    if evs == [] then [] else InsertNewest(NewestFirst(evs[..|evs| - 1]), evs[|evs| - 1])
  }

  /** The first `limit` distinct non-empty normal forms of the surfaces. */
  function DistinctForms(u: Unicode, evs: seq<LookupEvent>): seq<string> {
    if evs == [] then []
    else
      var r := DistinctForms(u, evs[..|evs| - 1]);
      var norm := K.NormalForm(u, evs[|evs| - 1].Surface);
      if norm == "" || norm in r || |r| == MAX_SURFACE_FORMS then r else r + [norm]
  }

  function MinTime(evs: seq<LookupEvent>): int
    requires evs != []
  {
    if |evs| == 1 then evs[0].OccurredAt
    else
      var m := MinTime(evs[..|evs| - 1]);
      if evs[|evs| - 1].OccurredAt < m then evs[|evs| - 1].OccurredAt else m
  }

  function MaxTime(evs: seq<LookupEvent>): int
    requires evs != []
  {
    if |evs| == 1 then evs[0].OccurredAt
    else
      var m := MaxTime(evs[..|evs| - 1]);
      if evs[|evs| - 1].OccurredAt > m then evs[|evs| - 1].OccurredAt else m
  }

  /** targetLangOf: the middle part of "kind:lang:base". */
  function TargetLangOf(key: string): string {
    var parts := K.Split(key, ':');
    if |parts| < 3 || parts[1] == "" then "ru" else parts[1]
  }

  /** recomputeAggregate: the row rebuilt from all events of a key, or none when it has no events. */
  function Aggregate(u: Unicode, log: seq<LookupEvent>, key: string, stamp: int): Option<Entry> {
    var evs := EventsOf(log, key);
    if evs == [] then None
    else
      var order := NewestFirst(evs);
      NewestFirstMembers(evs);
      var latest := order[0];
      Some(Entry(
        latest.Kind, latest.Lemma, TargetLangOf(key), DistinctForms(u, order),
        |evs|, MinTime(evs), MaxTime(evs),
        latest.Translation, latest.CEFRLevel, latest.PhraseType, latest.Context,
        latest.ArticleID, latest.ArticleTitle,
        SourceOrDefault(latest.Source), None, stamp))
  }

  /** Keys of the events that land, in order of first landing. */
  function TouchedKeys(log: seq<LookupEvent>, events: seq<LookupEvent>): seq<string> {
    if events == [] then []
    else
      var front, e := events[..|events| - 1], events[|events| - 1];
      var t := TouchedKeys(log, front);
      if Duplicate(InsertAll(log, front), e) || e.EntryKey in t then t else t + [e.EntryKey]
  }

  function Recompute(u: Unicode, entries: map<string, Entry>, log: seq<LookupEvent>, keys: seq<string>, stamp: int)
      : map<string, Entry>
  {
    if keys == [] then entries
    else
      var r := Recompute(u, entries, log, keys[..|keys| - 1], stamp);
      match Aggregate(u, log, keys[|keys| - 1], stamp)
      case None => r
      case Some(entry) => r[keys[|keys| - 1] := entry]
  }

  lemma {:induction false} InsertAllExtends(log: seq<LookupEvent>, events: seq<LookupEvent>)
    ensures log <= InsertAll(log, events)
    ensures |InsertAll(log, events)| <= |log| + |events|
  {
    if events != [] {
      InsertAllExtends(log, events[..|events| - 1]);
    }
  }

  lemma {:induction false} InsertNewestMembers(sorted: seq<LookupEvent>, e: LookupEvent)
    ensures multiset(InsertNewest(sorted, e)) == multiset(sorted) + multiset{e}
  {
    if sorted == [] || Newer(e, sorted[0]) {
    } else {
      InsertNewestMembers(sorted[1..], e);
      assert sorted == [sorted[0]] + sorted[1..];
    }
  }

  lemma {:induction false} NewestFirstMembers(evs: seq<LookupEvent>)
    ensures multiset(NewestFirst(evs)) == multiset(evs)
    ensures evs != [] ==> NewestFirst(evs) != []
  {
    if evs != [] {
      NewestFirstMembers(evs[..|evs| - 1]);
      InsertNewestMembers(NewestFirst(evs[..|evs| - 1]), evs[|evs| - 1]);
      assert evs == evs[..|evs| - 1] + [evs[|evs| - 1]];
    }
  }

  function SaveLookups(u: Unicode, v: Vocab, events: seq<LookupEvent>, stamp: int): Vocab {
    var log := InsertAll(v.log, events);
    Vocab(log, Recompute(u, v.entries, log, TouchedKeys(v.log, events), stamp))
  }

  function Accepted(v: Vocab, events: seq<LookupEvent>): int {
    |InsertAll(v.log, events)| - |v.log|
  }

  function DeleteVocabEntry(v: Vocab, key: string, stamp: int): Vocab {
    if key in v.entries && v.entries[key].DeletedAt == None then
      v.(entries := v.entries[key := v.entries[key].(DeletedAt := Some(stamp), UpdatedAt := stamp)])
    else v
  }

  predicate Expired(e: Entry, stamp: int) {
    e.DeletedAt.Some? && e.DeletedAt.value < stamp - TOMBSTONE_RETENTION
  }

  function PruneVocabTombstones(v: Vocab, stamp: int): Vocab {
    v.(entries := map key | key in v.entries && !Expired(v.entries[key], stamp) :: v.entries[key])
  }

  // ---------------------------------------------------------------- what the aggregate says

  lemma {:induction false} EventsOfMembers(log: seq<LookupEvent>, key: string, e: LookupEvent)
    ensures e in EventsOf(log, key) <==> e in log && e.EntryKey == key
  {
    if log != [] {
      EventsOfMembers(log[..|log| - 1], key, e);
      assert log == log[..|log| - 1] + [log[|log| - 1]];
    }
  }

  /** Some event has it, and no event lies beyond it. */
  lemma {:induction false} MinTimeIsLeast(evs: seq<LookupEvent>) returns (e: LookupEvent)
    requires evs != []
    ensures e in evs && e.OccurredAt == MinTime(evs)
    ensures forall k | 0 <= k < |evs| :: MinTime(evs) <= evs[k].OccurredAt
  {
    var front, last := evs[..|evs| - 1], evs[|evs| - 1];
    e := last;
    if |evs| > 1 {
      var x := MinTimeIsLeast(front);
      assert forall k | 0 <= k < |front| :: front[k] == evs[k];
      if MinTime(evs) == MinTime(front) {
        e := x;
      }
    }
  }

  /** Some event has it, and no event lies beyond it. */
  lemma {:induction false} MaxTimeIsGreatest(evs: seq<LookupEvent>) returns (e: LookupEvent)
    requires evs != []
    ensures e in evs && e.OccurredAt == MaxTime(evs)
    ensures forall k | 0 <= k < |evs| :: evs[k].OccurredAt <= MaxTime(evs)
  {
    var front, last := evs[..|evs| - 1], evs[|evs| - 1];
    e := last;
    if |evs| > 1 {
      var x := MaxTimeIsGreatest(front);
      assert forall k | 0 <= k < |front| :: front[k] == evs[k];
      if MaxTime(evs) == MaxTime(front) {
        e := x;
      }
    }
  }

  predicate Descending(evs: seq<LookupEvent>) {
    forall i, j | 0 <= i < j < |evs| :: Newer(evs[i], evs[j])
  }

  lemma {:induction false} InsertNewestSorted(sorted: seq<LookupEvent>, e: LookupEvent)
    requires Descending(sorted)
    ensures Descending(InsertNewest(sorted, e))
  {
    if sorted == [] || Newer(e, sorted[0]) {
    } else {
      InsertNewestSorted(sorted[1..], e);
      var tail := InsertNewest(sorted[1..], e);
      forall j | 0 <= j < |tail| ensures Newer(sorted[0], tail[j]) {
        InsertNewestMembers(sorted[1..], e);
        assert tail[j] in multiset(tail);
      }
    }
  }

  lemma {:induction false} NewestFirstSorted(evs: seq<LookupEvent>)
    ensures Descending(NewestFirst(evs))
  {
    if evs != [] {
      NewestFirstSorted(evs[..|evs| - 1]);
      InsertNewestSorted(NewestFirst(evs[..|evs| - 1]), evs[|evs| - 1]);
    }
  }

  lemma {:induction false} DistinctFormsSound(u: Unicode, evs: seq<LookupEvent>)
    ensures var r := DistinctForms(u, evs);
      && |r| <= 10
      && (forall i, j | 0 <= i < j < |r| :: r[i] != r[j])
      && (forall f | f in r :: f != "" && exists e | e in evs :: K.NormalForm(u, e.Surface) == f)
      && (|r| < 10 ==> forall e | e in evs && K.NormalForm(u, e.Surface) != "" ::
        K.NormalForm(u, e.Surface) in r)
  {
    hide K.NormalForm;
    if evs != [] {
      var front, last := evs[..|evs| - 1], evs[|evs| - 1];
      DistinctFormsSound(u, front);
      assert evs == front + [last];
      var r := DistinctForms(u, evs);
      forall f | f in r ensures exists e | e in evs :: K.NormalForm(u, e.Surface) == f {
        if f in DistinctForms(u, front) {
          var e :| e in front && K.NormalForm(u, e.Surface) == f;
          assert e in evs;
        } else {
          assert last in evs;
        }
      }
    }
  }

  /** The forms kept are the most recent: one that is left out is preceded by ten that are kept. */
  lemma {:induction false} DistinctFormsRecent(u: Unicode, evs: seq<LookupEvent>, i: nat)
    requires i < |evs| && K.NormalForm(u, evs[i].Surface) != "" &&
      K.NormalForm(u, evs[i].Surface) !in DistinctForms(u, evs)
    ensures DistinctForms(u, evs) == DistinctForms(u, evs[..i]) && |DistinctForms(u, evs)| == 10
  {
    hide K.NormalForm;
    var front := evs[..|evs| - 1];
    if i < |front| {
      assert front[..i] == evs[..i];
      DistinctFormsRecent(u, front, i);
    }
  }

  lemma AggregateFields(u: Unicode, log: seq<LookupEvent>, key: string, stamp: int)
    requires EventsOf(log, key) != []
    ensures Aggregate(u, log, key, stamp).Some?
    ensures NewestFirst(EventsOf(log, key)) != []
    ensures var a := Aggregate(u, log, key, stamp).value; var order := NewestFirst(EventsOf(log, key));
      && a.SurfaceForms == DistinctForms(u, order) && a.TargetLang == TargetLangOf(key)
      && a.Source == SourceOrDefault(order[0].Source)
  {
    hide EventsOf, NewestFirst, DistinctForms, TargetLangOf, MinTime, MaxTime;
    NewestFirstMembers(EventsOf(log, key));
  }

  /** The observed forms of a row: at most ten, distinct, each the form of an event of the key; an event whose form
      is missing is older than some event of each of the ten forms kept. */
  lemma AggregateForms(u: Unicode, log: seq<LookupEvent>, key: string, stamp: int)
    requires EventsOf(log, key) != []
    ensures Aggregate(u, log, key, stamp).Some?
    ensures var forms := Aggregate(u, log, key, stamp).value.SurfaceForms;
      && |forms| <= 10 && (forall i, j | 0 <= i < j < |forms| :: forms[i] != forms[j])
      && (forall f | f in forms :: f != "" && exists e | e in log ::
        e.EntryKey == key && K.NormalForm(u, e.Surface) == f)
    ensures forall e | e in log && e.EntryKey == key && K.NormalForm(u, e.Surface) != "" ::
      FormKept(u, log, key, Aggregate(u, log, key, stamp).value.SurfaceForms, e)
  {
    hide K.NormalForm, Aggregate, DistinctForms, EventsOf, NewestFirst;
    AggregateFields(u, log, key, stamp);
    var evs := EventsOf(log, key);
    var order := NewestFirst(evs);
    DistinctFormsSound(u, order);
    InOrder(log, key);
    forall e | e in log && e.EntryKey == key && K.NormalForm(u, e.Surface) != ""
      ensures FormKept(u, log, key, DistinctForms(u, order), e)
    {
      var i: nat :| i < |order| && order[i] == e;
      if K.NormalForm(u, e.Surface) !in DistinctForms(u, order) {
        DistinctFormsRecent(u, order, i);
        RecentForms(u, log, key, i);
      }
    }
  }

  /** The event's form is kept, or ten forms are, each seen in an event of the key at least as recent. */
  predicate FormKept(u: Unicode, log: seq<LookupEvent>, key: string, forms: seq<string>, e: LookupEvent) {
    K.NormalForm(u, e.Surface) in forms ||
    (|forms| == 10 &&
     forall f | f in forms ::
       exists x | x in log :: x.EntryKey == key && K.NormalForm(u, x.Surface) == f && Newer(x, e))
  }

  /** The query returns exactly the events of the key, newest first. */
  lemma InOrder(log: seq<LookupEvent>, key: string)
    ensures var order := NewestFirst(EventsOf(log, key));
      Descending(order) && forall e :: e in order <==> e in log && e.EntryKey == key
  {
    hide EventsOf, NewestFirst, Descending;
    var evs := EventsOf(log, key);
    NewestFirstMembers(evs);
    NewestFirstSorted(evs);
    forall e ensures e in NewestFirst(evs) <==> e in log && e.EntryKey == key {
      EventsOfMembers(log, key, e);
      assert e in multiset(NewestFirst(evs)) <==> e in multiset(evs);
    }
  }

  lemma RecentForms(u: Unicode, log: seq<LookupEvent>, key: string, i: nat)
    requires i < |NewestFirst(EventsOf(log, key))|
    ensures var order := NewestFirst(EventsOf(log, key));
      forall f | f in DistinctForms(u, order[..i]) ::
        exists x | x in log :: x.EntryKey == key && K.NormalForm(u, x.Surface) == f && Newer(x, order[i])
  {
    hide K.NormalForm, EventsOf, NewestFirst, DistinctForms;
    var order := NewestFirst(EventsOf(log, key));
    InOrder(log, key);
    DistinctFormsSound(u, order[..i]);
    forall f | f in DistinctForms(u, order[..i])
      ensures exists x | x in log :: x.EntryKey == key && K.NormalForm(u, x.Surface) == f && Newer(x, order[i])
    {
      var x :| x in order[..i] && K.NormalForm(u, x.Surface) == f;
      var k :| 0 <= k < i && order[..i][k] == x;
      assert order[k] == x && Newer(order[k], order[i]);
    }
  }

  /** The language of a row is the one its key was built with. */
  lemma TargetLangOfKey(u: Unicode, kind: string, lang: string, base: string)
    requires ':' !in kind && ':' !in lang
    ensures TargetLangOf(K.Key(u, kind, lang, base)) == if lang == "" then "ru" else lang
  {
    hide K.Split, K.Key;
    K.KeyParts(u, kind, lang, base);
  }

  /** One event supplies every latest field: the greatest of the key's events by (time, id). */
  lemma AggregateMeans(u: Unicode, log: seq<LookupEvent>, key: string, stamp: int) returns (latest: LookupEvent)
    requires EventsOf(log, key) != []
    ensures Aggregate(u, log, key, stamp).Some?
    ensures latest in log && latest.EntryKey == key
    ensures forall e | e in log && e.EntryKey == key :: Newer(latest, e)
    ensures var a := Aggregate(u, log, key, stamp).value;
      && a.Kind == latest.Kind && a.Lemma == latest.Lemma && a.Translation == latest.Translation
      && a.CEFRLevel == latest.CEFRLevel && a.PhraseType == latest.PhraseType && a.Context == latest.Context
      && a.ArticleID == latest.ArticleID && a.ArticleTitle == latest.ArticleTitle
      && a.Source == SourceOrDefault(latest.Source) && a.TargetLang == TargetLangOf(key)
      && a.Count == |EventsOf(log, key)|
      && (forall e | e in log && e.EntryKey == key :: a.FirstSeen <= e.OccurredAt <= a.LastSeen)
      && (exists e | e in log :: e.EntryKey == key && e.OccurredAt == a.FirstSeen)
      && (exists e | e in log :: e.EntryKey == key && e.OccurredAt == a.LastSeen)
  {
    hide DistinctForms, TargetLangOf, MinTime, MaxTime;
    var evs := EventsOf(log, key);
    var order := NewestFirst(evs);
    NewestFirstMembers(evs);
    NewestFirstSorted(evs);
    latest := order[0];
    assert latest in multiset(order);
    EventsOfMembers(log, key, latest);
    var x := MinTimeIsLeast(evs);
    var y := MaxTimeIsGreatest(evs);
    forall e | e in log && e.EntryKey == key ensures e in evs && Newer(latest, e) {
      EventsOfMembers(log, key, e);
      assert e in multiset(order);
      var i :| 0 <= i < |order| && order[i] == e;
      assert i == 0 || Newer(order[0], order[i]);
    }
    EventsOfMembers(log, key, x);
    EventsOfMembers(log, key, y);
  }

  // ---------------------------------------------------------------- SaveLookups against its definition

  lemma {:induction false} NewEventsTouched(log: seq<LookupEvent>, events: seq<LookupEvent>)
    ensures log <= InsertAll(log, events)
    ensures forall k | |log| <= k < |InsertAll(log, events)| ::
      InsertAll(log, events)[k].EntryKey in TouchedKeys(log, events)
    ensures forall key | key in TouchedKeys(log, events) ::
      exists k | |log| <= k < |InsertAll(log, events)| :: InsertAll(log, events)[k].EntryKey == key
  {
    if events != [] {
      var front, e := events[..|events| - 1], events[|events| - 1];
      NewEventsTouched(log, front);
      var a, b := InsertAll(log, front), InsertAll(log, events);
      forall key | key in TouchedKeys(log, events)
        ensures exists k | |log| <= k < |b| :: b[k].EntryKey == key
      {
        if key in TouchedKeys(log, front) {
          var k :| |log| <= k < |a| && a[k].EntryKey == key;
          assert b[k] == a[k];
        } else {
          assert b[|a|].EntryKey == key;
        }
      }
    }
  }

  /** A key no event of which landed keeps its events. */
  lemma {:induction false} EventsOfPrefix(a: seq<LookupEvent>, b: seq<LookupEvent>, key: string)
    requires a <= b
    ensures EventsOf(a, key) <= EventsOf(b, key)
    ensures (forall k | |a| <= k < |b| :: b[k].EntryKey != key) ==> EventsOf(b, key) == EventsOf(a, key)
    decreases |b|
  {
    if |a| < |b| {
      EventsOfPrefix(a, b[..|b| - 1], key);
    } else {
      assert a == b;
    }
  }

  lemma AggregateExists(u: Unicode, log: seq<LookupEvent>, key: string, stamp: int)
    ensures Aggregate(u, log, key, stamp).None? <==> EventsOf(log, key) == []
  {
    hide EventsOf;
  }

  lemma {:induction false} RecomputeAt(u: Unicode, entries: map<string, Entry>, log: seq<LookupEvent>,
        keys: seq<string>, stamp: int, key: string)
    ensures var r := Recompute(u, entries, log, keys, stamp);
      && (key in r <==> key in entries || (key in keys && EventsOf(log, key) != []))
      && (key in keys && EventsOf(log, key) != [] ==> Some(r[key]) == Aggregate(u, log, key, stamp))
      && (key in entries && (key !in keys || EventsOf(log, key) == []) ==> r[key] == entries[key])
  {
    hide Aggregate, EventsOf;
    if keys != [] {
      AggregateExists(u, log, keys[|keys| - 1], stamp);
      RecomputeAt(u, entries, log, keys[..|keys| - 1], stamp, key);
      assert keys == keys[..|keys| - 1] + [keys[|keys| - 1]];
    }
  }

  // ---------------------------------------------------------------- whole runs

  datatype Op =
    | Save(events: seq<LookupEvent>, at: int)
    | Remove(key: string, at: int)
    | Prune(at: int)

  function Apply(u: Unicode, v: Vocab, op: Op): Vocab {
    match op
    case Save(events, at) => SaveLookups(u, v, events, at)
    case Remove(key, at) => DeleteVocabEntry(v, key, at)
    case Prune(at) => PruneVocabTombstones(v, at)
  }

  const EMPTY_VOCAB := Vocab([], map[])

  function Run(u: Unicode, ops: seq<Op>): Vocab {
    if ops == [] then EMPTY_VOCAB else Apply(u, Run(u, ops[..|ops| - 1]), ops[|ops| - 1])
  }

  /** The row agrees with the log on everything but the tombstone and the stamp. */
  predicate Faithful(u: Unicode, log: seq<LookupEvent>, key: string, entry: Entry) {
    EventsOf(log, key) != [] &&
    entry == Aggregate(u, log, key, entry.UpdatedAt).value.(DeletedAt := entry.DeletedAt)
  }

  predicate AggregatesHold(u: Unicode, v: Vocab) {
    forall key | key in v.entries :: Faithful(u, v.log, key, v.entries[key])
  }

  /** One occurrence per id and per position. */
  predicate NoClashes(log: seq<LookupEvent>) {
    forall i, j | 0 <= i < j < |log| :: !Clashes(log[i], log[j])
  }

  lemma AggregateStamp(u: Unicode, log: seq<LookupEvent>, key: string, a: int, b: int)
    requires EventsOf(log, key) != []
    ensures Aggregate(u, log, key, a).Some? && Aggregate(u, log, key, b).Some?
    ensures Aggregate(u, log, key, b).value == Aggregate(u, log, key, a).value.(UpdatedAt := b)
    ensures Aggregate(u, log, key, b).value.UpdatedAt == b && Aggregate(u, log, key, b).value.DeletedAt == None
  {
    hide DistinctForms, TargetLangOf, MinTime, MaxTime, EventsOf, NewestFirst;
  }

  /** The aggregate of a key depends on its events only. */
  lemma AggregateDepends(u: Unicode, a: seq<LookupEvent>, b: seq<LookupEvent>, key: string, stamp: int)
    requires EventsOf(a, key) == EventsOf(b, key)
    ensures Aggregate(u, a, key, stamp) == Aggregate(u, b, key, stamp)
  {
    hide DistinctForms, TargetLangOf, MinTime, MaxTime, EventsOf, NewestFirst;
  }

  lemma SaveKeepsAggregates(u: Unicode, v: Vocab, events: seq<LookupEvent>, at: int)
    requires AggregatesHold(u, v)
    ensures AggregatesHold(u, SaveLookups(u, v, events, at))
  {
    hide Aggregate, EventsOf, InsertAll, TouchedKeys, Recompute;
    var log, keys := InsertAll(v.log, events), TouchedKeys(v.log, events);
    var v' := SaveLookups(u, v, events, at);
    NewEventsTouched(v.log, events);
    forall key | key in v'.entries ensures Faithful(u, log, key, v'.entries[key]) {
      RecomputeAt(u, v.entries, log, keys, at, key);
      EventsOfPrefix(v.log, log, key);
      if key in keys && EventsOf(log, key) != [] {
        AggregateStamp(u, log, key, at, at);
      } else {
        assert Faithful(u, v.log, key, v.entries[key]);
        AggregateDepends(u, v.log, log, key, v.entries[key].UpdatedAt);
      }
    }
  }

  lemma RemoveKeepsAggregates(u: Unicode, v: Vocab, key: string, at: int)
    requires AggregatesHold(u, v)
    ensures AggregatesHold(u, DeleteVocabEntry(v, key, at))
  {
    hide Aggregate, EventsOf;
    if key in v.entries {
      assert Faithful(u, v.log, key, v.entries[key]);
      AggregateStamp(u, v.log, key, v.entries[key].UpdatedAt, at);
    }
  }

  lemma {:induction false} InsertAllNoClashes(log: seq<LookupEvent>, events: seq<LookupEvent>)
    requires NoClashes(log)
    ensures NoClashes(InsertAll(log, events))
  {
    if events != [] {
      InsertAllNoClashes(log, events[..|events| - 1]);
      var a, e := InsertAll(log, events[..|events| - 1]), events[|events| - 1];
      if !Duplicate(a, e) {
        assert forall k | 0 <= k < |a| :: !Clashes(a[k], Stored(e));
      }
    }
  }

  /** After any run, every row, tombstoned or live, is the fold of all events with its key. */
  lemma {:induction false} RunAggregates(u: Unicode, ops: seq<Op>)
    ensures AggregatesHold(u, Run(u, ops)) && NoClashes(Run(u, ops).log)
  {
    hide Aggregate, EventsOf, SaveLookups, AggregatesHold;
    if ops == [] {
      assert AggregatesHold(u, EMPTY_VOCAB) by { NoRows(u); }
    } else {
      RunAggregates(u, ops[..|ops| - 1]);
      var v := Run(u, ops[..|ops| - 1]);
      match ops[|ops| - 1]
      case Save(events, at) =>
        SaveKeepsAggregates(u, v, events, at);
        SavedLog(u, v, events, at);
        InsertAllNoClashes(v.log, events);
      case Remove(key, at) => RemoveKeepsAggregates(u, v, key, at);
      case Prune(at) => PruneKeepsAggregates(u, v, at);
    }
  }

  lemma NoRows(u: Unicode)
    ensures AggregatesHold(u, EMPTY_VOCAB)
  {
  }

  lemma PruneKeepsAggregates(u: Unicode, v: Vocab, at: int)
    requires AggregatesHold(u, v)
    ensures AggregatesHold(u, PruneVocabTombstones(v, at))
  {
    hide Faithful;
  }

  lemma SavedLog(u: Unicode, v: Vocab, events: seq<LookupEvent>, at: int)
    ensures SaveLookups(u, v, events, at).log == InsertAll(v.log, events)
  {
  }

  // ---------------------------------------------------------------- replays

  lemma DuplicateStays(a: seq<LookupEvent>, b: seq<LookupEvent>, e: LookupEvent)
    requires a <= b && Duplicate(a, e)
    ensures Duplicate(b, e)
  {
    var k :| 0 <= k < |a| && Clashes(a[k], e);
    assert b[k] == a[k];
  }

  /** Once submitted, an event clashes with the log: it landed, or something like it was there. */
  lemma {:induction false} SubmittedClash(log: seq<LookupEvent>, events: seq<LookupEvent>, e: LookupEvent)
    requires e in events
    ensures Duplicate(InsertAll(log, events), e)
  {
    var front, last := events[..|events| - 1], events[|events| - 1];
    var a := InsertAll(log, front);
    if e in front {
      SubmittedClash(log, front, e);
      DuplicateStays(a, InsertAll(log, events), e);
    } else if !Duplicate(a, last) {
      assert Clashes(InsertAll(log, events)[|a|], e);
    }
  }

  lemma {:induction false} AllDuplicates(log: seq<LookupEvent>, events: seq<LookupEvent>)
    requires forall e | e in events :: Duplicate(log, e)
    ensures InsertAll(log, events) == log && TouchedKeys(log, events) == []
  {
    if events != [] {
      AllDuplicates(log, events[..|events| - 1]);
      assert events[|events| - 1] in events;
    }
  }

  lemma {:induction false} LogGrows(u: Unicode, ops: seq<Op>, i: nat)
    requires i <= |ops|
    ensures Run(u, ops[..i]).log <= Run(u, ops).log
    decreases |ops|
  {
    hide SaveLookups;
    if i < |ops| {
      var front := ops[..|ops| - 1];
      LogGrows(u, front, i);
      assert front[..i] == ops[..i];
      var v := Run(u, front);
      match ops[|ops| - 1]
      case Save(events, at) =>
        SavedLog(u, v, events, at);
        InsertAllExtends(v.log, events);
      case Remove(key, at) =>
      case Prune(at) =>
    } else {
      assert ops[..i] == ops;
    }
  }

  /** Delivering a batch again, at any later time, accepts nothing, changes nothing and revives no tombstone:
      a delivery whose answer was lost costs nothing. */
  lemma ReplayIsNoOp(u: Unicode, ops: seq<Op>, i: nat, at: int)
    requires i < |ops| && ops[i].Save?
    ensures var v := Run(u, ops);
      Accepted(v, ops[i].events) == 0 && SaveLookups(u, v, ops[i].events, at) == v
  {
    var events := ops[i].events;
    var saved := Run(u, ops[..i + 1]);
    assert ops[..i + 1][..i] == ops[..i];
    var v := Run(u, ops);
    LogGrows(u, ops, i + 1);
    forall e | e in events ensures Duplicate(v.log, e) {
      SubmittedClash(Run(u, ops[..i]).log, events, e);
      DuplicateStays(saved.log, v.log, e);
    }
    AllDuplicates(v.log, events);
  }

  /** A fresh lookup revives: once an event of a key lands, its row is live and up to date. */
  lemma LandedEventRevives(u: Unicode, v: Vocab, events: seq<LookupEvent>, at: int, key: string)
    requires key in TouchedKeys(v.log, events)
    ensures var v' := SaveLookups(u, v, events, at);
      key in v'.entries && Some(v'.entries[key]) == Aggregate(u, v'.log, key, at) && v'.entries[key].DeletedAt == None
  {
    hide Aggregate, EventsOf;
    var log := InsertAll(v.log, events);
    NewEventsTouched(v.log, events);
    var k :| |v.log| <= k < |log| && log[k].EntryKey == key;
    EventsOfMembers(log, key, log[k]);
    assert log[k] in log;
    RecomputeAt(u, v.entries, log, TouchedKeys(v.log, events), at, key);
    AggregateStamp(u, log, key, at, at);
  }
}

/** The word-cache half of the database handle. */
module VocabStore {
  import opened Model
  import opened Text
  import opened VocabRows
  import K = VocabKey

  class WordCache {
    var log: seq<LookupEvent>
    var entries: map<string, Entry>

    function Value(): Vocab
      reads this
    {
      Vocab(log, entries)
    }

    constructor ()
      ensures Value() == EMPTY_VOCAB
    {
      log, entries := [], map[];
    }

    method SaveLookups(u: Unicode, events: seq<LookupEvent>, stamp: int) returns (accepted: int)
      modifies this
      ensures Value() == VocabRows.SaveLookups(u, old(Value()), events, stamp)
      ensures accepted == Accepted(old(Value()), events)
    {
      hide Aggregate;
      accepted := 0;
      if |events| == 0 {
        return;
      }
      var touched: seq<string> := [];
      var seen: set<string> := {};
      for i := 0 to |events|
        invariant log == InsertAll(old(log), events[..i]) && entries == old(entries)
        invariant touched == TouchedKeys(old(log), events[..i])
        invariant forall key :: key in seen <==> key in touched
        invariant accepted == |log| - |old(log)|
      {
        var e := events[i];
        assert events[..i + 1][..i] == events[..i];
        if Duplicate(log, e) {
          continue;
        }
        log := log + [Stored(e)];
        accepted := accepted + 1;
        if e.EntryKey !in seen {
          seen := seen + {e.EntryKey};
          touched := touched + [e.EntryKey];
        }
      }
      assert events[..|events|] == events;
      for i := 0 to |touched|
        invariant log == InsertAll(old(log), events)
        invariant entries == Recompute(u, old(entries), log, touched[..i], stamp)
      {
        assert touched[..i + 1][..i] == touched[..i];
        RecomputeAggregate(u, touched[i], stamp);
      }
      assert touched[..|touched|] == touched;
    }

    method RecomputeAggregate(u: Unicode, key: string, stamp: int)
      modifies this`entries
      ensures entries == match Aggregate(u, log, key, stamp)
                         case None => old(entries)
                         case Some(entry) => old(entries)[key := entry]
    {
      var evs := EventsOf(log, key);
      if |evs| == 0 {
        return;
      }
      var order := NewestFirst(evs);
      NewestFirstMembers(evs);
      var latest := order[0];
      var forms := RecentSurfaceForms(u, order);
      entries := entries[key := Entry(
        latest.Kind, latest.Lemma, TargetLangOf(key), forms, |evs|, MinTime(evs), MaxTime(evs),
        latest.Translation, latest.CEFRLevel, latest.PhraseType, latest.Context, latest.ArticleID, latest.ArticleTitle,
        SourceOrDefault(latest.Source), None, stamp)];
    }

    method DeleteVocabEntry(key: string, stamp: int)
      modifies this
      ensures Value() == VocabRows.DeleteVocabEntry(old(Value()), key, stamp)
    {
      if key in entries && entries[key].DeletedAt == None {
        entries := entries[key := entries[key].(DeletedAt := Some(stamp), UpdatedAt := stamp)];
      }
    }

    method PruneVocabTombstones(stamp: int) returns (n: int)
      modifies this
      ensures Value() == VocabRows.PruneVocabTombstones(old(Value()), stamp)
      ensures n == |old(entries)| - |entries|
    {
      var kept := map key | key in entries && !Expired(entries[key], stamp) :: entries[key];
      n := |entries| - |kept|;
      entries := kept;
    }
  }

  /** recentSurfaceForms over the query's rows: stops at the tenth distinct form. */
  method RecentSurfaceForms(u: Unicode, rows: seq<LookupEvent>) returns (forms: seq<string>)
    ensures forms == DistinctForms(u, rows)
  {
    hide K.NormalForm;
    forms := [];
    var seen: set<string> := {};
    for i := 0 to |rows|
      invariant forms == DistinctForms(u, rows[..i]) && |forms| < MAX_SURFACE_FORMS
      invariant forall f :: f in seen <==> f in forms
    {
      assert rows[..i + 1][..i] == rows[..i];
      var norm := K.NormalForm(u, rows[i].Surface);
      if norm == "" || norm in seen {
        continue;
      }
      seen := seen + {norm};
      forms := forms + [norm];
      if |forms| == MAX_SURFACE_FORMS {
        FullStays(u, rows, i + 1);
        return;
      }
    }
    assert rows[..|rows|] == rows;
  }

  lemma {:induction false} FullStays(u: Unicode, rows: seq<LookupEvent>, i: nat)
    requires i <= |rows| && |DistinctForms(u, rows[..i])| == MAX_SURFACE_FORMS
    ensures DistinctForms(u, rows) == DistinctForms(u, rows[..i])
    decreases |rows|
  {
    hide K.NormalForm;
    if i < |rows| {
      assert rows[..|rows| - 1][..i] == rows[..i];
      FullStays(u, rows[..|rows| - 1], i);
    } else {
      assert rows[..i] == rows;
    }
  }
}
