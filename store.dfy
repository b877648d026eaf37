/**
 * The `EventStore` of Models/EventStore.swift: the published array `events` kept
 * in step with the managed-object context, here the record sequence `stored`.
 *
 * Each operation is given twice: as a function on a `State` snapshot, which the
 * lemmas of module StoreProperties reason about, and as a method of the class
 * `EventStore`, which updates the two fields in place the way the Swift code does
 * and is proved to perform exactly the function's transition.
 *
 * What the platform supplies is a parameter: `fetchOk` says whether the context
 * fetch succeeds (a failing fetch is only logged), `freshId(i)` is the `UUID()`
 * drawn for the i-th fetched record when it has no id, and `clock(i)` is the
 * `Date()` drawn for it when it has no date.
 */
module Store {
  import opened Wrappers
  import opened Search
  import opened Events
  import opened Storage

  /** The in-memory array and the contents of the persistent context. */
  datatype State = State(events: seq<Event>, stored: seq<Record>)

  /** `events.firstIndex(where: { $0.id == id })`. */
  function EventIndex(events: seq<Event>, id: Uuid): (r: Option<nat>)
    ensures r.Some? ==> r.value < |events| && events[r.value].id == id
    ensures r.Some? ==> forall j :: 0 <= j < r.value ==> events[j].id != id
    ensures r.None? <==> forall j :: 0 <= j < |events| ==> events[j].id != id
  {
    FirstIndex(events, (e: Event) => e.id == id)
  }

  /** The events a successful fetch produces: one per record, in fetch order. */
  function Loaded(stored: seq<Record>, freshId: nat -> Uuid, clock: nat -> Date): (r: seq<Event>)
    ensures |r| == |stored|
    ensures forall i :: 0 <= i < |stored| ==> r[i] == ToEvent(stored[i], freshId(i), clock(i))
    ensures forall i :: 0 <= i < |r| ==> r[i].isSaved
  {
    seq(|stored|, i requires 0 <= i < |stored| => ToEvent(stored[i], freshId(i), clock(i)))
  }

  /** `loadEvents`: on a successful fetch `events` is replaced; on a failed one it is kept. */
  function Load(s: State, fetchOk: bool, freshId: nat -> Uuid, clock: nat -> Date): (t: State)
    ensures t.stored == s.stored
    ensures fetchOk ==> t.events == Loaded(s.stored, freshId, clock)
    ensures !fetchOk ==> t.events == s.events
  {
    if fetchOk then s.(events := Loaded(s.stored, freshId, clock)) else s
  }

  /**
   * `saveEvent`. A new id: a saved copy is appended and inserted into storage. A
   * known id: only the first matching entry's flag is set, its other fields are
   * kept, and the first stored record with that id is overwritten from `event`
   * when the by-id fetch succeeds.
   */
  function Save(s: State, event: Event, fetchOk: bool): (t: State)
    ensures EventIndex(s.events, event.id).None? ==>
      && t.events == s.events + [event.(isSaved := true)]
      && t.stored == Insert(s.stored, event.(isSaved := true))
    ensures EventIndex(s.events, event.id).Some? ==>
      var i := EventIndex(s.events, event.id).value;
      && |t.events| == |s.events|
      && t.events[i] == s.events[i].(isSaved := true)
      && (forall j :: 0 <= j < |s.events| && j != i ==> t.events[j] == s.events[j])
      && t.stored == (if fetchOk then UpdateById(s.stored, event) else s.stored)
  {
    match EventIndex(s.events, event.id)
    case Some(i) =>
      State(s.events[i := s.events[i].(isSaved := true)],
            if fetchOk then UpdateById(s.stored, event) else s.stored)
    case None =>
      State(s.events + [event.(isSaved := true)], Insert(s.stored, event.(isSaved := true)))
  }

  /**
   * `removeEvent`. A known id: the first matching entry stays in memory with its
   * flag cleared, and the first stored record with that id is deleted when the
   * by-id fetch succeeds. An unknown id: nothing changes.
   */
  function Remove(s: State, event: Event, fetchOk: bool): (t: State)
    ensures EventIndex(s.events, event.id).None? ==> t == s
    ensures EventIndex(s.events, event.id).Some? ==>
      var i := EventIndex(s.events, event.id).value;
      && |t.events| == |s.events|
      && t.events[i] == s.events[i].(isSaved := false)
      && (forall j :: 0 <= j < |s.events| && j != i ==> t.events[j] == s.events[j])
      && t.stored == (if fetchOk then DeleteById(s.stored, event.id) else s.stored)
  {
    match EventIndex(s.events, event.id)
    case Some(i) =>
      State(s.events[i := s.events[i].(isSaved := false)],
            if fetchOk then DeleteById(s.stored, event.id) else s.stored)
    case None => s
  }

  /** Inserting each of `events` in turn, with no duplicate check. */
  function InsertAll(stored: seq<Record>, events: seq<Event>): (r: seq<Record>)
    ensures |r| == |stored| + |events| && r[..|stored|] == stored
    ensures forall k :: 0 <= k < |events| ==> r[|stored| + k] == UpdateEntity(BlankEntity, events[k])
  {
    if |events| == 0 then stored
    else Insert(InsertAll(stored, events[..|events| - 1]), events[|events| - 1])
  }

  /**
   * `loadSampleData`: when `events` is non-empty nothing happens; otherwise every
   * seed event is inserted and the events are reloaded.
   */
  function LoadSample(s: State, samples: seq<Event>, fetchOk: bool, freshId: nat -> Uuid, clock: nat -> Date): (t: State)
    ensures |s.events| != 0 ==> t == s
    ensures |s.events| == 0 ==> t.stored == InsertAll(s.stored, samples)
    ensures |s.events| == 0 && fetchOk ==> t.events == Loaded(t.stored, freshId, clock)
    ensures |s.events| == 0 && !fetchOk ==> t.events == []
  {
    if |s.events| != 0 then s
    else Load(State(s.events, InsertAll(s.stored, samples)), fetchOk, freshId, clock)
  }

  class EventStore {
    var events: seq<Event>
    var stored: seq<Record>

    /**
     * The static `sampleEvents`: initialized once per process, so every
     * `loadSampleData` call inserts the same two ids and dates. The app runs one
     * store per process, so the list is fixed when the store is built.
     */
    const sampleEvents: seq<Event>

    /** The store's current state as a value. */
    function Snapshot(): (s: State)
      reads this
      ensures s.events == events && s.stored == stored
    {
      State(events, stored)
    }

    /**
     * `init()`: open the persistent store holding `persisted`, then `loadEvents()`.
     * `techNow`, `jazzNow` and `techId`, `jazzId` are the two `Date()`s and two
     * `UUID()`s that the seed list's one-time initializer draws.
     */
    constructor (persisted: seq<Record>, fetchOk: bool, freshId: nat -> Uuid, clock: nat -> Date,
                 techNow: Date, jazzNow: Date, techId: Uuid, jazzId: Uuid)
      ensures Snapshot() == Load(State([], persisted), fetchOk, freshId, clock)
      ensures sampleEvents == SampleEvents(techNow, jazzNow, techId, jazzId)
    {
      events := [];
      stored := persisted;
      sampleEvents := SampleEvents(techNow, jazzNow, techId, jazzId);
      new;
      LoadEvents(fetchOk, freshId, clock);
    }

    method LoadEvents(fetchOk: bool, freshId: nat -> Uuid, clock: nat -> Date)
      modifies this
      ensures Snapshot() == Load(old(Snapshot()), fetchOk, freshId, clock)
    {
      if fetchOk {
        events := Loaded(stored, freshId, clock);
      }
    }

    method SaveEvent(event: Event, fetchOk: bool)
      modifies this
      ensures Snapshot() == Save(old(Snapshot()), event, fetchOk)
    {
      var found := EventIndex(events, event.id);
      if found.Some? {
        var index := found.value;
        events := events[index := events[index].(isSaved := true)];
        UpdateEventInCoreData(event, fetchOk);
      } else {
        var newEvent := event.(isSaved := true);
        events := events + [newEvent];
        SaveToCoreData(newEvent);
      }
    }

    method RemoveEvent(event: Event, fetchOk: bool)
      modifies this
      ensures Snapshot() == Remove(old(Snapshot()), event, fetchOk)
    {
      var found := EventIndex(events, event.id);
      if found.Some? {
        var index := found.value;
        events := events[index := events[index].(isSaved := false)];
        DeleteFromCoreData(event.id, fetchOk);
      }
    }

    /** `loadSampleData()`, over the store's one seed list. */
    method LoadSampleData(fetchOk: bool, freshId: nat -> Uuid, clock: nat -> Date)
      modifies this
      ensures Snapshot() == LoadSample(old(Snapshot()), sampleEvents, fetchOk, freshId, clock)
    {
      if |events| != 0 {
        return;
      }
      for i := 0 to |sampleEvents|
        invariant events == old(events)
        invariant stored == InsertAll(old(stored), sampleEvents[..i])
      {
        assert sampleEvents[..i + 1][..i] == sampleEvents[..i];
        SaveToCoreData(sampleEvents[i]);
      }
      assert sampleEvents[..|sampleEvents|] == sampleEvents;
      LoadEvents(fetchOk, freshId, clock);
    }

    /** `saveToCoreData`. */
    method SaveToCoreData(event: Event)
      modifies this`stored
      ensures stored == Insert(old(stored), event)
    {
      var entity := BlankEntity;
      entity := UpdateEntity(entity, event);
      stored := stored + [entity];
    }

    /** `updateEventInCoreData`: a failed fetch or a missing record leaves storage alone. */
    method UpdateEventInCoreData(event: Event, fetchOk: bool)
      modifies this`stored
      ensures stored == if fetchOk then UpdateById(old(stored), event) else old(stored)
    {
      if fetchOk {
        var found := RecordIndex(stored, event.id);
        if found.Some? {
          var k := found.value;
          stored := stored[k := UpdateEntity(stored[k], event)];
        }
      }
    }

    /** `deleteFromCoreData`: a failed fetch or a missing record leaves storage alone. */
    method DeleteFromCoreData(eventId: Uuid, fetchOk: bool)
      modifies this`stored
      ensures stored == if fetchOk then DeleteById(old(stored), eventId) else old(stored)
    {
      if fetchOk {
        var found := RecordIndex(stored, eventId);
        if found.Some? {
          var k := found.value;
          stored := stored[..k] + stored[k + 1..];
        }
      }
    }
  }
}
