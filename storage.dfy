/**
 * The persistent side of Models/EventStore.swift: the `EventEntity` attribute
 * layout, the entity writer `updateEventEntity`, the record-to-event mapping of
 * `loadEvents`, and the three storage writes `saveToCoreData`,
 * `updateEventInCoreData` and `deleteFromCoreData`.
 *
 * The managed-object context is modelled as the sequence of records it would
 * return from an unsorted fetch, in insertion order. A fetch "by id" is a linear
 * search for the first record whose id matches, as `fetch(request).first` does.
 */
module Storage {
  import opened Wrappers
  import opened Search
  import opened Events

  /**
   * An `EventEntity`: every attribute but the two coordinates is optional, and the
   * event's `description` is stored as `eventDescription`. There is no `isSaved`.
   */
  datatype Record = Record(
    id: Option<Uuid>,
    title: Option<string>,
    eventDescription: Option<string>,
    date: Option<Date>,
    locationName: Option<string>,
    latitude: real,
    longitude: real,
    category: Option<string>,
    imageName: Option<string>)

  /** A newly inserted `EventEntity(context:)`: optional attributes nil, scalars 0. */
  const BlankEntity: Record := Record(None, None, None, None, None, 0.0, 0.0, None, None)

  /** `updateEventEntity(_:with:)`: overwrite all nine attributes of `entity` from `event`. */
  function UpdateEntity(entity: Record, event: Event): (r: Record)
    ensures r.id == Some(event.id)
    ensures r.title == Some(event.title) && r.eventDescription == Some(event.description)
    ensures r.date == Some(event.date) && r.locationName == Some(event.locationName)
    ensures r.latitude == event.latitude && r.longitude == event.longitude
    ensures r.category == Some(event.category) && r.imageName == Some(event.imageName)
  {
    entity.(id := Some(event.id),
            title := Some(event.title),
            eventDescription := Some(event.description),
            date := Some(event.date),
            locationName := Some(event.locationName),
            latitude := event.latitude,
            longitude := event.longitude,
            category := Some(event.category),
            imageName := Some(event.imageName))
  }

  /**
   * The closure `loadEvents` maps over fetched entities: nil strings become "",
   * a nil id becomes `freshId` (a new `UUID()`), a nil date becomes `now`
   * (`Date()`), coordinates are copied, and the result is marked saved.
   */
  function ToEvent(entity: Record, freshId: Uuid, now: Date): (e: Event)
    ensures e.isSaved
    ensures e.id == entity.id.GetOr(freshId) && e.date == entity.date.GetOr(now)
    ensures e.latitude == entity.latitude && e.longitude == entity.longitude
    ensures e.title == entity.title.GetOr("")
    ensures e.description == entity.eventDescription.GetOr("")
    ensures e.locationName == entity.locationName.GetOr("")
    ensures e.category == entity.category.GetOr("")
    ensures e.imageName == entity.imageName.GetOr("")
  {
    Event(entity.id.GetOr(freshId),
          entity.title.GetOr(""),
          entity.eventDescription.GetOr(""),
          entity.date.GetOr(now),
          entity.locationName.GetOr(""),
          entity.latitude,
          entity.longitude,
          entity.category.GetOr(""),
          entity.imageName.GetOr(""),
          true)
  }

  /**
   * Every write copies the whole persisted field set: the written record does not
   * depend on what the entity held before, nor on the event's `isSaved`; and
   * reading it back gives the event, marked saved, whatever the load defaults are.
   */
  lemma WriteIsComplete(a: Record, b: Record, e: Event, saved: bool, freshId: Uuid, now: Date)
    ensures UpdateEntity(a, e) == UpdateEntity(b, e.(isSaved := saved))
    ensures ToEvent(UpdateEntity(a, e), freshId, now) == e.(isSaved := true)
  {
  }

  /**
   * A new `EventEntity(context:)` that nobody has written reads back with every
   * load default: the fresh id, the current time, empty strings, zero coordinates.
   */
  lemma BlankEntityReadsAsDefaults(freshId: Uuid, now: Date)
    ensures ToEvent(BlankEntity, freshId, now) == Event(freshId, "", "", now, "", 0.0, 0.0, "", "", true)
  {
  }

  /**
   * The `EventEntity` layout holds exactly the nine attributes the writer fills: an
   * entity whose optional attributes are all present is reproduced by loading it
   * and writing the loaded event back into any entity.
   */
  lemma LayoutRoundTrip(entity: Record, target: Record, freshId: Uuid, now: Date)
    requires entity.id.Some? && entity.title.Some? && entity.eventDescription.Some?
    requires entity.date.Some? && entity.locationName.Some? && entity.category.Some?
    requires entity.imageName.Some?
    ensures UpdateEntity(target, ToEvent(entity, freshId, now)) == entity
  {
  }

  /** No two stored records carry the same id. */
  predicate DistinctRecordIds(stored: seq<Record>) {
    forall i, j :: 0 <= i < j < |stored| ==> stored[i].id != stored[j].id
  }

  /** Distinct record ids mean at most one record per id. */
  lemma {:induction false} DistinctRecordIdsCount(stored: seq<Record>, id: Uuid)
    requires DistinctRecordIds(stored)
    ensures CountId(stored, id) <= 1
  {
    if |stored| > 0 {
      assert DistinctRecordIds(stored[1..]) by {
        forall i, j | 0 <= i < j < |stored[1..]| ensures stored[1..][i].id != stored[1..][j].id {
          assert stored[1..][i] == stored[i + 1] && stored[1..][j] == stored[j + 1];
        }
      }
      DistinctRecordIdsCount(stored[1..], id);
      if stored[0].id == Some(id) {
        forall j | 0 <= j < |stored[1..]| ensures stored[1..][j].id != Some(id) {
          assert stored[1..][j] == stored[j + 1];
        }
        CountIdZeroIffAbsent(stored[1..], id);
      }
    }
  }

  /** The index of the first stored record whose id is `id` (the by-id fetch's `.first`). */
  function RecordIndex(stored: seq<Record>, id: Uuid): (r: Option<nat>)
    ensures r.Some? ==> r.value < |stored| && stored[r.value].id == Some(id)
    ensures r.Some? ==> forall j :: 0 <= j < r.value ==> stored[j].id != Some(id)
    ensures r.None? <==> forall j :: 0 <= j < |stored| ==> stored[j].id != Some(id)
  {
    FirstIndex(stored, (x: Record) => x.id == Some(id))
  }

  /** `saveToCoreData`: a new entity, filled from `event`, joins the context. */
  function Insert(stored: seq<Record>, event: Event): (r: seq<Record>)
    ensures |r| == |stored| + 1 && r[..|stored|] == stored
    ensures r[|stored|] == UpdateEntity(BlankEntity, event)
    ensures forall freshId, now :: ToEvent(r[|stored|], freshId, now) == event.(isSaved := true)
  {
    stored + [UpdateEntity(BlankEntity, event)]
  }

  /**
   * `updateEventInCoreData` once its fetch succeeded: the first record with the
   * event's id is overwritten from the event; with no such record nothing changes.
   */
  function UpdateById(stored: seq<Record>, event: Event): (r: seq<Record>)
    ensures |r| == |stored|
    ensures RecordIndex(stored, event.id).None? ==> r == stored
    ensures RecordIndex(stored, event.id).Some? ==>
      var k := RecordIndex(stored, event.id).value;
      && r[k] == UpdateEntity(stored[k], event)
      && forall j :: 0 <= j < |stored| && j != k ==> r[j] == stored[j]
  {
    match RecordIndex(stored, event.id)
    case None => stored
    case Some(k) => stored[k := UpdateEntity(stored[k], event)]
  }

  /**
   * `deleteFromCoreData` once its fetch succeeded: the first record with id `id`
   * leaves the context and the others keep their order; with no such record
   * nothing changes.
   */
  function DeleteById(stored: seq<Record>, id: Uuid): (r: seq<Record>)
    ensures RecordIndex(stored, id).None? ==> r == stored
    ensures RecordIndex(stored, id).Some? ==>
      var k := RecordIndex(stored, id).value;
      |r| == |stored| - 1 && r == stored[..k] + stored[k + 1..]
  {
    match RecordIndex(stored, id)
    case None => stored
    case Some(k) => stored[..k] + stored[k + 1..]
  }

  /** How many stored records carry id `id`. */
  function CountId(stored: seq<Record>, id: Uuid): (n: nat)
    ensures n <= |stored|
  {
    if |stored| == 0 then 0
    else (if stored[0].id == Some(id) then 1 else 0) + CountId(stored[1..], id)
  }

  lemma {:induction false} CountIdAppend(a: seq<Record>, b: seq<Record>, id: Uuid)
    ensures CountId(a + b, id) == CountId(a, id) + CountId(b, id)
  {
    if |a| > 0 {
      assert (a + b)[1..] == a[1..] + b;
      CountIdAppend(a[1..], b, id);
    } else {
      assert a + b == b;
    }
  }

  /** A store has a record with id `id` exactly when the count of such records is positive. */
  lemma {:induction false} CountIdZeroIffAbsent(stored: seq<Record>, id: Uuid)
    ensures CountId(stored, id) == 0 <==> RecordIndex(stored, id).None?
  {
    if |stored| > 0 {
      CountIdZeroIffAbsent(stored[1..], id);
      if RecordIndex(stored[1..], id).Some? {
        var k := RecordIndex(stored[1..], id).value;
        assert stored[k + 1].id == Some(id);
      }
      if stored[0].id != Some(id) && RecordIndex(stored[1..], id).None? {
        forall j | 0 <= j < |stored| ensures stored[j].id != Some(id) {
          if j > 0 { assert stored[j] == stored[1..][j - 1]; }
        }
      }
    }
  }

  /** Splitting a store around position `k`. */
  lemma CountIdAround(stored: seq<Record>, k: nat, id: Uuid)
    requires k < |stored|
    ensures CountId(stored, id) ==
      CountId(stored[..k], id) + (if stored[k].id == Some(id) then 1 else 0) + CountId(stored[k + 1..], id)
  {
    assert stored == stored[..k] + ([stored[k]] + stored[k + 1..]);
    CountIdAppend(stored[..k], [stored[k]] + stored[k + 1..], id);
    CountIdAppend([stored[k]], stored[k + 1..], id);
    assert ([stored[k]] + stored[k + 1..])[1..] == stored[k + 1..];
  }

  /** An insert adds exactly one record with the event's id and none with any other id. */
  lemma InsertCount(stored: seq<Record>, event: Event, id: Uuid)
    ensures CountId(Insert(stored, event), id) == CountId(stored, id) + (if id == event.id then 1 else 0)
  {
    CountIdAppend(stored, [UpdateEntity(BlankEntity, event)], id);
  }

  /**
   * An update by id never adds a duplicate or loses a record: every id has as many
   * records afterwards as before, and the first match still sits at the same
   * position and now reads back as the event.
   */
  lemma UpdateByIdKeepsCounts(stored: seq<Record>, event: Event, id: Uuid, freshId: Uuid, now: Date)
    ensures CountId(UpdateById(stored, event), id) == CountId(stored, id)
    ensures RecordIndex(UpdateById(stored, event), event.id) == RecordIndex(stored, event.id)
    ensures RecordIndex(stored, event.id).Some? ==>
      ToEvent(UpdateById(stored, event)[RecordIndex(stored, event.id).value], freshId, now) == event.(isSaved := true)
  {
    var r := UpdateById(stored, event);
    match RecordIndex(stored, event.id)
    case None =>
    case Some(k) =>
      CountIdAround(stored, k, id);
      CountIdAround(r, k, id);
      assert r[..k] == stored[..k];
      assert r[k + 1..] == stored[k + 1..];
      assert r[k].id == Some(event.id);
      assert forall j :: 0 <= j < k ==> r[j] == stored[j];
  }

  /**
   * A delete by id removes exactly one record with that id when there is one, and
   * leaves the count of every other id alone.
   */
  lemma DeleteByIdCount(stored: seq<Record>, id: Uuid, other: Uuid)
    ensures RecordIndex(stored, id).Some? ==> CountId(DeleteById(stored, id), id) == CountId(stored, id) - 1
    ensures other != id ==> CountId(DeleteById(stored, id), other) == CountId(stored, other)
    ensures RecordIndex(stored, id).None? ==> DeleteById(stored, id) == stored
  {
    match RecordIndex(stored, id)
    case None =>
    case Some(k) =>
      CountIdAround(stored, k, id);
      CountIdAround(stored, k, other);
      CountIdAppend(stored[..k], stored[k + 1..], id);
      CountIdAppend(stored[..k], stored[k + 1..], other);
  }

  /** Deleting the only record with an id leaves no record with that id. */
  lemma DeleteOnlyCopy(stored: seq<Record>, id: Uuid)
    requires CountId(stored, id) == 1
    ensures RecordIndex(DeleteById(stored, id), id).None?
  {
    CountIdZeroIffAbsent(stored, id);
    DeleteByIdCount(stored, id, id);
    CountIdZeroIffAbsent(DeleteById(stored, id), id);
  }
}
