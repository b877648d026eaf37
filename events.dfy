/**
 * The `Event` value of Models/Event.swift: nine stored fields plus the in-memory
 * `isSaved` flag, the computed `coordinate`, and the seed list `sampleEvents`.
 *
 * Foundation's `UUID`, `Date` and `Double` are only compared and copied by the
 * store, so they are modelled as opaque values: a `Uuid` wraps a number, a `Date`
 * counts seconds since the reference date, and coordinates are `real`s.
 */
module Events {

  /** A universally unique identifier; the store only compares two of them for equality. */
  datatype Uuid = Uuid(bits: nat)

  /** A point in time, as seconds since Foundation's reference date. */
  datatype Date = Date(secondsSinceReference: real)

  /** Foundation's `Date.addingTimeInterval`. */
  function AddingTimeInterval(d: Date, seconds: real): (r: Date)
    ensures r.secondsSinceReference - d.secondsSinceReference == seconds
  {
    Date(d.secondsSinceReference + seconds)
  }

  /** CoreLocation's `CLLocationCoordinate2D`. */
  datatype Coordinate2D = Coordinate2D(latitude: real, longitude: real)

  /**
   * An event as the in-memory collection holds it. Swift's synthesized `Equatable`
   * compares every stored property, `isSaved` included; here that comparison is
   * datatype equality. `isSaved` defaults to `false`, as in the struct's memberwise
   * initializer.
   */
  datatype Event = Event(
    id: Uuid,
    title: string,
    description: string,
    date: Date,
    locationName: string,
    latitude: real,
    longitude: real,
    category: string,
    imageName: string,
    isSaved: bool := false)
  {
    /** The computed `coordinate` property. */
    function Coordinate(): Coordinate2D {
      Coordinate2D(latitude, longitude)
    }
  }

  /** No two events of `events` share an id. */
  predicate DistinctIds(events: seq<Event>) {
    forall i, j :: 0 <= i < j < |events| ==> events[i].id != events[j].id
  }

  const Day: real := 86400.0

  /**
   * The static `sampleEvents`. Its initializer evaluates `Date()` and `UUID()` once
   * per entry, so the two current times and the two generated ids are parameters.
   */
  function SampleEvents(techNow: Date, jazzNow: Date, techId: Uuid, jazzId: Uuid): (r: seq<Event>)
    ensures |r| == 2
    ensures r[0].id == techId && r[1].id == jazzId
    ensures r[0].title == "Tech Conference 2023" && r[1].title == "Jazz Night"
    ensures r[0].category == "Technology" && r[1].category == "Music"
    ensures r[0].date == AddingTimeInterval(techNow, Day * 7.0)
    ensures r[1].date == AddingTimeInterval(jazzNow, Day * 3.0)
    ensures forall i :: 0 <= i < |r| ==> !r[i].isSaved
  {
    [ Event(techId,
            "Tech Conference 2023",
            "Annual technology conference with industry leaders.",
            AddingTimeInterval(techNow, Day * 7.0),
            "Convention Center",
            37.3346,
            -122.0090,
            "Technology",
            "event1"),
      Event(jazzId,
            "Jazz Night",
            "An evening of smooth jazz with local artists.",
            AddingTimeInterval(jazzNow, Day * 3.0),
            "Downtown Club",
            37.3323,
            -122.0112,
            "Music",
            "event2") ]
  }

  /** The two `UUID()` calls give distinct ids, so the seed list has distinct ids. */
  lemma SampleIdsDistinct(techNow: Date, jazzNow: Date, techId: Uuid, jazzId: Uuid)
    requires techId != jazzId
    ensures DistinctIds(SampleEvents(techNow, jazzNow, techId, jazzId))
  {
  }

  /**
   * The memberwise initializer leaves `isSaved` false, and `coordinate` pairs the
   * stored latitude and longitude.
   */
  lemma NewEventIsUnsaved(id: Uuid, title: string, description: string, date: Date,
                          locationName: string, latitude: real, longitude: real,
                          category: string, imageName: string)
    ensures var e := Event(id, title, description, date, locationName, latitude, longitude, category, imageName);
      && !e.isSaved
      && e.Coordinate() == Coordinate2D(latitude, longitude)
  {
  }

  /** Equality covers `isSaved`: flipping the flag gives a different event. */
  lemma FlagIsPartOfEquality(e: Event)
    ensures e.(isSaved := !e.isSaved) != e
    ensures e.(isSaved := true) == e <==> e.isSaved
  {
  }
}
