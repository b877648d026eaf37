# Local event finder: the event store

This project models the event store of the LocalEventFinder iOS app in Dafny.
The store is `EventStore` in `Models/EventStore.swift`, and its value type is
`Event` in `Models/Event.swift`. The store holds a published array of events and
keeps it in step with a Core Data table of `EventEntity` records. It loads every
record into memory. It saves and removes events by id, and it writes each change
through to storage. When memory is empty it seeds two sample events.

The model follows the code, quirks included:

- `saveEvent` on an id that is already in memory only sets that entry's
  `isSaved`. It does not replace the entry's other fields, but it overwrites the
  stored record from the argument. Memory and storage can therefore disagree.
- `removeEvent` keeps the entry in memory with `isSaved == false`.
- When the fetch inside `loadEvents` fails, `events` is left as it was.

Files:

- `wrappers.dfy`: `Option`, standing in for Swift optionals and `??`.
- `search.dfy`: `FirstIndex`, the linear search of `firstIndex(where:)`.
- `events.dfy`: the `Event` value, `Uuid`, `Date`, `Coordinate2D` and the seed
  list `SampleEvents`.
- `storage.dfy`: the `EventEntity` layout as `Record`. It also holds the entity
  writer `UpdateEntity`, the load mapping `ToEvent`, and the three storage writes
  `Insert`, `UpdateById` and `DeleteById`, plus counting lemmas.
- `store.dfy`: each store operation as a function on a `State` snapshot, and the
  class `EventStore`. The class has the fields `events` and `stored`, and its
  methods are proved to perform exactly those transitions.
- `store_properties.dfy`: lemmas about single operations and about sequences of
  operations. It includes the invariant `Inv`: ids are unique in memory and in
  storage, and every stored id has an in-memory entry. Save and remove keep it
  whether or not their fetch succeeds. Load keeps it, and a successful load over
  storage with present, distinct ids establishes it. Seeding keeps it only when
  its reload succeeds: a failed reload leaves stored seeds with no in-memory entry
  (`FailedSeedReloadBreaksInv`).

Platform inputs are parameters:
- `fetchOk` says whether a context fetch succeeds.
- `freshId(i)` is the `UUID()` drawn for the i-th fetched record when that record
  has no id.
- `clock(i)` is the `Date()` drawn for the i-th fetched record when that record
  has no date.
- `techNow`, `jazzNow`, `techId` and `jazzId` are the two `Date()`s and two
  `UUID()`s that the seed list's one-time initializer draws. They are passed to
  the constructor, which fixes the class constant `sampleEvents`, so every
  `LoadSampleData` call inserts the same seed list.

## Model

| member | source | states |
|---|---|---|
| Search.FirstIndex | Models/EventStore.swift:53 | returns the first index whose element satisfies the predicate; every earlier element fails it; `None` exactly when no element satisfies it |
| Store.EventIndex | Models/EventStore.swift:53 | the first in-memory entry with the given id; `None` exactly when no entry has that id |
| Storage.RecordIndex | Models/EventStore.swift:93-97 | the first stored record whose id is the given one (the by-id fetch's `.first`); `None` exactly when no record has it |
| Events.SampleEvents | Models/Event.swift:21-40 | exactly two seed events: "Tech Conference 2023" / "Technology", then "Jazz Night" / "Music"; each date is 7 or 3 days after that entry's own `Date()`; both start with `isSaved == false` |
| Events.SampleIdsDistinct | Models/Event.swift:22-31 | the two separately generated seed ids give a seed list with distinct ids |
| Events.FlagIsPartOfEquality | Models/Event.swift:4-14 | equality covers `isSaved`: an event and its flag-flipped copy are unequal |
| Events.NewEventIsUnsaved | Models/Event.swift:4-18 | an event built with the memberwise initializer starts with `isSaved == false`, and its `coordinate` pairs its latitude and longitude |
| Storage.UpdateEntity | Models/EventStore.swift:120-130 | all nine persisted attributes are written from the event; `description` goes to `eventDescription` |
| Storage.ToEvent | Models/EventStore.swift:32-45 | the loaded event is marked saved; each present attribute is copied and each missing one takes its default (the fresh id, the current time, or "" for strings); `eventDescription` goes to `description`; coordinates are copied |
| Storage.WriteIsComplete | Models/EventStore.swift:120-130 | a written record depends neither on the entity's previous content nor on `isSaved`, which is never persisted; reading it back gives the event with `isSaved == true` |
| Storage.BlankEntityReadsAsDefaults | Models/EventStore.swift:87 | a new `EventEntity(context:)` with nothing written yet reads back with every load default: the fresh id, the current time, empty strings and zero coordinates |
| Storage.LayoutRoundTrip | Models/EventStore.swift:144-154 | the `EventEntity` layout holds exactly the nine attributes the writer fills: an entity with every optional attribute present is reproduced by loading it and writing it back |
| Storage.DistinctRecordIdsCount | Models/EventStore.swift:97 | when stored ids are pairwise distinct, every by-id fetch matches at most one record |
| Storage.Insert | Models/EventStore.swift:86-90 | one record, a blank entity filled from the event, is appended after the unchanged existing ones; it reads back as the event whatever the load defaults are |
| Storage.UpdateById | Models/EventStore.swift:92-104 | only the first record with the event's id is overwritten and the length is kept; with no such record storage is unchanged |
| Storage.DeleteById | Models/EventStore.swift:106-118 | only the first record with the id is removed and the others keep their order; with no such record storage is unchanged |
| Storage.CountIdZeroIffAbsent | Models/EventStore.swift:97 | the by-id fetch finds nothing exactly when no stored record has that id |
| Storage.InsertCount | Models/EventStore.swift:86-90 | an insert adds exactly one record with the event's id and none with any other id |
| Storage.UpdateByIdKeepsCounts | Models/EventStore.swift:92-100 | an update adds no duplicate and loses no record, for every id; the first match stays in place and reads back as the event |
| Storage.DeleteByIdCount | Models/EventStore.swift:106-114 | a delete removes exactly one record with the id when one exists and no record of any other id |
| Storage.DeleteOnlyCopy | Models/EventStore.swift:106-114 | deleting the only record with an id leaves no record with that id |
| Store.Loaded | Models/EventStore.swift:32-45 | a successful fetch gives one event per stored record, in fetch order, each mapped by `ToEvent` with its own fresh id and time, and marked saved |
| Store.Load | Models/EventStore.swift:27-48 | storage is untouched; a successful fetch replaces `events` with the loaded records; a failed fetch leaves `events` unchanged |
| Store.Save | Models/EventStore.swift:51-62 | a new id appends a saved copy and inserts it; a known id sets only the first match's flag and keeps its other fields, and updates storage by id when the fetch succeeds |
| Store.Remove | Models/EventStore.swift:64-69 | a known id clears only the first match's flag, keeps the length, and deletes by id when the fetch succeeds; an unknown id changes nothing |
| Store.InsertAll | Models/EventStore.swift:78-80 | inserting a list appends one record per event, in order, after the unchanged existing records, with no duplicate check |
| Store.LoadSample | Models/EventStore.swift:73-82 | a no-op on memory and storage when `events` is non-empty; otherwise every seed is inserted and `events` is reloaded from storage |
| Store.EventStore.constructor | Models/EventStore.swift:12-23 | starts with empty `events` over the persisted records, then performs `Load`; fixes the seed list once from its draws |
| Store.EventStore.LoadEvents | Models/EventStore.swift:27-48 | the new state is `Load` of the old one |
| Store.EventStore.SaveEvent | Models/EventStore.swift:51-62 | the new state is `Save` of the old one |
| Store.EventStore.RemoveEvent | Models/EventStore.swift:64-69 | the new state is `Remove` of the old one |
| Store.EventStore.LoadSampleData | Models/EventStore.swift:73-82 | the new state is `LoadSample` of the old one over the store's fixed seed list; the loop invariant says the first i seeds have been inserted |
| Store.EventStore.SaveToCoreData | Models/EventStore.swift:86-90 | storage becomes `Insert` of the old storage |
| Store.EventStore.UpdateEventInCoreData | Models/EventStore.swift:92-104 | storage becomes `UpdateById` of the old storage when the fetch succeeds, and is unchanged otherwise |
| Store.EventStore.DeleteFromCoreData | Models/EventStore.swift:106-118 | storage becomes `DeleteById` of the old storage when the fetch succeeds, and is unchanged otherwise |
| StoreProperties.EventIndexSameIds | Models/EventStore.swift:53 | changing only flags, not ids, does not move the first match of an id |
| StoreProperties.SaveNew | Models/EventStore.swift:56-60 | saving an id absent from memory appends exactly one saved copy after the unchanged earlier entries, and adds exactly one stored record with that id |
| StoreProperties.SaveKeepsIdsDistinct | Models/EventStore.swift:51-62 | if ids in memory were distinct before a save, they are distinct after it |
| StoreProperties.SavePreservesInv | Models/EventStore.swift:51-62 | a save keeps ids unique in memory and in storage, and every stored id with an in-memory entry, whether or not its fetch succeeds |
| StoreProperties.RemovePreservesInv | Models/EventStore.swift:64-69 | a remove keeps the same invariant, whether or not its fetch succeeds |
| StoreProperties.LoadPreservesInv | Models/EventStore.swift:27-48 | a successful load over storage with present, distinct ids establishes the invariant; a failed load keeps it |
| StoreProperties.LoadSamplePreservesInv | Models/EventStore.swift:73-82 | seeding with distinct seed ids followed by a successful reload keeps the invariant |
| StoreProperties.SaveExisting | Models/EventStore.swift:53-55 | saving a known id keeps the length and sets the flag; every other field of the entry is kept; no id gains or loses stored records; the first stored match reads back as the argument |
| StoreProperties.SaveTwice | Models/EventStore.swift:51-62 | after two saves of one new id, memory holds the first save's fields, storage holds one record with that id, and the record reads back as the second save |
| StoreProperties.RemoveThenReload | Models/EventStore.swift:64-69 | removing an event with one stored record clears its flag in place and deletes the record; a reload then has no event with that id |
| StoreProperties.ResaveAfterRemove | Models/EventStore.swift:53-55 | re-saving a removed event sets its flag back but does not re-insert it: storage has no record with its id |
| StoreProperties.SaveNewThenReload | Models/EventStore.swift:56-60 | after saving a new event, a reload gives that event back, marked saved, as the last entry |
| StoreProperties.LoadInserted | Models/EventStore.swift:77-81 | reloading records written from a list of events gives that list back, every entry marked saved |
| StoreProperties.LoadSampleFromEmpty | Models/EventStore.swift:73-82 | from empty memory and storage: exactly the two seed events, in order and saved, with two stored records and distinct ids; a second call changes nothing |
| StoreProperties.LoadSampleAfterFailedFetch | Models/EventStore.swift:73-82 | when the reload after seeding fails, memory stays empty and a second call inserts every seed event again |
| StoreProperties.FailedSeedReloadBreaksInv | Models/EventStore.swift:73-81 | from empty memory and storage, which satisfy the invariant, seeding whose reload fails breaks it: the seeds are stored but memory stays empty |
| StoreProperties.Walkthrough | Models/EventStore.swift:51-82 | seeding gives 2 entries; saving a new event gives 3; removing it clears its flag; a reload then has 2 entries |

## Left out

- Core Data plumbing: `NSPersistentContainer`, `loadPersistentStores`, fetch requests, predicates, `hasChanges` and `context.save` (Models/EventStore.swift:13-19, 132-140). The context is modelled as the sequence of records its fetches return. A failing `context.save` is only logged, and the context keeps its pending change, so the view of storage does not change. The model therefore leaves commit failure out.
- Fetch order: an unsorted Core Data fetch has no guaranteed order. The model fixes it as insertion order, with deletions keeping the relative order of the rest.
- Entity identity: `EventEntity` objects are mutated in place by `updateEventEntity`. The model replaces a record value in the sequence instead. The writer overwrites every attribute, so no aliasing question arises.
- `Models/CoreDataStack.swift` is not part of this model. It builds the schema and a singleton that `EventStore` does not use, and its failures go to `fatalError`.
- Floating point: `Double` coordinates are modelled as `real`, and `Date` as real seconds since the reference date. The store only copies them.
- `UUID()` and `Date()` are parameters, not generated. Each call in the source gets its own parameter or oracle entry. The static seed list is built once and its draws are shared by every seeding.
- The static `sampleEvents` is process-wide. The model keeps it as a constant of the one `EventStore` instance, which is all the app creates.
- `Event` equality (`FlagIsPartOfEquality`) is modelled as datatype equality. It does not capture IEEE `Double` comparison (NaN is unequal to itself) or Swift's comparison of `String`s by Unicode canonical equivalence.
- `@Published` / `ObservableObject` change notification is reactive UI machinery and is not modelled.
- `Views/ContentView.swift` and `LocalEventFinderApp.swift` are user interface only and are not part of this model. The app's startup "if empty then load sample data" check repeats the guard inside `loadSampleData`.
- `Event.Coordinate` (the computed `coordinate`) is modelled without a contract. It only pairs the two coordinates.
