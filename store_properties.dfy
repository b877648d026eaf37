/**
 * What the event store's operations guarantee, and where memory and storage part
 * ways, stated over the `State` transitions of module Store.
 */
module StoreProperties {
  import opened Wrappers
  import opened Events
  import opened Storage
  import opened Store

  /** Two arrays with the same ids position by position give the same first match. */
  lemma EventIndexSameIds(a: seq<Event>, b: seq<Event>, id: Uuid)
    requires |a| == |b|
    requires forall j :: 0 <= j < |a| ==> a[j].id == b[j].id
    ensures EventIndex(a, id) == EventIndex(b, id)
  {
  }

  /** Every stored record carries an id and no two stored records share one. */
  predicate StorageWellFormed(stored: seq<Record>) {
    && (forall k :: 0 <= k < |stored| ==> stored[k].id.Some?)
    && DistinctRecordIds(stored)
  }

  /** Every stored record's id has an in-memory entry. */
  predicate IdsKnown(events: seq<Event>, stored: seq<Record>) {
    forall k :: 0 <= k < |stored| ==> stored[k].id.Some? && EventIndex(events, stored[k].id.value).Some?
  }

  /**
   * Id uniqueness across memory and storage: in-memory ids are distinct, stored
   * ids are present and distinct, and every stored id has an in-memory entry.
   * The converse, that every saved entry has a stored record, is not kept by the
   * store: see ResaveAfterRemove.
   */
  predicate Inv(s: State) {
    && DistinctIds(s.events)
    && StorageWellFormed(s.stored)
    && IdsKnown(s.events, s.stored)
  }

  /** Flag changes in memory do not affect which stored ids have an entry. */
  lemma IdsKnownSameIds(a: seq<Event>, b: seq<Event>, stored: seq<Record>)
    requires |a| == |b| && forall j :: 0 <= j < |a| ==> a[j].id == b[j].id
    requires IdsKnown(a, stored)
    ensures IdsKnown(b, stored)
  {
    forall k | 0 <= k < |stored| ensures EventIndex(b, stored[k].id.value).Some? {
      EventIndexSameIds(a, b, stored[k].id.value);
    }
  }

  /** A stored record needs an in-memory entry, so storage is empty when memory is. */
  lemma IdsKnownNeedsEvents(events: seq<Event>, stored: seq<Record>)
    requires IdsKnown(events, stored)
    ensures |events| == 0 ==> stored == []
  {
    if |stored| > 0 {
      assert EventIndex(events, stored[0].id.value).Some?;
    }
  }

  /** Storage whose ids match a well-formed one position by position is well formed too. */
  lemma SameRecordIdsKeepInv(events: seq<Event>, a: seq<Record>, b: seq<Record>)
    requires |a| == |b| && forall k :: 0 <= k < |a| ==> a[k].id == b[k].id
    requires StorageWellFormed(a) && IdsKnown(events, a)
    ensures StorageWellFormed(b) && IdsKnown(events, b)
  {
  }

  /** An update by id rewrites the matching record with the id it already had. */
  lemma UpdateByIdKeepsIds(stored: seq<Record>, e: Event)
    ensures |UpdateById(stored, e)| == |stored|
    ensures forall k :: 0 <= k < |stored| ==> UpdateById(stored, e)[k].id == stored[k].id
  {
  }

  /** Appending an event with a new id, and its record, keeps every stored id known. */
  lemma IdsKnownAppend(events: seq<Event>, stored: seq<Record>, x: Event, rec: Record)
    requires IdsKnown(events, stored) && rec.id == Some(x.id)
    ensures IdsKnown(events + [x], stored + [rec])
  {
    var es, rs := events + [x], stored + [rec];
    forall k | 0 <= k < |rs| ensures rs[k].id.Some? && EventIndex(es, rs[k].id.value).Some? {
      if k < |stored| {
        var i := EventIndex(events, stored[k].id.value).value;
        assert es[i] == events[i] && rs[k] == stored[k];
      } else {
        assert es[|events|].id == rs[k].id.value;
      }
    }
  }

  /** Removing one stored record keeps storage well formed and its ids known. */
  lemma RemoveRecordKeepsInv(events: seq<Event>, stored: seq<Record>, d: nat)
    requires d < |stored| && StorageWellFormed(stored) && IdsKnown(events, stored)
    ensures StorageWellFormed(stored[..d] + stored[d + 1..]) && IdsKnown(events, stored[..d] + stored[d + 1..])
  {
    var r := stored[..d] + stored[d + 1..];
    assert forall m :: 0 <= m < |r| ==> r[m] == stored[if m < d then m else m + 1];
  }

  /** A save of a new id keeps the invariant. */
  lemma SaveNewPreservesInv(s: State, e: Event, fetchOk: bool)
    requires Inv(s) && EventIndex(s.events, e.id).None?
    ensures Inv(Save(s, e, fetchOk))
  {
    var t := Save(s, e, fetchOk);
    var n := |s.stored|;
    SaveKeepsIdsDistinct(s, e, fetchOk);
    forall k | 0 <= k < n ensures s.stored[k].id != Some(e.id) {
      assert EventIndex(s.events, s.stored[k].id.value).Some?;
    }
    IdsKnownAppend(s.events, s.stored, e.(isSaved := true), t.stored[n]);
    forall i, j | 0 <= i < j < |t.stored| ensures t.stored[i].id != t.stored[j].id {
      assert t.stored[i] == s.stored[i];
      if j < n { assert t.stored[j] == s.stored[j]; }
    }
  }

  /** A save of a known id keeps the invariant: it changes no id in memory or storage. */
  lemma SaveKnownPreservesInv(s: State, e: Event, fetchOk: bool)
    requires Inv(s) && EventIndex(s.events, e.id).Some?
    ensures Inv(Save(s, e, fetchOk))
  {
    var t := Save(s, e, fetchOk);
    SaveKeepsIdsDistinct(s, e, fetchOk);
    UpdateByIdKeepsIds(s.stored, e);
    SameRecordIdsKeepInv(s.events, s.stored, t.stored);
    assert forall j :: 0 <= j < |s.events| ==> t.events[j].id == s.events[j].id;
    IdsKnownSameIds(s.events, t.events, t.stored);
  }

  /** A save keeps ids unique across memory and storage, whether or not its fetch succeeds. */
  lemma SavePreservesInv(s: State, e: Event, fetchOk: bool)
    requires Inv(s)
    ensures Inv(Save(s, e, fetchOk))
  {
    if EventIndex(s.events, e.id).None? {
      SaveNewPreservesInv(s, e, fetchOk);
    } else {
      SaveKnownPreservesInv(s, e, fetchOk);
    }
  }

  /** A remove keeps ids unique across memory and storage, whether or not its fetch succeeds. */
  lemma RemovePreservesInv(s: State, e: Event, fetchOk: bool)
    requires Inv(s)
    ensures Inv(Remove(s, e, fetchOk))
  {
    var t := Remove(s, e, fetchOk);
    if EventIndex(s.events, e.id).Some? {
      assert forall j :: 0 <= j < |s.events| ==> t.events[j].id == s.events[j].id;
      if fetchOk && RecordIndex(s.stored, e.id).Some? {
        RemoveRecordKeepsInv(s.events, s.stored, RecordIndex(s.stored, e.id).value);
      }
      IdsKnownSameIds(s.events, t.events, t.stored);
    }
  }

  /**
   * A successful load over well-formed storage establishes the invariant, since
   * every loaded event takes its record's id; a failed load keeps it.
   */
  lemma LoadPreservesInv(s: State, fetchOk: bool, freshId: nat -> Uuid, clock: nat -> Date)
    ensures StorageWellFormed(s.stored) ==> Inv(Load(s, true, freshId, clock))
    ensures Inv(s) ==> Inv(Load(s, fetchOk, freshId, clock))
  {
    var t := Load(s, true, freshId, clock);
    if StorageWellFormed(s.stored) {
      assert forall k :: 0 <= k < |s.stored| ==> Some(t.events[k].id) == s.stored[k].id;
      forall k | 0 <= k < |t.stored| ensures EventIndex(t.events, t.stored[k].id.value).Some? {
        assert t.events[k].id == t.stored[k].id.value;
      }
    }
  }

  /** Writing events with distinct ids into empty storage gives well-formed storage. */
  lemma InsertAllWellFormed(samples: seq<Event>)
    requires DistinctIds(samples)
    ensures StorageWellFormed(InsertAll([], samples))
  {
    var stored := InsertAll([], samples);
    assert forall k :: 0 <= k < |stored| ==> stored[k].id == Some(samples[k].id);
  }

  /**
   * Seeding with distinct seed ids and a successful reload keeps the invariant.
   * With empty memory the invariant leaves no stored record, so the seeds are the
   * whole store.
   */
  lemma LoadSamplePreservesInv(s: State, samples: seq<Event>, freshId: nat -> Uuid, clock: nat -> Date)
    requires Inv(s) && DistinctIds(samples)
    ensures Inv(LoadSample(s, samples, true, freshId, clock))
  {
    if |s.events| == 0 {
      IdsKnownNeedsEvents(s.events, s.stored);
      InsertAllWellFormed(samples);
      LoadPreservesInv(State(s.events, InsertAll([], samples)), true, freshId, clock);
    }
  }

  /**
   * Saving an event whose id is not in memory appends exactly one saved copy after
   * the unchanged earlier entries, and adds exactly one stored record with that id.
   */
  lemma SaveNew(s: State, e: Event, fetchOk: bool)
    requires EventIndex(s.events, e.id).None?
    ensures var t := Save(s, e, fetchOk);
      && |t.events| == |s.events| + 1
      && t.events[..|s.events|] == s.events
      && t.events[|s.events|] == e.(isSaved := true)
      && |t.stored| == |s.stored| + 1
      && t.stored[..|s.stored|] == s.stored
      && CountId(t.stored, e.id) == CountId(s.stored, e.id) + 1
  {
    InsertCount(s.stored, e.(isSaved := true), e.id);
  }

  /** A save never gives two in-memory entries the same id. */
  lemma SaveKeepsIdsDistinct(s: State, e: Event, fetchOk: bool)
    requires DistinctIds(s.events)
    ensures DistinctIds(Save(s, e, fetchOk).events)
  {
  }

  /**
   * Saving an event whose id is already in memory keeps the array length, sets the
   * first matching entry's flag and keeps all its other fields, and leaves the
   * number of stored records of every id unchanged. When the fetch succeeds and a
   * record exists, the first such record now reads back as the saved event.
   */
  lemma SaveExisting(s: State, e: Event, fetchOk: bool, freshId: Uuid, now: Date)
    requires EventIndex(s.events, e.id).Some?
    ensures var t := Save(s, e, fetchOk);
      var i := EventIndex(s.events, e.id).value;
      && |t.events| == |s.events|
      && t.events[i].isSaved
      && t.events[i].(isSaved := false) == s.events[i].(isSaved := false)
      && |t.stored| == |s.stored|
      && (forall id :: CountId(t.stored, id) == CountId(s.stored, id))
      && (fetchOk && RecordIndex(s.stored, e.id).Some? ==>
            ToEvent(t.stored[RecordIndex(s.stored, e.id).value], freshId, now) == e.(isSaved := true))
  {
    var t := Save(s, e, fetchOk);
    forall id ensures CountId(t.stored, id) == CountId(s.stored, id) {
      UpdateByIdKeepsCounts(s.stored, e, id, freshId, now);
    }
    UpdateByIdKeepsCounts(s.stored, e, e.id, freshId, now);
  }

  /**
   * Two saves of the same id with no earlier copy anywhere: memory keeps the first
   * save's fields, storage holds one record with that id, and it reads back as the
   * second save. With different titles, memory and storage then disagree.
   */
  lemma SaveTwice(s: State, first: Event, second: Event, fetchOk: bool, freshId: Uuid, now: Date)
    requires EventIndex(s.events, first.id).None? && RecordIndex(s.stored, first.id).None?
    requires second.id == first.id
    ensures var t := Save(Save(s, first, fetchOk), second, true);
      && |t.events| == |s.events| + 1
      && t.events[|s.events|] == first.(isSaved := true)
      && |t.stored| == |s.stored| + 1
      && CountId(t.stored, first.id) == 1
      && ToEvent(t.stored[|s.stored|], freshId, now) == second.(isSaved := true)
  {
    var m := Save(s, first, fetchOk);
    SaveNew(s, first, fetchOk);
    CountIdZeroIffAbsent(s.stored, first.id);
    assert m.events[|s.events|].id == second.id;
    assert EventIndex(m.events, second.id) == Some(|s.events|);
    assert m.stored[|s.stored|].id == Some(first.id);
    assert RecordIndex(m.stored, second.id) == Some(|s.stored|);
    SaveExisting(m, second, true, freshId, now);
  }

  /**
   * Removing an event whose only stored record is the one with its id clears the
   * entry's flag in place and leaves no record with that id, so a reload (whose
   * fresh ids never collide with it) holds no event with that id.
   */
  lemma RemoveThenReload(s: State, e: Event, freshId: nat -> Uuid, clock: nat -> Date)
    requires EventIndex(s.events, e.id).Some?
    requires CountId(s.stored, e.id) == 1
    requires forall n :: freshId(n) != e.id
    ensures var t := Remove(s, e, true);
      var i := EventIndex(s.events, e.id).value;
      && |t.events| == |s.events|
      && !t.events[i].isSaved
      && |t.stored| == |s.stored| - 1
      && RecordIndex(t.stored, e.id).None?
      && forall k :: 0 <= k < |Load(t, true, freshId, clock).events| ==> Load(t, true, freshId, clock).events[k].id != e.id
  {
    CountIdZeroIffAbsent(s.stored, e.id);
    DeleteOnlyCopy(s.stored, e.id);
  }

  /**
   * Saving again an event that was removed (still in memory, flag cleared) sets
   * the flag back but does not re-insert it: storage keeps no record with its id.
   */
  lemma ResaveAfterRemove(s: State, e: Event)
    requires EventIndex(s.events, e.id).Some?
    requires CountId(s.stored, e.id) == 1
    ensures var u := Save(Remove(s, e, true), e, true);
      var i := EventIndex(s.events, e.id).value;
      && u.events == s.events[i := s.events[i].(isSaved := true)]
      && |u.stored| == |s.stored| - 1
      && RecordIndex(u.stored, e.id).None?
  {
    var t := Remove(s, e, true);
    var i := EventIndex(s.events, e.id).value;
    CountIdZeroIffAbsent(s.stored, e.id);
    DeleteOnlyCopy(s.stored, e.id);
    EventIndexSameIds(s.events, t.events, e.id);
    assert t.events[i := t.events[i].(isSaved := true)] == s.events[i := s.events[i].(isSaved := true)];
  }

  /** Saving a new event and reloading gives back that event, marked saved, at the end. */
  lemma SaveNewThenReload(s: State, e: Event, fetchOk: bool, freshId: nat -> Uuid, clock: nat -> Date)
    requires EventIndex(s.events, e.id).None?
    ensures var r := Load(Save(s, e, fetchOk), true, freshId, clock);
      |r.events| == |s.stored| + 1 && r.events[|s.stored|] == e.(isSaved := true)
  {
  }

  /** Reading back records written from `events` gives `events`, all marked saved. */
  lemma LoadInserted(events: seq<Event>, freshId: nat -> Uuid, clock: nat -> Date)
    ensures var r := Loaded(InsertAll([], events), freshId, clock);
      |r| == |events| && forall k :: 0 <= k < |events| ==> r[k] == events[k].(isSaved := true)
  {
    var r := Loaded(InsertAll([], events), freshId, clock);
    forall k | 0 <= k < |events| ensures r[k] == events[k].(isSaved := true) {
      WriteIsComplete(BlankEntity, BlankEntity, events[k], true, freshId(k), clock(k));
    }
  }

  /**
   * Seeding from an empty store with a successful reload gives the two seed events,
   * in order and marked saved, and two stored records; a second call then changes
   * nothing.
   */
  lemma LoadSampleFromEmpty(techNow: Date, jazzNow: Date, techId: Uuid, jazzId: Uuid, freshId: nat -> Uuid, clock: nat -> Date,
                            samples': seq<Event>, fetchOk': bool, freshId': nat -> Uuid, clock': nat -> Date)
    ensures var samples := SampleEvents(techNow, jazzNow, techId, jazzId);
      var t := LoadSample(State([], []), samples, true, freshId, clock);
      && t.events == [samples[0].(isSaved := true), samples[1].(isSaved := true)]
      && t.events[0].title == "Tech Conference 2023" && t.events[1].title == "Jazz Night"
      && |t.stored| == 2
      && (techId != jazzId ==> DistinctIds(t.events))
      && LoadSample(t, samples', fetchOk', freshId', clock') == t
  {
  }

  /**
   * The guard looks only at memory: when the reload after seeding fails, `events`
   * stays empty and the next call inserts every seed event a second time.
   */
  lemma LoadSampleAfterFailedFetch(s: State, samples: seq<Event>, freshId: nat -> Uuid, clock: nat -> Date)
    requires |s.events| == 0 && |samples| > 0
    ensures var t := LoadSample(s, samples, false, freshId, clock);
      var u := LoadSample(t, samples, false, freshId, clock);
      && t.events == [] && u.events == []
      && |u.stored| == |s.stored| + 2 * |samples|
      && u.stored[|s.stored|] == u.stored[|s.stored| + |samples|]
  {
    var t := LoadSample(s, samples, false, freshId, clock);
    var u := LoadSample(t, samples, false, freshId, clock);
    assert t.stored[|s.stored| + 0] == UpdateEntity(BlankEntity, samples[0]);
    assert u.stored[|t.stored| + 0] == UpdateEntity(BlankEntity, samples[0]);
    assert u.stored[..|t.stored|][|s.stored|] == u.stored[|s.stored|];
  }

  /**
   * The one case where the invariant is lost: seeding whose reload fails stores
   * the seeds while memory stays empty, so stored ids have no in-memory entry.
   */
  lemma FailedSeedReloadBreaksInv(samples: seq<Event>, freshId: nat -> Uuid, clock: nat -> Date)
    requires |samples| > 0
    ensures Inv(State([], []))
    ensures !Inv(LoadSample(State([], []), samples, false, freshId, clock))
  {
    var t := LoadSample(State([], []), samples, false, freshId, clock);
    assert t.stored[0].id == Some(samples[0].id);
    assert EventIndex(t.events, samples[0].id).None?;
  }

  /**
   * The walkthrough from an empty store: seeding gives two entries; saving a new
   * event gives three; removing it clears its flag; a reload then has two entries.
   */
  lemma Walkthrough(techNow: Date, jazzNow: Date, techId: Uuid, jazzId: Uuid, e: Event, freshId: nat -> Uuid, clock: nat -> Date)
    requires techId != jazzId && e.id != techId && e.id != jazzId
    ensures var s1 := LoadSample(State([], []), SampleEvents(techNow, jazzNow, techId, jazzId), true, freshId, clock);
      var s2 := Save(s1, e, true);
      var s3 := Remove(s2, e, true);
      var s4 := Load(s3, true, freshId, clock);
      && |s1.events| == 2 && s1.events[0].isSaved && s1.events[1].isSaved
      && |s2.events| == 3
      && s3.events[2] == e.(isSaved := false)
      && |s4.events| == 2
  {
  }
}
