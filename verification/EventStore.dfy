/** The in-memory event store and the event sourcer on top of it. */
module EventStores {
  import opened Json
  import opened Sequences

  datatype StoredEvent = StoredEvent(
    id: nat,
    aggregateType: string,
    aggregateId: string,
    eventType: string,
    version: nat,
    data: Json,
    timestamp: int)

  type Log = seq<StoredEvent>

  predicate Belongs(aggregateType: string, aggregateId: string, e: StoredEvent) {
    e.aggregateType == aggregateType && e.aggregateId == aggregateId
  }

  function Of(aggregateType: string, aggregateId: string): StoredEvent -> bool {
    e => Belongs(aggregateType, aggregateId, e)
  }

  function VersionKey(): StoredEvent -> real { (e: StoredEvent) => e.version as real }

  /** The events of one aggregate, in recording order. */
  function Recorded(log: Log, aggregateType: string, aggregateId: string): Log {
    Filter(Of(aggregateType, aggregateId), log)
  }

  /** The events of one aggregate, as a replay sees them. */
  function Replay(log: Log, aggregateType: string, aggregateId: string): Log {
    StableSort(VersionKey(), Recorded(log, aggregateType, aggregateId))
  }

  function MaxVersion(log: Log): nat {
    if log == [] then 0 else Max(MaxVersion(log[..|log| - 1]), log[|log| - 1].version)
  }

  function CurrentVersion(log: Log, aggregateType: string, aggregateId: string): nat {
    MaxVersion(Recorded(log, aggregateType, aggregateId))
  }

  lemma {:induction false} MaxVersionBounds(log: Log)
    ensures forall e :: e in log ==> e.version <= MaxVersion(log)
    ensures log != [] ==> exists e :: e in log && e.version == MaxVersion(log)
  {
    if log != [] {
      var front, last := log[..|log| - 1], log[|log| - 1];
      MaxVersionBounds(front);
      assert log == front + [last];
      assert last in log;
      if front != [] && MaxVersion(log) != last.version {
        var e :| e in front && e.version == MaxVersion(front);
        assert e in log;
      }
    }
  }

  /** The last event of a replay carries the highest version. */
  lemma ReplayEndsAtCurrentVersion(log: Log, aggregateType: string, aggregateId: string)
    ensures var replay := Replay(log, aggregateType, aggregateId);
      CurrentVersion(log, aggregateType, aggregateId) == if replay == [] then 0 else replay[|replay| - 1].version
  {
    var recorded, replay := Recorded(log, aggregateType, aggregateId), Replay(log, aggregateType, aggregateId);
    StableSortProperties(VersionKey(), recorded);
    SameElements(replay, recorded);
    MaxVersionBounds(recorded);
    if recorded != [] {
      var top :| top in recorded && top.version == MaxVersion(recorded);
      var i :| 0 <= i < |replay| && replay[i] == top;
      assert VersionKey()(replay[i]) <= VersionKey()(replay[|replay| - 1]);
      assert replay[|replay| - 1] in replay;
    }
  }

  /** Even with repeated versions a replay is complete, in version order, and in recording order within a version. */
  lemma ReplayIsOrdered(log: Log, aggregateType: string, aggregateId: string, version: nat)
    ensures var recorded, replay := Recorded(log, aggregateType, aggregateId), Replay(log, aggregateType, aggregateId);
      && multiset(replay) == multiset(recorded)
      && (forall i, j :: 0 <= i < j < |replay| ==> replay[i].version <= replay[j].version)
      && Filter(WithKey(VersionKey(), version as real), replay)
          == Filter(WithKey(VersionKey(), version as real), recorded)
  {
    var recorded, replay := Recorded(log, aggregateType, aggregateId), Replay(log, aggregateType, aggregateId);
    StableSortProperties(VersionKey(), recorded);
    StableSortKeepsTies(VersionKey(), recorded, version as real);
    forall i, j | 0 <= i < j < |replay| ensures replay[i].version <= replay[j].version {
      assert VersionKey()(replay[i]) <= VersionKey()(replay[j]);
    }
  }

  /** A replay holds the events of its aggregate type and id, and no others. */
  lemma ReplayHoldsExactly(log: Log, aggregateType: string, aggregateId: string, e: StoredEvent)
    ensures e in Replay(log, aggregateType, aggregateId)
      <==> e in log && e.aggregateType == aggregateType && e.aggregateId == aggregateId
  {
    var recorded := Recorded(log, aggregateType, aggregateId);
    StableSortProperties(VersionKey(), recorded);
    SameElements(Replay(log, aggregateType, aggregateId), recorded);
    FilterMembers(Of(aggregateType, aggregateId), log);
  }

  class InMemoryEventStore {
    var events: Log

    constructor ()
      ensures events == []
    {
      events := [];
    }

    method Save(event: StoredEvent)
      modifies this
      ensures events == old(events) + [event]
    {
      events := events + [event];
    }

    method GetEvents(aggregateType: string, aggregateId: string) returns (r: Log)
      ensures r == Replay(events, aggregateType, aggregateId)
    {
      var filtered := Filter(Of(aggregateType, aggregateId), events);
      r := StableSort(VersionKey(), filtered);
    }

    method GetCurrentVersion(aggregateType: string, aggregateId: string) returns (version: nat)
      ensures version == CurrentVersion(events, aggregateType, aggregateId)
    {
      var r := GetEvents(aggregateType, aggregateId);
      ReplayEndsAtCurrentVersion(events, aggregateType, aggregateId);
      version := if r == [] then 0 else r[|r| - 1].version;
    }
  }

  class EventSourcer {
    const store: InMemoryEventStore

    constructor (store: InMemoryEventStore)
      ensures this.store == store
    {
      this.store := store;
    }

    /** Undisturbed between its read and its save, a call takes the next version. */
    method RecordEvent(aggregateType: string, aggregateId: string, eventType: string, data: Json, id: nat, now: int)
      returns (event: StoredEvent)
      modifies store
      ensures event == StoredEvent(id, aggregateType, aggregateId, eventType,
                                   CurrentVersion(old(store.events), aggregateType, aggregateId) + 1, data, now)
      ensures store.events == old(store.events) + [event]
    {
      var currentVersion := store.GetCurrentVersion(aggregateType, aggregateId);
      event := StoredEvent(id, aggregateType, aggregateId, eventType, currentVersion + 1, data, now);
      store.Save(event);
    }

    method ReplayEvents(aggregateType: string, aggregateId: string) returns (r: Log)
      ensures r == Replay(store.events, aggregateType, aggregateId)
    {
      r := store.GetEvents(aggregateType, aggregateId);
    }
  }
}
