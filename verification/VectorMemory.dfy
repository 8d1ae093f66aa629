/** A memory of items kept in one collection of the vector store. */
module VectorMemories {
  import opened Json
  import opened Options
  import opened Sequences
  import opened Similarities
  import opened VectorStores

  /** Text encodings that belong to other libraries. */
  datatype Codec = Codec(
    idText: Id -> string,
    parseId: string -> Option<Id>,
    timeText: int -> string,
    parseTime: string -> Option<int>,
    jsonText: Json -> string)
  {
    /** What is printed can be read back. */
    ghost predicate Lawful() {
      && (forall id: Id :: parseId(idText(id)) == Some(id))
      && (forall t: int :: parseTime(timeText(t)) == Some(t))
    }
  }

  const NIL: Id := 0

  const CUT: nat := 10000

  datatype MemoryItem = MemoryItem(
    memoryId: Id,
    sessionId: Id,
    content: Json,
    metadata: map<string, string>,
    createdAt: int,
    ttlSeconds: Option<nat>)

  const RESERVED: set<string> := {"memory_id", "session_id", "content", "content_type", "created_at"}

  function TextOf(v: Json): Option<string> { if v.String? then Some(v.s) else None }

  function TextField(metadata: Json, k: string): Option<string> {
    if metadata.Object? && k in metadata.fields then TextOf(metadata.fields[k]) else None
  }

  function ContentText(codec: Codec, content: Json): string {
    if content.String? then content.s else codec.jsonText(content)
  }

  /** The item's own metadata goes in last: a reserved key in it replaces the field. */
  function FieldsOf(codec: Codec, item: MemoryItem): map<string, Json> {
    map[
      "memory_id" := String(codec.idText(item.memoryId)),
      "session_id" := String(codec.idText(item.sessionId)),
      "content" := String(ContentText(codec, item.content)),
      "content_type" := String("text"),
      "created_at" := String(codec.timeText(item.createdAt))]
    + map k | k in item.metadata :: String(item.metadata[k])
  }

  function ToRecord(codec: Codec, item: MemoryItem, vector: Vector): Record {
    Record(item.memoryId, vector, Object(FieldsOf(codec, item)))
  }

  function SessionOf(codec: Codec, rec: Record): Option<Id> {
    match TextField(rec.metadata, "session_id")
    case Some(s) => codec.parseId(s)
    case None => None
  }

  function ToItem(codec: Codec, rec: Record, now: int): MemoryItem {
    var fields := if rec.metadata.Object? then rec.metadata.fields else map[];
    MemoryItem(
      rec.id,
      SessionOf(codec, rec).GetOr(NIL),
      match TextField(rec.metadata, "content") case Some(s) => String(s) case None => Null,
      map k | k in fields && k !in RESERVED && fields[k].String? :: fields[k].s,
      match TextField(rec.metadata, "created_at") case Some(s) => codec.parseTime(s).GetOr(now) case None => now,
      None)
  }

  // ----- items through records and back -----

  lemma FieldsBehind(codec: Codec, item: MemoryItem, k: string)
    ensures k in item.metadata ==> k in FieldsOf(codec, item) && FieldsOf(codec, item)[k] == String(item.metadata[k])
    ensures k !in item.metadata && k !in RESERVED ==> k !in FieldsOf(codec, item)
  {}

  /** An item comes back unchanged exactly when its content is text, it has no time to live, and its metadata
      stays clear of the reserved keys. */
  lemma ItemRoundTrip(codec: Codec, item: MemoryItem, vector: Vector, now: int)
    requires codec.Lawful()
    ensures ToItem(codec, ToRecord(codec, item, vector), now) == item
      <==> item.content.String? && item.ttlSeconds == None && item.metadata.Keys !! RESERVED
  {
    var back := ToItem(codec, ToRecord(codec, item, vector), now);
    forall k ensures k in back.metadata <==> k in item.metadata && k !in RESERVED {
      FieldsBehind(codec, item, k);
    }
    if item.metadata.Keys !! RESERVED {
      assert back.metadata == item.metadata;
    } else {
      var k :| k in item.metadata && k in RESERVED;
      assert back.metadata != item.metadata;
    }
  }

  /** What is stored of an item: its id, its vector, and as text every field that its metadata does not replace, next
      to all of its metadata. */
  lemma ItemStored(codec: Codec, item: MemoryItem, vector: Vector, k: string)
    ensures var rec, meta := ToRecord(codec, item, vector), item.metadata;
      && rec.id == item.memoryId && rec.vector == vector && rec.metadata.Object?
      && rec.metadata.fields.Keys == RESERVED + meta.Keys
      && (k in meta ==> rec.metadata.fields[k] == String(meta[k]))
      && ("memory_id" !in meta ==> rec.metadata.fields["memory_id"] == String(codec.idText(item.memoryId)))
      && ("session_id" !in meta ==> rec.metadata.fields["session_id"] == String(codec.idText(item.sessionId)))
      && ("content_type" !in meta ==> rec.metadata.fields["content_type"] == String("text"))
      && ("created_at" !in meta ==> rec.metadata.fields["created_at"] == String(codec.timeText(item.createdAt)))
  {}

  /** What is read back of any item: every field that its metadata does not replace, other contents as text, the
      metadata without the reserved keys, and no time to live. */
  lemma ItemReadBack(codec: Codec, item: MemoryItem, vector: Vector, now: int)
    requires codec.Lawful()
    ensures var back := ToItem(codec, ToRecord(codec, item, vector), now); var meta := item.metadata;
      && back.memoryId == item.memoryId && back.ttlSeconds == None
      && back.sessionId ==
          (if "session_id" in meta then codec.parseId(meta["session_id"]).GetOr(NIL) else item.sessionId)
      && back.createdAt ==
          (if "created_at" in meta then codec.parseTime(meta["created_at"]).GetOr(now) else item.createdAt)
      && back.content ==
          (if "content" in meta then String(meta["content"])
           else if item.content.String? then item.content else String(codec.jsonText(item.content)))
      && back.metadata == meta - RESERVED
  {
    var back := ToItem(codec, ToRecord(codec, item, vector), now);
    forall k ensures k in back.metadata <==> k in item.metadata && k !in RESERVED {
      FieldsBehind(codec, item, k);
    }
    assert back.metadata == item.metadata - RESERVED;
  }

  /** A record belongs to its item's session unless the item's metadata says otherwise. */
  lemma SessionOfRecord(codec: Codec, item: MemoryItem, vector: Vector)
    requires codec.Lawful()
    ensures SessionOf(codec, ToRecord(codec, item, vector)) ==
      if "session_id" in item.metadata then codec.parseId(item.metadata["session_id"]) else Some(item.sessionId)
  {}

  // ----- removal by rebuilding -----

  predicate HasId(id: Id, rec: Record) { rec.id == id }

  function OtherThan(id: Id): Record -> bool { (rec: Record) => !HasId(id, rec) }

  function OutsideSession(codec: Codec, session: Id): Record -> bool {
    (rec: Record) => SessionOf(codec, rec) != Some(session)
  }

  lemma {:induction false} FilterKeepsDistinct(keep: Record -> bool, records: seq<Record>)
    requires Distinct(IdsOf(records))
    ensures Distinct(IdsOf(Filter(keep, records)))
    ensures forall rec :: rec in Filter(keep, records) ==> rec in records
  {
    FilterMembers(keep, records);
    if records != [] {
      var front, last := records[..|records| - 1], records[|records| - 1];
      assert IdsOf(front) == IdsOf(records)[..|front|];
      FilterKeepsDistinct(keep, front);
      var kept := Filter(keep, front);
      assert IdsOf(records)[|front|] == last.id;
      assert forall i :: 0 <= i < |front| ==> IdsOf(records)[i] == front[i].id;
      assert IdsOf(kept + [last]) == IdsOf(kept) + [last.id];
      forall i | 0 <= i < |kept| ensures kept[i].id != last.id {
        assert kept[i] in kept;
      }
    }
  }

  /** What a rebuild keeps is found as before; what it drops is gone. */
  lemma LookupFilter(keep: Record -> bool, records: seq<Record>, id: Id)
    requires Distinct(IdsOf(records))
    ensures Lookup(Filter(keep, records), id) ==
      match Lookup(records, id)
      case Some(rec) => if keep(rec) then Some(rec) else None
      case None => None
  {
    var kept := Filter(keep, records);
    FilterMembers(keep, records);
    FilterKeepsDistinct(keep, records);
    var n, m := IndexOf(records, id), IndexOf(kept, id);
    assert n < |records| && keep(records[n]) ==> records[n] in kept;
    if m < |kept| {
      assert kept[m] in records;
      var i :| 0 <= i < |records| && records[i] == kept[m];
      assert IdsOf(records)[i] == IdsOf(records)[n] == id;
    }
  }

  /** Deleting refines the removal of one key, as long as the collection fits the cut. */
  lemma DeleteRefinesMapRemoval(records: seq<Record>, id: Id, other: Id)
    requires Distinct(IdsOf(records)) && |records| <= CUT
    ensures Lookup(Filter(OtherThan(id), Take(records, CUT)), other)
      == if other == id then None else Lookup(records, other)
  {
    assert Take(records, CUT) == records;
    LookupFilter(OtherThan(id), records, other);
  }

  /** The session a record names, as text that parses to an id. */
  predicate NamesSession(codec: Codec, rec: Record, session: Id) {
    rec.metadata.Object? && "session_id" in rec.metadata.fields && rec.metadata.fields["session_id"].String?
    && codec.parseId(rec.metadata.fields["session_id"].s) == Some(session)
  }

  /** Clearing a session takes away the records that name it and disturbs no other, as long as the collection fits
      the cut. */
  lemma ClearingRefinesMapRemoval(codec: Codec, records: seq<Record>, session: Id, id: Id)
    requires Distinct(IdsOf(records)) && |records| <= CUT
    ensures var after := Filter(OutsideSession(codec, session), Take(records, CUT));
      Lookup(after, id) ==
        if Lookup(records, id).Some? && NamesSession(codec, Lookup(records, id).value, session) then None
        else Lookup(records, id)
  {
    assert Take(records, CUT) == records;
    LookupFilter(OutsideSession(codec, session), records, id);
  }

  /** A written item is gone after clearing exactly when it is of the session, unless its metadata names one. */
  lemma ClearingTakesTheSessionsItems(codec: Codec, records: seq<Record>, item: MemoryItem, vector: Vector, session: Id)
    requires codec.Lawful() && Distinct(IdsOf(records)) && |Put(records, ToRecord(codec, item, vector))| <= CUT
    requires "session_id" !in item.metadata
    ensures var written := Put(records, ToRecord(codec, item, vector));
      var after := Filter(OutsideSession(codec, session), Take(written, CUT));
      Lookup(after, item.memoryId) ==
        if item.sessionId == session then None else Some(ToRecord(codec, item, vector))
  {
    var rec := ToRecord(codec, item, vector);
    PutIds(records, rec);
    LookupPut(records, rec, item.memoryId);
    ClearingRefinesMapRemoval(codec, Put(records, rec), session, item.memoryId);
    assert rec.metadata.fields["session_id"] == String(codec.idText(item.sessionId));
  }

  /** Beyond the cut, every record behind the first 10000 is lost to reading, and a rebuild drops it for good. */
  lemma BeyondTheCutIsLost(records: seq<Record>, i: nat, keep: Record -> bool)
    requires Distinct(IdsOf(records)) && i < |records|
    ensures Lookup(Take(records, CUT), records[i].id) == if i < CUT then Some(records[i]) else None
    ensures Lookup(Filter(keep, Take(records, CUT)), records[i].id)
      == if i < CUT && keep(records[i]) then Some(records[i]) else None
  {
    var front, id := Take(records, CUT), records[i].id;
    assert IdsOf(front) == IdsOf(records)[..|front|];
    assert IdsOf(records)[i] == id;
    var n := IndexOf(front, id);
    if n < |front| {
      assert IdsOf(records)[n] == id;
    }
    LookupFilter(keep, front, id);
  }

  datatype Embedding = Failed | NoVector | Values(vector: Vector)

  const COLLECTION_NAME := "ls_memory"

  class VectorMemory {
    const store: InMemoryVectorStore
    const dimensions: nat
    const codec: Codec
    var collectionId: Option<Id>

    ghost predicate Valid()
      reads this, store
    {
      && store.Valid()
      && (collectionId.Some?
          ==> collectionId.value in store.collections && store.collections[collectionId.value].dimensions == dimensions)
    }

    /** The records of the memory, in insertion order. */
    ghost function Records(): seq<Record>
      reads this, store
      requires Valid()
    {
      if collectionId.None? then [] else store.collections[collectionId.value].records
    }

    constructor (store: InMemoryVectorStore, dimensions: nat, codec: Codec)
      requires store.Valid()
      ensures Valid() && Records() == []
      ensures this.store == store && this.dimensions == dimensions && this.codec == codec
    {
      this.store := store;
      this.dimensions := dimensions;
      this.codec := codec;
      collectionId := None;
    }

    method EnsureCollection(freshId: Id) returns (id: Id)
      requires Valid() && freshId !in store.collections
      modifies this, store
      ensures Valid() && collectionId == Some(id) && Records() == old(Records())
      ensures store.collections.Keys <= old(store.collections).Keys + {freshId}
    {
      if collectionId.Some? {
        return collectionId.value;
      }
      id := store.CreateCollection(COLLECTION_NAME, dimensions, freshId);
      collectionId := Some(id);
    }

    method Write(item: MemoryItem, embedding: Embedding, freshId: Id) returns (r: Result<Id, Error>)
      requires Valid() && freshId !in store.collections
      modifies this, store
      ensures Valid()
      ensures if embedding.Values? && |embedding.vector| == dimensions
        then r == Ok(item.memoryId) && Records() == Put(old(Records()), ToRecord(codec, item, embedding.vector))
        else r.Err? && Records() == old(Records())
    {
      var col := EnsureCollection(freshId);
      match embedding {
        case Failed => return Err(Internal);
        case NoVector => return Err(Internal);
        case Values(vector) =>
          var rec := ToRecord(codec, item, vector);
          ghost var records := Records();
          var error := store.Upsert(col, [rec]);
          assert [rec][..0] == [] && [rec][..1] == [rec];
          assert GoodPrefix([rec], dimensions) == if |vector| == dimensions then 1 else 0;
          assert PutAll(records, [rec]) == Put(records, rec);
          if error.Some? {
            return Err(error.value);
          }
          r := Ok(item.memoryId);
      }
    }

    /** The first records of the collection, found with an all-zero query. */
    method FirstRecords(col: Id) returns (records: seq<Record>)
      requires Valid() && collectionId == Some(col)
      ensures records == Take(Records(), CUT)
    {
      var found := store.Search(col, ZeroVector(dimensions), CUT);
      ZeroHasNoNorm(dimensions);
      ZeroSearchLists(store.root, dimensions, Records(), CUT);
      records := RecordsOf(found.value.records);
    }

    method Read(memoryId: Id, freshId: Id, now: int) returns (r: Result<MemoryItem, Error>)
      requires Valid() && freshId !in store.collections
      modifies this, store
      ensures Valid() && Records() == old(Records())
      ensures r == match Lookup(Take(Records(), CUT), memoryId)
        case Some(rec) => Ok(ToItem(codec, rec, now))
        case None => Err(NotFound)
    {
      var col := EnsureCollection(freshId);
      var records := FirstRecords(col);
      var found := Lookup(records, memoryId);
      if found.None? {
        return Err(NotFound);
      }
      r := Ok(ToItem(codec, found.value, now));
    }

    /** Drops the collection and writes what remains into a new one. */
    method Rebuild(col: Id, remaining: seq<Record>, freshId: Id)
      requires Valid() && collectionId == Some(col) && freshId !in store.collections
      requires Distinct(IdsOf(remaining)) && forall rec :: rec in remaining ==> |rec.vector| == dimensions
      modifies this, store
      ensures Valid() && Records() == remaining
    {
      store.DeleteCollection(col);
      collectionId := None;
      var newId := store.CreateCollection(COLLECTION_NAME, dimensions, freshId);
      if remaining != [] {
        var error := store.Upsert(newId, remaining);
        assert GoodPrefix(remaining, dimensions) == |remaining|;
        assert remaining[..|remaining|] == remaining;
        PutAllIntoEmpty(remaining);
      }
      collectionId := Some(newId);
    }

    method Delete(memoryId: Id, freshId: Id, rebuiltId: Id)
      requires Valid() && freshId !in store.collections && rebuiltId !in store.collections && freshId != rebuiltId
      modifies this, store
      ensures Valid()
      ensures Records() == Filter(OtherThan(memoryId), Take(old(Records()), CUT))
    {
      var col := EnsureCollection(freshId);
      var records := FirstRecords(col);
      var remaining := Filter(OtherThan(memoryId), records);
      KeepsRebuildable(OtherThan(memoryId), Records());
      Rebuild(col, remaining, rebuiltId);
    }

    method ClearSession(sessionId: Id, freshId: Id, rebuiltId: Id)
      requires Valid() && freshId !in store.collections && rebuiltId !in store.collections && freshId != rebuiltId
      modifies this, store
      ensures Valid()
      ensures Records() == Filter(OutsideSession(codec, sessionId), Take(old(Records()), CUT))
    {
      var col := EnsureCollection(freshId);
      var records := FirstRecords(col);
      var remaining := Filter(OutsideSession(codec, sessionId), records);
      KeepsRebuildable(OutsideSession(codec, sessionId), Records());
      Rebuild(col, remaining, rebuiltId);
    }
  }

  lemma KeepsRebuildable(keep: Record -> bool, records: seq<Record>)
    requires Distinct(IdsOf(records))
    ensures Distinct(IdsOf(Filter(keep, Take(records, CUT))))
    ensures forall rec :: rec in Filter(keep, Take(records, CUT)) ==> rec in records
  {
    assert IdsOf(Take(records, CUT)) == Take(IdsOf(records), CUT);
    FilterKeepsDistinct(keep, Take(records, CUT));
  }
}
