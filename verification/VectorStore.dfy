/** The in-memory vector store: collections of records, upserts and similarity search. */
module VectorStores {
  import opened Json
  import opened Options
  import opened Sequences
  import opened Similarities

  type Id = nat

  datatype Record = Record(id: Id, vector: Vector, metadata: Json)

  datatype VectorRecord = VectorRecord(record: Record, score: Option<real>)

  datatype Collection = Collection(name: string, dimensions: nat, records: seq<Record>)

  datatype SearchResult = SearchResult(records: seq<VectorRecord>, total: nat)

  datatype Error = NotFound | InvalidArgument | Internal

  // ----- upserts -----

  /** The position of the first record with this id, or the end. */
  function IndexOf(records: seq<Record>, id: Id): (n: nat)
    ensures n <= |records|
    ensures forall j :: 0 <= j < n ==> records[j].id != id
    ensures n < |records| ==> records[n].id == id
  {
    if records == [] || records[0].id == id then 0 else 1 + IndexOf(records[1..], id)
  }

  /** Replaces the first record with the same id where it stands, or appends. */
  function Put(records: seq<Record>, rec: Record): seq<Record> {
    var n := IndexOf(records, rec.id);
    if n < |records| then records[n := rec] else records + [rec]
  }

  function PutAll(records: seq<Record>, batch: seq<Record>): seq<Record> {
    if batch == [] then records else Put(PutAll(records, batch[..|batch| - 1]), batch[|batch| - 1])
  }

  lemma PutAllPush(records: seq<Record>, batch: seq<Record>, i: nat)
    requires i < |batch|
    ensures PutAll(records, batch[..i + 1]) == Put(PutAll(records, batch[..i]), batch[i])
  {
    assert batch[..i + 1][..i] == batch[..i];
  }

  /** How many records of a batch come before the first one of a wrong dimension. */
  function GoodPrefix(batch: seq<Record>, dimensions: nat): (n: nat)
    ensures n <= |batch|
    ensures forall i :: 0 <= i < n ==> |batch[i].vector| == dimensions
    ensures n < |batch| ==> |batch[n].vector| != dimensions
  {
    if batch == [] || |batch[0].vector| != dimensions then 0 else 1 + GoodPrefix(batch[1..], dimensions)
  }

  function IdsOf(records: seq<Record>): seq<Id> {
    seq(|records|, i requires 0 <= i < |records| => records[i].id)
  }

  /** Every id once, where it first occurs. */
  function FirstOccurrences(ids: seq<Id>): seq<Id> {
    if ids == [] then []
    else
      var front, last := FirstOccurrences(ids[..|ids| - 1]), ids[|ids| - 1];
      if last in front then front else front + [last]
  }

  function Lookup(records: seq<Record>, id: Id): Option<Record> {
    var n := IndexOf(records, id);
    if n < |records| then Some(records[n]) else None
  }

  function LastWrite(writes: seq<Record>, id: Id): Option<Record> {
    if writes == [] then None
    else if writes[|writes| - 1].id == id then Some(writes[|writes| - 1])
    else LastWrite(writes[..|writes| - 1], id)
  }

  /** A write is what is read under its id, and nothing else is disturbed. */
  lemma LookupPut(records: seq<Record>, rec: Record, id: Id)
    ensures Lookup(Put(records, rec), id) == if id == rec.id then Some(rec) else Lookup(records, id)
  {
    var after := Put(records, rec);
    var n, m := IndexOf(records, id), IndexOf(after, id);
    if n < m {
      assert after[n].id == id || n == |records|;
    }
  }

  /** A put keeps every position and appends at most one. */
  lemma PutIds(records: seq<Record>, rec: Record)
    ensures IdsOf(Put(records, rec)) == if rec.id in IdsOf(records) then IdsOf(records) else IdsOf(records) + [rec.id]
  {
    var n := IndexOf(records, rec.id);
    if n < |records| {
      assert IdsOf(records)[n] == rec.id;
    } else {
      assert rec.id !in IdsOf(records);
    }
  }

  lemma {:induction false} FirstOccurrencesOfDistinct(ids: seq<Id>)
    requires Distinct(ids)
    ensures FirstOccurrences(ids) == ids
  {
    if ids != [] {
      FirstOccurrencesOfDistinct(ids[..|ids| - 1]);
    }
  }

  lemma {:induction false} FirstOccurrencesDistinct(ids: seq<Id>)
    ensures Distinct(FirstOccurrences(ids))
  {
    if ids != [] {
      FirstOccurrencesDistinct(ids[..|ids| - 1]);
    }
  }

  lemma FirstOccurrencesPush(ids: seq<Id>, id: Id)
    ensures FirstOccurrences(ids + [id])
      == var front := FirstOccurrences(ids); if id in front then front else front + [id]
  {
    assert (ids + [id])[..|ids|] == ids;
  }

  lemma IdsPush(records: seq<Record>, last: Record)
    ensures IdsOf(records + [last]) == IdsOf(records) + [last.id]
  {}

  /** A run of upserts keeps ids in first-insertion order. */
  lemma {:induction false} UpsertsKeepFirstOrder(records: seq<Record>, batch: seq<Record>)
    requires Distinct(IdsOf(records))
    ensures IdsOf(PutAll(records, batch)) == FirstOccurrences(IdsOf(records) + IdsOf(batch))
    ensures Distinct(IdsOf(PutAll(records, batch)))
  {
    var ids := IdsOf(records) + IdsOf(batch);
    if batch == [] {
      FirstOccurrencesOfDistinct(IdsOf(records));
      assert ids == IdsOf(records);
    } else {
      var front, last := batch[..|batch| - 1], batch[|batch| - 1];
      UpsertsKeepFirstOrder(records, front);
      PutIds(PutAll(records, front), last);
      assert batch == front + [last];
      IdsPush(front, last);
      assert ids == (IdsOf(records) + IdsOf(front)) + [last.id];
      FirstOccurrencesPush(IdsOf(records) + IdsOf(front), last.id);
    }
    FirstOccurrencesDistinct(ids);
  }

  /** A run of upserts leaves, under every id, the last record written. */
  lemma {:induction false} UpsertsAreLastWriteWins(records: seq<Record>, batch: seq<Record>, id: Id)
    requires Distinct(IdsOf(records))
    ensures Lookup(PutAll(records, batch), id) == LastWrite(records + batch, id)
  {
    if batch == [] {
      assert records + batch == records;
      LookupIsLastWrite(records, id);
    } else {
      var front, last := batch[..|batch| - 1], batch[|batch| - 1];
      UpsertsAreLastWriteWins(records, front, id);
      LookupPut(PutAll(records, front), last, id);
      assert (records + batch)[..|records + batch| - 1] == records + front;
    }
  }

  lemma {:induction false} LastWriteFinds(writes: seq<Record>, id: Id)
    ensures match LastWrite(writes, id)
      case Some(rec) => rec in writes && rec.id == id
      case None => forall rec :: rec in writes ==> rec.id != id
  {
    if writes != [] {
      LastWriteFinds(writes[..|writes| - 1], id);
      assert writes == writes[..|writes| - 1] + [writes[|writes| - 1]];
    }
  }

  lemma LookupIsLastWrite(records: seq<Record>, id: Id)
    requires Distinct(IdsOf(records))
    ensures Lookup(records, id) == LastWrite(records, id)
  {
    LastWriteFinds(records, id);
    var n := IndexOf(records, id);
    if LastWrite(records, id).Some? {
      var m :| 0 <= m < |records| && records[m] == LastWrite(records, id).value;
      assert IdsOf(records)[m] == id && (n < |records| ==> IdsOf(records)[n] == id);
    }
  }

  lemma DistinctFront(ids: seq<Id>, id: Id)
    requires Distinct(ids + [id])
    ensures Distinct(ids) && id !in ids
  {
    var all := ids + [id];
    assert forall i :: 0 <= i < |ids| ==> all[i] == ids[i];
    assert all[|ids|] == id;
  }

  lemma PutFresh(records: seq<Record>, rec: Record)
    requires rec.id !in IdsOf(records)
    ensures Put(records, rec) == records + [rec]
  {
    assert forall i :: 0 <= i < |records| ==> records[i].id == IdsOf(records)[i] && IdsOf(records)[i] in IdsOf(records);
  }

  /** Writing distinct records into an empty collection reproduces them, order and all. */
  lemma {:induction false} PutAllIntoEmpty(batch: seq<Record>)
    requires Distinct(IdsOf(batch))
    ensures PutAll([], batch) == batch
  {
    if batch != [] {
      var front, last := batch[..|batch| - 1], batch[|batch| - 1];
      assert batch == front + [last];
      IdsPush(front, last);
      DistinctFront(IdsOf(front), last.id);
      PutAllIntoEmpty(front);
      PutFresh(front, last);
    }
  }

  // ----- similarity search -----

  datatype Scored = Scored(score: real, record: Record)

  function DescendingScore(): Scored -> real { (s: Scored) => -s.score }

  function Score(root: real -> real, query: Vector, records: seq<Record>): seq<Scored> {
    if records == [] then []
    else
      var last := records[|records| - 1];
      Score(root, query, records[..|records| - 1]) + [Scored(CosineSimilarity(root, query, last.vector), last)]
  }

  function Ranked(root: real -> real, query: Vector, records: seq<Record>): seq<Scored> {
    StableSort(DescendingScore(), Score(root, query, records))
  }

  function Hits(ranked: seq<Scored>): seq<VectorRecord> {
    if ranked == [] then []
    else
      var last := ranked[|ranked| - 1];
      Hits(ranked[..|ranked| - 1]) + [VectorRecord(last.record, Some(last.score))]
  }

  ghost predicate BestFirst(ranked: seq<Scored>) {
    forall i, j :: 0 <= i < j < |ranked| ==> ranked[i].score >= ranked[j].score
  }

  ghost predicate Dominates(top: seq<Scored>, rest: seq<Scored>) {
    forall t, r :: t in top && r in rest ==> t.score >= r.score
  }

  /** The k best: as many as there are up to k, best first, and nothing left out beats anything returned. */
  ghost predicate IsTopK(top: seq<Scored>, rest: seq<Scored>, scored: seq<Scored>, k: nat) {
    && |top| == Min(k, |scored|) && BestFirst(top)
    && multiset(top + rest) == multiset(scored) && Dominates(top, rest)
  }

  lemma {:induction false} ScoreLength(root: real -> real, query: Vector, records: seq<Record>)
    ensures |Score(root, query, records)| == |records|
    ensures forall i :: 0 <= i < |records| ==>
      Score(root, query, records)[i] == Scored(CosineSimilarity(root, query, records[i].vector), records[i])
  {
    if records != [] {
      ScoreLength(root, query, records[..|records| - 1]);
    }
  }

  /** Records of equal score come in insertion order. */
  lemma TiesInInsertionOrder(root: real -> real, query: Vector, records: seq<Record>, score: real)
    ensures Filter(WithKey(DescendingScore(), -score), Ranked(root, query, records))
      == Filter(WithKey(DescendingScore(), -score), Score(root, query, records))
  {
    StableSortKeepsTies(DescendingScore(), Score(root, query, records), -score);
  }

  lemma {:induction false} HitsAt(ranked: seq<Scored>)
    ensures |Hits(ranked)| == |ranked|
    ensures forall i :: 0 <= i < |ranked| ==> Hits(ranked)[i] == VectorRecord(ranked[i].record, Some(ranked[i].score))
  {
    if ranked != [] {
      HitsAt(ranked[..|ranked| - 1]);
    }
  }

  lemma CutDominates(ranked: seq<Scored>, n: nat)
    requires BestFirst(ranked) && n <= |ranked|
    ensures Dominates(ranked[..n], ranked[n..])
  {
    forall t, r | t in ranked[..n] && r in ranked[n..] ensures t.score >= r.score {
      var i :| 0 <= i < n && ranked[i] == t;
      var j :| n <= j < |ranked| && ranked[j] == r;
    }
  }

  lemma SortedBestFirst(scored: seq<Scored>)
    ensures var ranked := StableSort(DescendingScore(), scored);
      BestFirst(ranked) && |ranked| == |scored| && multiset(ranked) == multiset(scored)
  {
    var key, ranked := DescendingScore(), StableSort(DescendingScore(), scored);
    StableSortProperties(key, scored);
    forall i, j | 0 <= i < j < |ranked| ensures ranked[i].score >= ranked[j].score {
      assert key(ranked[i]) <= key(ranked[j]);
    }
  }

  lemma CutIsTopK(ranked: seq<Scored>, scored: seq<Scored>, k: nat)
    requires BestFirst(ranked) && |ranked| == |scored| && multiset(ranked) == multiset(scored)
    ensures IsTopK(Take(ranked, k), Skip(ranked, k), scored, k)
  {
    var n := Min(k, |scored|);
    CutDominates(ranked, n);
    assert ranked[..n] + ranked[n..] == ranked;
    assert Take(ranked, k) == ranked[..n] && Skip(ranked, k) == ranked[n..];
  }

  /** Sorting all the scores and cutting at k gives the k best. */
  lemma SortedPrefixIsTopK(scored: seq<Scored>, k: nat)
    ensures var ranked := StableSort(DescendingScore(), scored); IsTopK(Take(ranked, k), Skip(ranked, k), scored, k)
  {
    SortedBestFirst(scored);
    CutIsTopK(StableSort(DescendingScore(), scored), scored, k);
  }

  // ----- the all-zero query, which lists a collection -----

  function ZeroVector(n: nat): Vector { if n == 0 then [] else [0.0] + ZeroVector(n - 1) }

  lemma {:induction false} ZeroHasNoNorm(n: nat)
    ensures |ZeroVector(n)| == n && Dot(ZeroVector(n), ZeroVector(n)) == 0.0
  {
    if n > 0 {
      ZeroHasNoNorm(n - 1);
      assert ZeroVector(n)[1..] == ZeroVector(n - 1);
    }
  }

  /** All scores tie at zero, so a stable sort keeps the insertion order. */
  lemma ZeroQueryListsInOrder(root: real -> real, n: nat, records: seq<Record>)
    requires root(0.0) == 0.0
    ensures var ranked := Ranked(root, ZeroVector(n), records);
      |ranked| == |records| && forall i :: 0 <= i < |records| ==> ranked[i] == Scored(0.0, records[i])
  {
    ZeroHasNoNorm(n);
    var scored := Score(root, ZeroVector(n), records);
    ScoreLength(root, ZeroVector(n), records);
    assert Ascending(DescendingScore(), scored);
    StableSortOfAscending(DescendingScore(), scored);
  }

  function RecordsOf(hits: seq<VectorRecord>): seq<Record> {
    seq(|hits|, i requires 0 <= i < |hits| => hits[i].record)
  }

  lemma RecordsOfHits(ranked: seq<Scored>)
    ensures |RecordsOf(Hits(ranked))| == |ranked|
    ensures forall i :: 0 <= i < |ranked| ==> RecordsOf(Hits(ranked))[i] == ranked[i].record
  {
    HitsAt(ranked);
  }

  lemma ZeroSearchLists(root: real -> real, n: nat, records: seq<Record>, k: nat)
    requires root(0.0) == 0.0
    ensures RecordsOf(Hits(Take(Ranked(root, ZeroVector(n), records), k))) == Take(records, k)
  {
    var top := Take(Ranked(root, ZeroVector(n), records), k);
    ZeroQueryListsInOrder(root, n, records);
    assert |top| == |Take(records, k)| && forall i :: 0 <= i < |top| ==> top[i].record == Take(records, k)[i];
    RecordsOfHits(top);
  }

  // ----- the store -----

  ghost predicate Sound(c: Collection) {
    Distinct(IdsOf(c.records)) && forall rec :: rec in c.records ==> |rec.vector| == c.dimensions
  }

  lemma PutKeepsSound(c: Collection, rec: Record)
    requires Sound(c) && |rec.vector| == c.dimensions
    ensures Sound(c.(records := Put(c.records, rec)))
  {
    PutIds(c.records, rec);
    var ids := IdsOf(c.records);
    assert rec.id !in ids ==> Distinct(ids + [rec.id]);
    forall r | r in Put(c.records, rec) ensures |r.vector| == c.dimensions {
      assert r == rec || r in c.records;
    }
  }

  class InMemoryVectorStore {
    const root: real -> real
    var collections: map<Id, Collection>

    ghost predicate Valid()
      reads this
    {
      root(0.0) == 0.0 && forall id :: id in collections ==> Sound(collections[id])
    }

    constructor (root: real -> real)
      requires root(0.0) == 0.0
      ensures Valid() && collections == map[] && this.root == root
    {
      this.root := root;
      collections := map[];
    }

    /** The id is a new UUID; two of them are assumed never to be equal. */
    method CreateCollection(name: string, dimensions: nat, freshId: Id) returns (id: Id)
      requires Valid() && freshId !in collections
      modifies this
      ensures Valid() && id == freshId
      ensures collections == old(collections)[freshId := Collection(name, dimensions, [])]
    {
      collections := collections[freshId := Collection(name, dimensions, [])];
      id := freshId;
    }

    method DeleteCollection(id: Id)
      requires Valid()
      modifies this
      ensures Valid() && collections == old(collections) - {id}
    {
      collections := collections - {id};
    }

    method UpsertOne(id: Id, rec: Record)
      requires Valid() && id in collections && |rec.vector| == collections[id].dimensions
      modifies this
      ensures Valid()
      ensures collections == old(collections)[id :=
        old(collections)[id].(records := Put(old(collections)[id].records, rec))]
    {
      PutKeepsSound(collections[id], rec);
      collections := collections[id := collections[id].(records := Put(collections[id].records, rec))];
    }

    /** Writes the records up to the first of a wrong dimension; those stay written when the call fails. */
    method Upsert(id: Id, batch: seq<Record>) returns (error: Option<Error>)
      requires Valid()
      modifies this
      ensures Valid()
      ensures if id !in old(collections) then error == Some(NotFound) && collections == old(collections)
        else
          var c := old(collections)[id]; var n := GoodPrefix(batch, c.dimensions);
          && error == (if n == |batch| then None else Some(InvalidArgument))
          && collections.Keys == old(collections).Keys && collections - {id} == old(collections) - {id}
          && collections[id] == c.(records := PutAll(c.records, batch[..n]))
    {
      if id !in collections {
        return Some(NotFound);
      }
      ghost var c, n := collections[id], GoodPrefix(batch, collections[id].dimensions);
      for i := 0 to |batch|
        invariant Valid() && i <= n
        invariant collections.Keys == old(collections).Keys && collections - {id} == old(collections) - {id}
        invariant collections[id] == c.(records := PutAll(c.records, batch[..i]))
      {
        if |batch[i].vector| != collections[id].dimensions {
          assert i == n;
          return Some(InvalidArgument);
        }
        PutAllPush(c.records, batch, i);
        UpsertOne(id, batch[i]);
      }
      assert batch[..|batch|] == batch;
      error := None;
    }

    method Search(id: Id, query: Vector, topK: nat) returns (r: Result<SearchResult, Error>)
      requires Valid()
      ensures if id !in collections then r == Err(NotFound)
        else if |query| != collections[id].dimensions then r == Err(InvalidArgument)
        else
          var ranked := Ranked(root, query, collections[id].records);
          && r == Ok(SearchResult(Hits(Take(ranked, topK)), |collections[id].records|))
          && IsTopK(Take(ranked, topK), Skip(ranked, topK), Score(root, query, collections[id].records), topK)
    {
      if id !in collections {
        return Err(NotFound);
      }
      var c := collections[id];
      if |query| != c.dimensions {
        return Err(InvalidArgument);
      }
      var scored := Score(root, query, c.records);
      var ranked := StableSort(DescendingScore(), scored);
      var total := |ranked|;
      StableSortProperties(DescendingScore(), scored);
      ScoreLength(root, query, c.records);
      SortedPrefixIsTopK(scored, topK);
      r := Ok(SearchResult(Hits(Take(ranked, topK)), total));
    }
  }
}
