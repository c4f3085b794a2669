/**
 * An abstract model of the Qdrant collection behind `QdrantStorage.client`:
 * a map from point id to (vector, payload) plus the collection's stable scan
 * order, with the client calls the wrapper makes (`upsert`, `delete` by a
 * source filter, `scroll`, `query_points`).
 */
module Store {
  import opened Wrappers
  import opened Types
  import opened Collections

  type Records = map<Id, Record>

  /** The scan order lists every stored id exactly once. */
  ghost predicate WellFormed(records: Records, order: seq<Id>) {
    && Distinct(order)
    && forall id :: id in records <==> id in order
  }

  function PointAt(records: Records, id: Id): Point
    requires id in records
  {
    Point(id, records[id].vector, records[id].payload)
  }

  /** The points in scan order. */
  function ScanOf(records: Records, order: seq<Id>): (ps: seq<Point>)
    requires forall id :: id in order ==> id in records
    ensures |ps| == |order|
    ensures forall i :: 0 <= i < |order| ==> ps[i] == PointAt(records, order[i])
  {
    if order == [] then [] else [PointAt(records, order[0])] + ScanOf(records, order[1..])
  }

  /** The ids of a sequence of points, in order. */
  function IdsOf(ps: seq<Point>): (ids: seq<Id>)
    ensures |ids| == |ps|
    ensures forall i :: 0 <= i < |ps| ==> ids[i] == ps[i].id
  {
    seq(|ps|, i requires 0 <= i < |ps| => ps[i].id)
  }

  /** A full scan yields every stored point exactly once, in scan order. */
  lemma ScanExactlyOnce(records: Records, order: seq<Id>)
    requires WellFormed(records, order)
    ensures IdsOf(ScanOf(records, order)) == order
    ensures Distinct(IdsOf(ScanOf(records, order)))
    ensures forall id :: id in records <==> id in IdsOf(ScanOf(records, order))
  {
    var ids := IdsOf(ScanOf(records, order));
    assert forall i :: 0 <= i < |order| ==> ids[i] == order[i];
  }

  // ---------------------------------------------------------------- upsert

  /** Writes one point: overwrites the record under its id, or appends a new id to the scan order. */
  function Put(records: Records, order: seq<Id>, p: Point): (Records, seq<Id>) {
    (records[p.id := Record(p.vector, p.payload)], if p.id in records then order else order + [p.id])
  }

  /** Writes a batch of points, one after the other. */
  function UpsertAll(records: Records, order: seq<Id>, ps: seq<Point>): (Records, seq<Id>)
    decreases |ps|
  {
    if ps == [] then (records, order)
    else
      var prev := UpsertAll(records, order, ps[..|ps| - 1]);
      Put(prev.0, prev.1, ps[|ps| - 1])
  }

  /** The records a batch writes: under each id, the last point of the batch that carries it. */
  function BatchRecords(ps: seq<Point>): (b: Records)
    ensures forall id :: id in b <==> exists j :: 0 <= j < |ps| && ps[j].id == id
    decreases |ps|
  {
    if ps == [] then map[]
    else
      var last := ps[|ps| - 1];
      var b := BatchRecords(ps[..|ps| - 1]);
      assert forall j :: 0 <= j < |ps| - 1 ==> ps[..|ps| - 1][j] == ps[j];
      b[last.id := Record(last.vector, last.payload)]
  }

  lemma {:induction false} UpsertAllRecords(records: Records, order: seq<Id>, ps: seq<Point>)
    ensures UpsertAll(records, order, ps).0 == records + BatchRecords(ps)
    decreases |ps|
  {
    if ps != [] {
      UpsertAllRecords(records, order, ps[..|ps| - 1]);
    }
  }

  lemma {:induction false} UpsertAllWellFormed(records: Records, order: seq<Id>, ps: seq<Point>)
    requires WellFormed(records, order)
    ensures WellFormed(UpsertAll(records, order, ps).0, UpsertAll(records, order, ps).1)
    decreases |ps|
  {
    if ps != [] {
      UpsertAllWellFormed(records, order, ps[..|ps| - 1]);
    }
  }

  /** Existing records keep their place in the scan order; new ids go at the end. */
  lemma {:induction false} UpsertAllExtendsOrder(records: Records, order: seq<Id>, ps: seq<Point>)
    ensures order <= UpsertAll(records, order, ps).1
    decreases |ps|
  {
    if ps != [] {
      UpsertAllExtendsOrder(records, order, ps[..|ps| - 1]);
    }
  }

  /** A batch whose ids are all present changes no position in the scan order. */
  lemma {:induction false} UpsertAllKeepsOrder(records: Records, order: seq<Id>, ps: seq<Point>)
    requires forall j :: 0 <= j < |ps| ==> ps[j].id in records
    ensures UpsertAll(records, order, ps).1 == order
    decreases |ps|
  {
    if ps != [] {
      UpsertAllKeepsOrder(records, order, ps[..|ps| - 1]);
      UpsertAllRecords(records, order, ps[..|ps| - 1]);
    }
  }

  /** After the batch, an id holds the last point of the batch that carries it. */
  lemma UpsertAllLastWins(records: Records, order: seq<Id>, ps: seq<Point>, i: nat)
    requires i < |ps|
    requires forall j :: i < j < |ps| ==> ps[j].id != ps[i].id
    ensures ps[i].id in UpsertAll(records, order, ps).0
    ensures UpsertAll(records, order, ps).0[ps[i].id] == Record(ps[i].vector, ps[i].payload)
  {
    UpsertAllRecords(records, order, ps);
    BatchLastWins(ps, i);
  }

  lemma {:induction false} BatchLastWins(ps: seq<Point>, i: nat)
    requires i < |ps|
    requires forall j :: i < j < |ps| ==> ps[j].id != ps[i].id
    ensures ps[i].id in BatchRecords(ps)
    ensures BatchRecords(ps)[ps[i].id] == Record(ps[i].vector, ps[i].payload)
    decreases |ps|
  {
    if i < |ps| - 1 {
      BatchLastWins(ps[..|ps| - 1], i);
    }
  }

  /** An id the batch does not carry is not touched. */
  lemma UpsertAllOthers(records: Records, order: seq<Id>, ps: seq<Point>, id: Id)
    requires forall j :: 0 <= j < |ps| ==> ps[j].id != id
    ensures id in UpsertAll(records, order, ps).0 <==> id in records
    ensures id in records ==> UpsertAll(records, order, ps).0[id] == records[id]
  {
    UpsertAllRecords(records, order, ps);
  }

  /** Writing the same batch twice leaves the same collection as writing it once. */
  lemma UpsertAllIdempotent(records: Records, order: seq<Id>, ps: seq<Point>)
    ensures var once := UpsertAll(records, order, ps);
            UpsertAll(once.0, once.1, ps) == once
  {
    var once := UpsertAll(records, order, ps);
    UpsertAllRecords(records, order, ps);
    UpsertAllRecords(once.0, once.1, ps);
    UpsertAllKeepsOrder(once.0, once.1, ps);
    assert once.0 + BatchRecords(ps) == once.0;
  }

  // ---------------------------------------------------------------- delete

  /** The records whose payload `source_id` is not `s`. */
  function RemoveSource(records: Records, s: string): (r: Records)
    ensures forall id :: id in r <==> id in records && records[id].payload.sourceId != Some(s)
    ensures forall id :: id in r ==> r[id] == records[id]
  {
    map id | id in records && records[id].payload.sourceId != Some(s) :: records[id]
  }

  /** The ids of `order` still present in `records`, in the same order. */
  function KeepIn(order: seq<Id>, records: Records): (o: seq<Id>)
    ensures forall id :: id in o <==> id in order && id in records
    ensures Distinct(order) ==> Distinct(o)
  {
    if order == [] then []
    else if order[0] in records then [order[0]] + KeepIn(order[1..], records)
    else KeepIn(order[1..], records)
  }

  /** Deletion by the filter `source_id == s`. */
  function DeleteBySource(records: Records, order: seq<Id>, s: string): (Records, seq<Id>) {
    var r := RemoveSource(records, s);
    (r, KeepIn(order, r))
  }

  lemma DeleteBySourceWellFormed(records: Records, order: seq<Id>, s: string)
    requires WellFormed(records, order)
    ensures WellFormed(DeleteBySource(records, order, s).0, DeleteBySource(records, order, s).1)
  {
  }

  lemma {:induction false} KeepInTwice(order: seq<Id>, records: Records)
    ensures KeepIn(KeepIn(order, records), records) == KeepIn(order, records)
  {
    if order != [] {
      KeepInTwice(order[1..], records);
    }
  }

  /** Deleting a source a second time changes nothing. */
  lemma DeleteBySourceIdempotent(records: Records, order: seq<Id>, s: string)
    ensures var once := DeleteBySource(records, order, s);
            DeleteBySource(once.0, once.1, s) == once
  {
    var r := RemoveSource(records, s);
    assert RemoveSource(r, s) == r;
    KeepInTwice(order, r);
  }

  /** The points whose payload `source_id` is not `s`, in the same order. */
  function DropSource(ps: seq<Point>, s: string): (qs: seq<Point>)
    ensures forall q :: q in qs <==> q in ps && q.payload.sourceId != Some(s)
  {
    if ps == [] then []
    else if ps[0].payload.sourceId != Some(s) then [ps[0]] + DropSource(ps[1..], s)
    else DropSource(ps[1..], s)
  }

  /** After deleting source `s`, a scan sees the points of the other sources, in their old order. */
  lemma {:induction false} DeleteBySourceScan(records: Records, order: seq<Id>, s: string)
    requires forall id :: id in order ==> id in records
    ensures var after := DeleteBySource(records, order, s);
            ScanOf(after.0, after.1) == DropSource(ScanOf(records, order), s)
  {
    var r := RemoveSource(records, s);
    if order != [] {
      DeleteBySourceScan(records, order[1..], s);
      assert ScanOf(records, order)[1..] == ScanOf(records, order[1..]);
    }
  }

  // ---------------------------------------------------------------- queries

  /** Qdrant's `Filter(must=[FieldCondition(key="source_id", match=MatchValue(value))])`. */
  datatype Filter = SourceIs(value: string)

  predicate Admits(filter: Option<Filter>, payload: Payload) {
    filter.None? || payload.sourceId == Some(filter.value.value)
  }

  /**
   * The points of a similarity ranking that are stored and pass the filter, in ranking
   * order. The ranking itself (cosine similarity above the score threshold, best first)
   * is computed by the store and is an input here.
   */
  function Ranked(records: Records, ranking: seq<(Id, real)>, filter: Option<Filter>): (pts: seq<ScoredPoint>)
    ensures |pts| <= |ranking|
    ensures forall k :: 0 <= k < |pts| ==>
      pts[k].id in records && pts[k].payload == records[pts[k].id].payload && Admits(filter, pts[k].payload)
  {
    if ranking == [] then []
    else
      var (id, score) := ranking[0];
      var rest := Ranked(records, ranking[1..], filter);
      if id in records && Admits(filter, records[id].payload)
      then [ScoredPoint(id, records[id].payload, score)] + rest
      else rest
  }

  /** Nothing admitted is lost: every stored ranking entry that passes the filter is among the query's points. */
  lemma {:induction false} RankedComplete(records: Records, ranking: seq<(Id, real)>, filter: Option<Filter>, k: nat)
    requires k < |ranking| && ranking[k].0 in records && Admits(filter, records[ranking[k].0].payload)
    ensures ScoredPoint(ranking[k].0, records[ranking[k].0].payload, ranking[k].1) in Ranked(records, ranking, filter)
  {
    var pts := Ranked(records, ranking, filter);
    var (id, score) := ranking[0];
    var rest := Ranked(records, ranking[1..], filter);
    var shift := if id in records && Admits(filter, records[id].payload) then 1 else 0;
    assert pts == (if shift == 1 then [ScoredPoint(id, records[id].payload, score)] + rest else rest);
    if k == 0 {
      assert shift == 1 && |pts| > 0;
      var target := ScoredPoint(ranking[k].0, records[ranking[k].0].payload, ranking[k].1);
      assert pts[0] == target;
    } else {
      RankedComplete(records, ranking[1..], filter, k - 1);
      assert ranking[1..][k - 1] == ranking[k];
    }
  }

  /** One page of a `scroll`, with the offset of the next page or `None` after the last one. */
  datatype Page = Page(points: seq<Point>, next: Option<nat>)

  /** Where a scroll starts: the beginning for `None`, otherwise the given position. */
  function Start(offset: Option<nat>, n: nat): (s: nat)
    ensures s <= n
    ensures offset.None? ==> s == 0
    ensures offset.Some? && offset.value <= n ==> s == offset.value
  {
    if offset.None? then 0 else Min(offset.value, n)
  }

  class Collection {
    /** The vector size fixed when the collection was created. */
    const dim: nat
    var records: Records
    var order: seq<Id>

    ghost predicate Valid()
      reads this
    {
      WellFormed(records, order)
    }

    /** An empty collection of the given dimension. */
    constructor (dim: nat)
      ensures Valid() && this.dim == dim
      ensures records == map[] && order == []
    {
      this.dim := dim;
      records := map[];
      order := [];
    }

    /** The stored points in scan order. */
    function Scan(): (ps: seq<Point>)
      reads this
      requires Valid()
      ensures |ps| == |order|
    {
      ScanOf(records, order)
    }

    /** `client.scroll(offset=offset, limit=limit)`. */
    function Scroll(offset: Option<nat>, limit: nat): (page: Page)
      reads this
      requires Valid() && limit > 0
      ensures |page.points| <= limit
      ensures page.next.None? ==> page.points == Scan()[Start(offset, |order|)..]
      ensures page.next.Some? ==>
        && Start(offset, |order|) < page.next.value < |order|
        && page.points == Scan()[Start(offset, |order|)..page.next.value]
    {
      var start := Start(offset, |order|);
      var end := Min(start + limit, |order|);
      Page(Scan()[start..end], if end < |order| then Some(end) else None)
    }

    /** `client.query_points(limit=limit, query_filter=filter)` over the store's similarity ranking. */
    function QueryPoints(ranking: seq<(Id, real)>, limit: nat, filter: Option<Filter>): (pts: seq<ScoredPoint>)
      reads this
      requires Valid()
      ensures |pts| == Min(limit, |Ranked(records, ranking, filter)|)
      ensures pts <= Ranked(records, ranking, filter)
    {
      var all := Ranked(records, ranking, filter);
      all[..Min(limit, |all|)]
    }

    /** `client.upsert(points)`: all points are written, or none when a vector has the wrong size. */
    method Upsert(points: seq<Point>) returns (ok: bool)
      requires Valid()
      modifies this
      ensures Valid()
      ensures ok <==> forall k :: 0 <= k < |points| ==> |points[k].vector| == dim
      ensures ok ==> (records, order) == UpsertAll(old(records), old(order), points)
      ensures !ok ==> records == old(records) && order == old(order)
    {
      ok := forall k :: 0 <= k < |points| ==> |points[k].vector| == dim;
      if ok {
        UpsertAllWellFormed(records, order, points);
        var next := UpsertAll(records, order, points);
        records, order := next.0, next.1;
      }
    }

    /** `client.delete(points_selector=Filter(source_id == s))`. */
    method DeleteWhereSource(s: string)
      requires Valid()
      modifies this
      ensures Valid()
      ensures (records, order) == DeleteBySource(old(records), old(order), s)
    {
      DeleteBySourceWellFormed(records, order, s);
      var next := DeleteBySource(records, order, s);
      records, order := next.0, next.1;
    }
  }
}
