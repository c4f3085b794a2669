/**
 * vector_db.py: the `QdrantStorage` wrapper around one collection of the
 * store model: building points for upsert, the optional source filter and
 * the shaping of search results, deletion by source, and the paginated scan
 * that enumerates the sources.
 */
module VectorDb {
  import opened Wrappers
  import opened Types
  import opened Collections
  import opened Strings
  import opened Store

  /** Point i is `(ids[i], vectors[i], payloads[i])`; a short `vectors` or `payloads` raises `IndexError`. */
  function ZipPoints(ids: seq<Id>, vectors: seq<Vector>, payloads: seq<Payload>): (r: Result<seq<Point>, Error>)
    ensures r.Success? <==> |vectors| >= |ids| && |payloads| >= |ids|
    ensures r.Failure? ==> r.error == IndexError
    ensures r.Success? ==> |r.value| == |ids|
    ensures r.Success? ==> forall i :: 0 <= i < |ids| ==>
      r.value[i].id == ids[i] && r.value[i].vector == vectors[i] && r.value[i].payload == payloads[i]
  {
    if |vectors| < |ids| || |payloads| < |ids| then Failure(IndexError)
    else Success(seq(|ids|, i requires 0 <= i < |ids| => Point(ids[i], vectors[i], payloads[i])))
  }

  /** The query filter: a source condition only for a truthy `source_id`. */
  function SourceFilter(sourceId: Option<string>): (f: Option<Filter>)
    ensures f.Some? <==> sourceId.Some? && sourceId.value != ""
    ensures f.Some? ==> f.value == SourceIs(sourceId.value)
  {
    if sourceId.Some? && sourceId.value != "" then Some(SourceIs(sourceId.value)) else None
  }

  /** A point with non-empty text gives one result; its source defaults to `""`. */
  function ShapeOne(p: ScoredPoint): seq<SearchResult> {
    if p.payload.text.Some? && p.payload.text.value != ""
    then [SearchResult(p.payload.text.value, p.payload.sourceId.GetOr(""), p.score)]
    else []
  }

  /** The results `search_vectors` builds from the points the store returns. */
  function ShapeResults(ps: seq<ScoredPoint>): (rs: seq<SearchResult>)
    ensures |rs| <= |ps|
    ensures forall k :: 0 <= k < |rs| ==> rs[k].text != ""
  {
    if ps == [] then [] else ShapeResults(ps[..|ps| - 1]) + ShapeOne(ps[|ps| - 1])
  }

  /** Shaping works point by point: it keeps the store's order and drops points independently. */
  lemma {:induction false} ShapeResultsAppend(a: seq<ScoredPoint>, b: seq<ScoredPoint>)
    ensures ShapeResults(a + b) == ShapeResults(a) + ShapeResults(b)
    decreases |b|
  {
    if b == [] {
      assert a + b == a;
    } else {
      assert (a + b)[..|a + b| - 1] == a + b[..|b| - 1];
      ShapeResultsAppend(a, b[..|b| - 1]);
    }
  }

  /** Every point with text contributes, none without. */
  lemma {:induction false} ShapeResultsKeepsAll(ps: seq<ScoredPoint>)
    ensures |ShapeResults(ps)| == |ps| <==> forall k :: 0 <= k < |ps| ==> ps[k].payload.text.Some? && ps[k].payload.text.value != ""
  {
    if ps != [] {
      var init := ps[..|ps| - 1];
      ShapeResultsKeepsAll(init);
      assert forall k :: 0 <= k < |init| ==> init[k] == ps[k];
    }
  }

  /** Results built from points of source `s` all name `s` as their source. */
  lemma {:induction false} ShapeResultsSource(ps: seq<ScoredPoint>, s: string)
    requires forall k :: 0 <= k < |ps| ==> ps[k].payload.sourceId == Some(s)
    ensures forall k :: 0 <= k < |ShapeResults(ps)| ==> ShapeResults(ps)[k].source == s
  {
    if ps != [] {
      ShapeResultsSource(ps[..|ps| - 1], s);
    }
  }

  function Texts(rs: seq<SearchResult>): (ts: seq<string>)
    ensures |ts| == |rs|
    ensures forall i :: 0 <= i < |rs| ==> ts[i] == rs[i].text
  {
    seq(|rs|, i requires 0 <= i < |rs| => rs[i].text)
  }

  function SourceSet(rs: seq<SearchResult>): set<string> {
    set r | r in rs :: r.source
  }

  /** The dictionary `search_vectors` returns. */
  datatype SearchVectorsResult = SearchVectorsResult(context: seq<string>, sources: seq<string>, results: seq<SearchResult>)

  /** The truthy `source_id` of one point, as a set of zero or one element. */
  function SourceOf(p: Point): set<string> {
    if p.payload.sourceId.Some? && p.payload.sourceId.value != "" then {p.payload.sourceId.value} else {}
  }

  /** The truthy `source_id`s of a sequence of points. */
  function SourcesOf(ps: seq<Point>): set<string> {
    if ps == [] then {} else SourcesOf(ps[..|ps| - 1]) + SourceOf(ps[|ps| - 1])
  }

  /** A string is among the sources of `ps` exactly when it is non-empty and some point carries it. */
  lemma {:induction false} SourcesOfMembers(ps: seq<Point>, s: string)
    ensures s in SourcesOf(ps) <==> s != "" && exists i :: 0 <= i < |ps| && ps[i].payload.sourceId == Some(s)
  {
    if ps != [] {
      var init := ps[..|ps| - 1];
      SourcesOfMembers(init, s);
      assert forall i :: 0 <= i < |init| ==> init[i] == ps[i];
    }
  }

  /** The sources of a scan do not depend on how it is cut into pages. */
  lemma {:induction false} SourcesOfAppend(a: seq<Point>, b: seq<Point>)
    ensures SourcesOf(a + b) == SourcesOf(a) + SourcesOf(b)
    decreases |b|
  {
    if b == [] {
      assert a + b == a;
    } else {
      assert (a + b)[..|a + b| - 1] == a + b[..|b| - 1];
      SourcesOfAppend(a, b[..|b| - 1]);
    }
  }

  /** Deleting source `s` removes `s` from the enumerated sources and keeps every other one. */
  lemma DeletedSourceNotListed(ps: seq<Point>, s: string)
    ensures SourcesOf(DropSource(ps, s)) == SourcesOf(ps) - {s}
  {
    var kept := DropSource(ps, s);
    forall x ensures x in SourcesOf(kept) <==> x in SourcesOf(ps) && x != s {
      SourcesOfMembers(kept, x);
      SourcesOfMembers(ps, x);
      if x in SourcesOf(kept) {
        var i :| 0 <= i < |kept| && kept[i].payload.sourceId == Some(x);
        assert kept[i] in ps;
        var j :| 0 <= j < |ps| && ps[j] == kept[i];
      }
      if x in SourcesOf(ps) && x != s {
        var j :| 0 <= j < |ps| && ps[j].payload.sourceId == Some(x);
        assert ps[j] in kept;
        var i :| 0 <= i < |kept| && kept[i] == ps[j];
      }
    }
  }

  /** Adds the truthy `source_id` of each point of one page. */
  method AddSources(sources: set<string>, batch: seq<Point>) returns (r: set<string>)
    ensures r == sources + SourcesOf(batch)
  {
    r := sources;
    for i := 0 to |batch|
      invariant r == sources + SourcesOf(batch[..i])
    {
      var payload := batch[i].payload;
      var s := payload.sourceId;
      if s.Some? && s.value != "" {
        r := r + {s.value};
      }
      assert batch[..i + 1][..i] == batch[..i];
    }
    assert batch[..|batch|] == batch;
  }

  /** The sources seen so far grow by one page: up to the next offset, or to the end of the scan. */
  lemma PageSources(all: seq<Point>, seen: nat, batch: seq<Point>, next: Option<nat>)
    requires seen <= |all|
    requires next.None? ==> batch == all[seen..]
    requires next.Some? ==> seen < next.value < |all| && batch == all[seen..next.value]
    ensures next.None? ==> SourcesOf(all[..seen]) + SourcesOf(batch) == SourcesOf(all)
    ensures next.Some? ==> SourcesOf(all[..seen]) + SourcesOf(batch) == SourcesOf(all[..next.value])
  {
    var end := if next.None? then |all| else next.value;
    TakeDropJoin(all, seen, end);
    SourcesOfAppend(all[..seen], batch);
    assert all[..|all|] == all;
  }

  /** The page size of the scroll loops. */
  const ScrollLimit: nat := 100

  class QdrantStorage {
    const client: Collection
    const collection: string
    const dim: nat

    ghost predicate Valid()
      reads this, client
    {
      client.Valid()
    }

    /** Opens the default collection `docs_2560` of dimension 2560 on the given client. */
    constructor (client: Collection)
      requires client.Valid()
      ensures Valid()
      ensures this.client == client
      ensures collection == "docs_2560" && dim == 2560
    {
      this.client := client;
      collection := "docs_2560";
      dim := 2560;
    }

    method UpsertVectors(ids: seq<Id>, vectors: seq<Vector>, payloads: seq<Payload>) returns (r: Result<(), Error>)
      requires Valid()
      modifies client
      ensures Valid()
      ensures ZipPoints(ids, vectors, payloads).Failure? ==>
        r == Failure(IndexError) && client.records == old(client.records) && client.order == old(client.order)
      ensures ZipPoints(ids, vectors, payloads).Success? ==>
        var points := ZipPoints(ids, vectors, payloads).value;
        && (r.Success? <==> forall k :: 0 <= k < |points| ==> |points[k].vector| == client.dim)
        && (r.Success? ==> (client.records, client.order) == UpsertAll(old(client.records), old(client.order), points))
        && (r.Failure? ==> r.error == WrongDimension && client.records == old(client.records) && client.order == old(client.order))
    {
      var zipped := ZipPoints(ids, vectors, payloads);
      if zipped.Failure? {
        return Failure(IndexError);
      }
      var ok := client.Upsert(zipped.value);
      r := if ok then Success(()) else Failure(WrongDimension);
    }

    /**
     * `search_vectors`: `ranking` is the store's similarity ranking of the query vector
     * (above the score threshold, best first).
     */
    method SearchVectors(ranking: seq<(Id, real)>, topK: nat, sourceId: Option<string>) returns (out: SearchVectorsResult)
      requires Valid()
      ensures out.results == ShapeResults(client.QueryPoints(ranking, topK, SourceFilter(sourceId)))
      ensures sourceId.Some? && sourceId.value != "" ==>
        forall k :: 0 <= k < |out.results| ==> out.results[k].source == sourceId.value
      ensures !(sourceId.Some? && sourceId.value != "") ==>
        out.results == ShapeResults(client.QueryPoints(ranking, topK, None))
      ensures |out.results| <= topK
      ensures out.context == Texts(out.results)
      ensures Distinct(out.sources)
      ensures forall s :: s in out.sources <==> s in SourceSet(out.results)
    {
      var queryFilter := SourceFilter(sourceId);
      var points := client.QueryPoints(ranking, topK, queryFilter);
      var results: seq<SearchResult> := [];
      for i := 0 to |points|
        invariant results == ShapeResults(points[..i])
      {
        var p := points[i];
        var payload := p.payload;
        var text := payload.text;
        if text.Some? && text.value != "" {
          results := results + [SearchResult(text.value, payload.sourceId.GetOr(""), p.score)];
        }
        assert points[..i + 1][..i] == points[..i];
      }
      assert points[..|points|] == points;
      if queryFilter.Some? {
        ShapeResultsSource(points, sourceId.value);
      }
      var sources := ListOfSet(SourceSet(results));
      out := SearchVectorsResult(Texts(results), sources, results);
    }

    /** `delete_source`: removes exactly the records whose `source_id` is `s`. */
    method DeleteSource(s: string)
      requires Valid()
      modifies client
      ensures Valid()
      ensures (client.records, client.order) == DeleteBySource(old(client.records), old(client.order), s)
    {
      client.DeleteWhereSource(s);
    }

    /** `list_sources`: the truthy `source_id`s of the whole collection, sorted, each once. */
    method ListSources() returns (r: seq<string>)
      requires Valid()
      ensures Ascending(r)
      ensures forall s :: s in r <==> s in SourcesOf(client.Scan())
    {
      ghost var all := client.Scan();
      ghost var seen: nat := 0;
      var sources: set<string> := {};
      var nextOffset: Option<nat> := None;
      while true
        invariant seen <= |all|
        invariant nextOffset == if seen == 0 then None else Some(seen)
        invariant sources == SourcesOf(all[..seen])
        decreases |all| - seen
      {
        assert Start(nextOffset, |client.order|) == seen;
        var page := client.Scroll(nextOffset, ScrollLimit);
        sources := AddSources(sources, page.points);
        PageSources(all, seen, page.points, page.next);
        nextOffset := page.next;
        if nextOffset.None? {
          break;
        }
        seen := nextOffset.value;
      }
      r := SortedList(sources);
    }
  }
}
