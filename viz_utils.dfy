/**
 * viz_utils.py: the data preparation of `get_visualization_data` that comes
 * before the dimensionality reduction: fetching every stored point page by
 * page, one vector and one metadata row per point, and the query row.
 */
module VizUtils {
  import opened Wrappers
  import opened Types
  import opened Collections
  import opened Store
  import opened VectorDb

  /** One metadata row: `{"source", "text", "type", "size"}`. */
  datatype Row = Row(source: string, text: string, kind: string, size: nat)

  /** What the preparation hands to the reduction step: the vectors and their rows, aligned. */
  datatype VizData = VizData(vectors: seq<Vector>, metadata: seq<Row>)

  /** The preview of a payload text: at most its first 100 characters and then `...`, or `No text` when the text is falsy. */
  function TextPreview(text: Option<string>): (s: string)
    ensures text.Some? && text.value != "" ==>
      && |s| == Min(100, |text.value|) + 3
      && s[..|s| - 3] <= text.value
      && s[|s| - 3..] == "..."
    ensures !(text.Some? && text.value != "") ==> s == "No text"
  {
    if text.Some? && text.value != "" then text.value[..Min(100, |text.value|)] + "..." else "No text"
  }

  /** The row of one stored point. */
  function DocumentRow(p: Point): (row: Row)
    ensures row.source == p.payload.sourceId.GetOr("Unknown")
    ensures row.text == TextPreview(p.payload.text)
    ensures row.kind == "Document" && row.size == 5
  {
    Row(p.payload.sourceId.GetOr("Unknown"), TextPreview(p.payload.text), "Document", 5)
  }

  /** The row of the query point. */
  function QueryRow(queryText: Option<string>): (row: Row)
    ensures row.source == "User Query" && row.kind == "Query" && row.size == 12
    ensures queryText.Some? && queryText.value != "" ==> row.text == queryText.value
    ensures !(queryText.Some? && queryText.value != "") ==> row.text == "Query"
  {
    Row("User Query", if queryText.Some? && queryText.value != "" then queryText.value else "Query", "Query", 12)
  }

  /** The scroll loop: every page is appended in order until the store reports no next offset. */
  method FetchAllPoints(store: QdrantStorage) returns (points: seq<Point>)
    requires store.Valid()
    ensures points == store.client.Scan()
  {
    ghost var all := store.client.Scan();
    ghost var seen: nat := 0;
    points := [];
    var nextOffset: Option<nat> := None;
    while true
      invariant seen <= |all|
      invariant nextOffset == if seen == 0 then None else Some(seen)
      invariant points == all[..seen]
      decreases |all| - seen
    {
      assert Start(nextOffset, |store.client.order|) == seen;
      var page := store.client.Scroll(nextOffset, ScrollLimit);
      points := points + page.points;
      nextOffset := page.next;
      if nextOffset.None? {
        TakeDropJoin(all, seen, |all|);
        assert all[..|all|] == all;
        break;
      }
      TakeDropJoin(all, seen, nextOffset.value);
      seen := nextOffset.value;
    }
  }

  /**
   * `get_visualization_data(query_vector, query_text)` up to the reduction:
   * nothing for an empty collection, else one vector and one row per point in
   * scan order, and the query point last when a query vector is given.
   */
  method GetVisualizationData(store: QdrantStorage, queryVector: Option<Vector>, queryText: Option<string>)
    returns (r: Option<VizData>)
    requires store.Valid()
    ensures r.None? <==> store.client.Scan() == []
    ensures r.Some? ==>
      var ps := store.client.Scan();
      var extra := if queryVector.Some? then 1 else 0;
      && |r.value.vectors| == |ps| + extra
      && |r.value.metadata| == |ps| + extra
      && (forall i :: 0 <= i < |ps| ==> r.value.vectors[i] == ps[i].vector && r.value.metadata[i] == DocumentRow(ps[i]))
      && (queryVector.Some? ==> r.value.vectors[|ps|] == queryVector.value && r.value.metadata[|ps|] == QueryRow(queryText))
  {
    var points := FetchAllPoints(store);
    if points == [] {
      return None;
    }
    var vectors: seq<Vector> := [];
    var metadata: seq<Row> := [];
    for i := 0 to |points|
      invariant |vectors| == i && |metadata| == i
      invariant forall k :: 0 <= k < i ==> vectors[k] == points[k].vector && metadata[k] == DocumentRow(points[k])
    {
      var p := points[i];
      vectors := vectors + [p.vector];
      var payload := p.payload;
      var textPreview := if payload.text.Some? && payload.text.value != ""
        then payload.text.value[..Min(100, |payload.text.value|)] + "..."
        else "No text";
      metadata := metadata + [Row(payload.sourceId.GetOr("Unknown"), textPreview, "Document", 5)];
    }
    if queryVector.Some? {
      vectors := vectors + [queryVector.value];
      var text := if queryText.Some? && queryText.value != "" then queryText.value else "Query";
      metadata := metadata + [Row("User Query", text, "Query", 12)];
    }
    r := Some(VizData(vectors, metadata));
  }
}
