/**
 * main.py: the two workflow functions. `rag_inngest_pdf` loads and chunks a
 * PDF, then embeds the chunks and upserts them under deterministic ids;
 * `rag_query_pdf_ai` validates the event, runs the hybrid search `_search`
 * and reports the answer with its sources.
 *
 * The remote services are parameters: `embed` is the embedding of one text,
 * `uuid5` is `uuid.uuid5(NAMESPACE_URL, name)`, `ranking` is the store's
 * similarity ranking of the embedded question, `answer` is the stripped reply
 * of the language model.
 */
module RagApp {
  import opened Wrappers
  import opened Types
  import opened Collections
  import opened Strings
  import opened Store
  import opened VectorDb
  import opened Ranking
  import opened DataLoader

  // ---------------------------------------------------------------- ingest

  /** The uuid5 name of chunk `i`: `f"{source_id}:{i}"`. */
  function IdName(sourceId: string, i: nat): string {
    sourceId + ":" + Decimal(i)
  }

  /** The text after the last `:`, or the whole text when it has none. */
  function AfterLastColon(n: string): string {
    if n == [] then []
    else if n[|n| - 1] == ':' then []
    else AfterLastColon(n[..|n| - 1]) + [n[|n| - 1]]
  }

  lemma {:induction false} AfterLastColonOf(s: string, d: string)
    requires forall k :: 0 <= k < |d| ==> d[k] != ':'
    ensures AfterLastColon(s + ":" + d) == d
    decreases |d|
  {
    var n := s + ":" + d;
    if d != [] {
      assert n[..|n| - 1] == s + ":" + d[..|d| - 1];
      AfterLastColonOf(s, d[..|d| - 1]);
    }
  }

  /** Different chunks, or chunks of different sources, get different names. */
  lemma IdNameInjective(s: string, i: nat, t: string, j: nat)
    requires IdName(s, i) == IdName(t, j)
    ensures s == t && i == j
  {
    var a, b := Decimal(i), Decimal(j);
    AfterLastColonOf(s, a);
    AfterLastColonOf(t, b);
    DecimalInjective(i, j);
    var n := IdName(s, i);
    assert s == n[..|s|];
    assert t == n[..|t|];
  }

  /** `[str(uuid.uuid5(NAMESPACE_URL, f"{source_id}:{i}")) for i in range(n)]`. */
  function ChunkIds(sourceId: string, n: nat, uuid5: string -> Id): (ids: seq<Id>)
    ensures |ids| == n
    ensures forall i :: 0 <= i < n ==> ids[i] == uuid5(IdName(sourceId, i))
  {
    seq(n, i requires 0 <= i < n => uuid5(IdName(sourceId, i)))
  }

  /** uuid5 gives different ids to the different names of the first `n` chunks of `sourceId`. */
  predicate NoCollisions(sourceId: string, n: nat, uuid5: string -> Id) {
    forall i, j :: 0 <= i < n && 0 <= j < n && uuid5(IdName(sourceId, i)) == uuid5(IdName(sourceId, j)) ==>
      IdName(sourceId, i) == IdName(sourceId, j)
  }

  /** When uuid5 does not collide on this ingest's names, the chunks of the ingest get distinct ids. */
  lemma ChunkIdsDistinct(sourceId: string, n: nat, uuid5: string -> Id)
    requires NoCollisions(sourceId, n, uuid5)
    ensures Distinct(ChunkIds(sourceId, n, uuid5))
  {
    var ids := ChunkIds(sourceId, n, uuid5);
    forall i, j | 0 <= i < j < n ensures ids[i] != ids[j] {
      if ids[i] == ids[j] {
        IdNameInjective(sourceId, i, sourceId, j);
      }
    }
  }

  /** More chunks of the same source extend the id list: id `i` depends only on the source and `i`. */
  lemma ChunkIdsPrefix(sourceId: string, n: nat, m: nat, uuid5: string -> Id)
    requires n <= m
    ensures ChunkIds(sourceId, n, uuid5) == ChunkIds(sourceId, m, uuid5)[..n]
  {
    assert forall i :: 0 <= i < n ==> ChunkIds(sourceId, n, uuid5)[i] == ChunkIds(sourceId, m, uuid5)[i];
  }

  /** `[{"source_id": source_id, "text": chunks[i]} for i in range(len(chunks))]`. */
  function ChunkPayloads(sourceId: string, chunks: seq<string>): (ps: seq<Payload>)
    ensures |ps| == |chunks|
    ensures forall i :: 0 <= i < |chunks| ==> ps[i] == Payload(Some(sourceId), Some(chunks[i]))
  {
    seq(|chunks|, i requires 0 <= i < |chunks| => Payload(Some(sourceId), Some(chunks[i])))
  }

  /** `embed_texts(chunks)`: one vector per chunk, in order. */
  function Embeddings(chunks: seq<string>, embed: string -> Vector): (vs: seq<Vector>)
    ensures |vs| == |chunks|
    ensures forall i :: 0 <= i < |chunks| ==> vs[i] == embed(chunks[i])
  {
    seq(|chunks|, i requires 0 <= i < |chunks| => embed(chunks[i]))
  }

  /** The points `_upsert` writes: chunk `i` under its id, with its vector and payload. */
  function IngestPoints(sourceId: string, chunks: seq<string>, embed: string -> Vector, uuid5: string -> Id): (ps: seq<Point>)
    ensures |ps| == |chunks|
    ensures forall i :: 0 <= i < |chunks| ==>
      ps[i] == Point(ChunkIds(sourceId, |chunks|, uuid5)[i], embed(chunks[i]), Payload(Some(sourceId), Some(chunks[i])))
  {
    var ids := ChunkIds(sourceId, |chunks|, uuid5);
    seq(|chunks|, i requires 0 <= i < |chunks| => Point(ids[i], embed(chunks[i]), Payload(Some(sourceId), Some(chunks[i]))))
  }

  /** After the ingest, the id of chunk `i` holds the chunk's vector, its text and its source. */
  lemma IngestStored(records: Records, order: seq<Id>, sourceId: string, chunks: seq<string>,
                     embed: string -> Vector, uuid5: string -> Id, i: nat)
    requires NoCollisions(sourceId, |chunks|, uuid5)
    requires i < |chunks|
    ensures var after := UpsertAll(records, order, IngestPoints(sourceId, chunks, embed, uuid5)).0;
            var id := ChunkIds(sourceId, |chunks|, uuid5)[i];
            id in after && after[id] == Record(embed(chunks[i]), Payload(Some(sourceId), Some(chunks[i])))
  {
    var ps := IngestPoints(sourceId, chunks, embed, uuid5);
    ChunkIdsDistinct(sourceId, |chunks|, uuid5);
    UpsertAllLastWins(records, order, ps, i);
  }

  /** The ingest touches no record outside its own ids. */
  lemma IngestLeavesOthers(records: Records, order: seq<Id>, sourceId: string, chunks: seq<string>,
                           embed: string -> Vector, uuid5: string -> Id, id: Id)
    requires id !in ChunkIds(sourceId, |chunks|, uuid5)
    ensures var after := UpsertAll(records, order, IngestPoints(sourceId, chunks, embed, uuid5)).0;
            (id in after <==> id in records) && (id in records ==> after[id] == records[id])
  {
    var ps := IngestPoints(sourceId, chunks, embed, uuid5);
    assert forall j :: 0 <= j < |ps| ==> ps[j].id == ChunkIds(sourceId, |chunks|, uuid5)[j];
    UpsertAllOthers(records, order, ps, id);
  }

  /** Ingesting the same chunks of the same source again changes nothing. */
  lemma ReingestIdempotent(records: Records, order: seq<Id>, sourceId: string, chunks: seq<string>,
                           embed: string -> Vector, uuid5: string -> Id)
    ensures var ps := IngestPoints(sourceId, chunks, embed, uuid5);
            var once := UpsertAll(records, order, ps);
            UpsertAll(once.0, once.1, ps) == once
  {
    UpsertAllIdempotent(records, order, IngestPoints(sourceId, chunks, embed, uuid5));
  }

  /** The `rag/ingest_pdf` event: `pdf_path` and an optional `source_id`. */
  datatype IngestEvent = IngestEvent(pdfPath: string, sourceId: Option<string>)

  /** `_load`: chunks the PDF under the event's `source_id`, which defaults to the PDF path. */
  method Load(event: IngestEvent, docs: seq<Document>, split: string -> seq<string>) returns (r: Result<RAGChunkAndSrc, Error>)
    ensures r.Failure? <==> forall k :: 0 <= k < |ExtractedTexts(docs)| ==> Blank(ExtractedTexts(docs)[k])
    ensures r.Failure? ==> r.error == NoTextExtracted(event.pdfPath)
    ensures r.Success? ==> r.value.chunks == ConcatSplits(ExtractedTexts(docs), split)
    ensures r.Success? ==> r.value.sourceId == if event.sourceId.Some? then event.sourceId.value else event.pdfPath
  {
    var pdfPath := event.pdfPath;
    var sourceId := event.sourceId.GetOr(pdfPath);
    var chunks := LoadAndChunkPdf(pdfPath, docs, split);
    if chunks.Failure? {
      return Failure(chunks.error);
    }
    r := Success(RAGChunkAndSrc(chunks.value, sourceId));
  }

  /** `_upsert`: writes every chunk under its id and reports how many there were. */
  method UpsertChunks(store: QdrantStorage, data: RAGChunkAndSrc, embed: string -> Vector, uuid5: string -> Id)
    returns (r: Result<RAGUpsertResult, Error>)
    requires store.Valid()
    modifies store.client
    ensures store.Valid()
    ensures r.Success? <==> forall i :: 0 <= i < |data.chunks| ==> |embed(data.chunks[i])| == store.client.dim
    ensures r.Success? ==> r.value.inngested == |data.chunks|
    ensures r.Success? ==>
      (store.client.records, store.client.order)
      == UpsertAll(old(store.client.records), old(store.client.order), IngestPoints(data.sourceId, data.chunks, embed, uuid5))
    ensures r.Failure? ==>
      && r.error == WrongDimension
      && store.client.records == old(store.client.records) && store.client.order == old(store.client.order)
  {
    var chunks := data.chunks;
    var sourceId := data.sourceId;
    var vecs := Embeddings(chunks, embed);
    var ids := ChunkIds(sourceId, |chunks|, uuid5);
    var payloads := ChunkPayloads(sourceId, chunks);
    assert ZipPoints(ids, vecs, payloads).value == IngestPoints(sourceId, chunks, embed, uuid5);
    var done := store.UpsertVectors(ids, vecs, payloads);
    if done.Failure? {
      return Failure(done.error);
    }
    r := Success(RAGUpsertResult(|chunks|));
  }

  /** `rag_inngest_pdf`: the load step, then the upsert step on its output. */
  method RagIngestPdf(store: QdrantStorage, event: IngestEvent, docs: seq<Document>, split: string -> seq<string>,
                      embed: string -> Vector, uuid5: string -> Id)
    returns (r: Result<RAGUpsertResult, Error>)
    requires store.Valid()
    modifies store.client
    ensures store.Valid()
    ensures (forall k :: 0 <= k < |ExtractedTexts(docs)| ==> Blank(ExtractedTexts(docs)[k])) ==>
      && r == Failure(NoTextExtracted(event.pdfPath))
      && store.client.records == old(store.client.records) && store.client.order == old(store.client.order)
    ensures !(forall k :: 0 <= k < |ExtractedTexts(docs)| ==> Blank(ExtractedTexts(docs)[k])) ==>
      var chunks := ConcatSplits(ExtractedTexts(docs), split);
      && (r.Success? <==> forall i :: 0 <= i < |chunks| ==> |embed(chunks[i])| == store.client.dim)
      && (r.Failure? ==> r.error == WrongDimension)
    ensures r.Failure? ==> store.client.records == old(store.client.records) && store.client.order == old(store.client.order)
    ensures r.Success? ==> r.value.inngested == |ConcatSplits(ExtractedTexts(docs), split)|
    ensures r.Success? ==>
      (store.client.records, store.client.order)
      == UpsertAll(old(store.client.records), old(store.client.order),
                   IngestPoints(event.sourceId.GetOr(event.pdfPath), ConcatSplits(ExtractedTexts(docs), split), embed, uuid5))
  {
    var chunksAndSrc := Load(event, docs, split);
    if chunksAndSrc.Failure? {
      return Failure(chunksAndSrc.error);
    }
    r := UpsertChunks(store, chunksAndSrc.value, embed, uuid5);
  }

  // ---------------------------------------------------------------- query

  /** The number of candidates `_search` asks the store for. */
  const CandidateLimit: nat := 500

  /** The `top_k` of a query event that does not give one. */
  const DefaultTopK: int := 15

  /** The candidates of the rescoring: the shaped results of an unfiltered query for 500 points. */
  function Candidates(client: Collection, ranking: seq<(Id, real)>): (cands: seq<SearchResult>)
    reads client
    requires client.Valid()
    ensures |cands| <= CandidateLimit
  {
    ShapeResults(client.QueryPoints(ranking, CandidateLimit, None))
  }

  /** `results[:top_k]` after rescoring and the stable descending sort. */
  function TopResults(cands: seq<SearchResult>, question: string, topK: int): (top: seq<SearchResult>)
    ensures |top| == if topK >= 0 then Min(topK, |cands|) else Max(|cands| + topK, 0)
    ensures NonIncreasing(top)
    ensures multiset(top) <= multiset(RescoreAll(Terms(question), cands))
  {
    var rescored := RescoreAll(Terms(question), cands);
    var sorted := SortDesc(rescored);
    SortDescSorted(rescored);
    var top := SliceTo(sorted, topK);
    NonIncreasingPrefix(sorted, |top|);
    PrefixSplit(sorted, |top|);
    top
  }

  /** A rescored candidate left out of the top results scores no higher than any kept one. */
  lemma TopResultsBest(cands: seq<SearchResult>, question: string, topK: int, c: SearchResult)
    requires multiset(TopResults(cands, question, topK))[c] < multiset(RescoreAll(Terms(question), cands))[c]
    ensures forall i :: 0 <= i < |TopResults(cands, question, topK)| ==> TopResults(cands, question, topK)[i].score >= c.score
  {
    var rescored := RescoreAll(Terms(question), cands);
    var sorted := SortDesc(rescored);
    var top := TopResults(cands, question, topK);
    assert top == SliceTo(sorted, topK);
    var rest := sorted[|top|..];
    PrefixSplit(sorted, |top|);
    assert c in multiset(rest);
    var k :| 0 <= k < |rest| && rest[k] == c;
    SortDescSorted(rescored);
    forall i | 0 <= i < |top| ensures top[i].score >= c.score {
      assert top[i] == sorted[i] && c == sorted[|top| + k];
    }
  }

  /** Among equal adjusted scores the top results keep the store's order, and they are the first ones of that score. */
  lemma TopResultsStable(cands: seq<SearchResult>, question: string, topK: int, v: real)
    ensures WithScore(TopResults(cands, question, topK), v) <= WithScore(RescoreAll(Terms(question), cands), v)
  {
    var rescored := RescoreAll(Terms(question), cands);
    var sorted := SortDesc(rescored);
    var top := TopResults(cands, question, topK);
    assert sorted == top + sorted[|top|..];
    WithScoreAppend(top, sorted[|top|..], v);
    SortDescStable(rescored, v);
  }

  /** `_search(question, top_k)`: the contexts of the best rescored candidates in rank order, and their distinct sources. */
  method Search(store: QdrantStorage, ranking: seq<(Id, real)>, question: string, topK: int) returns (r: RAGSearchResult)
    requires store.Valid()
    ensures r.contexts == Texts(TopResults(Candidates(store.client, ranking), question, topK))
    ensures Distinct(r.sources)
    ensures forall s :: s in r.sources <==> s in SourceSet(TopResults(Candidates(store.client, ranking), question, topK))
  {
    var rawFound := store.SearchVectors(ranking, CandidateLimit, None);
    var results := rawFound.results;
    var terms := Terms(question);
    for i := 0 to |results|
      invariant |results| == |rawFound.results|
      invariant forall k :: 0 <= k < i ==> results[k] == Rescored(terms, rawFound.results[k])
      invariant forall k :: i <= k < |results| ==> results[k] == rawFound.results[k]
    {
      var r := results[i];
      var matches := Matches(terms, r.source);
      if matches > 0 {
        results := results[i := r.(score := r.score + (0.5 + (matches as real) * 0.1))];
      }
    }
    assert results == RescoreAll(terms, rawFound.results);
    results := SortDesc(results);
    var topResults := SliceTo(results, topK);
    var contexts := Texts(topResults);
    var sources := ListOfSet(SourceSet(topResults));
    r := RAGSearchResult(contexts, sources);
  }

  /** The `rag/query_pdf_ai` event: an optional question and an optional `top_k`. */
  datatype QueryEvent = QueryEvent(question: Option<string>, topK: Option<int>)

  /** The event check: a missing or empty question is refused; `top_k` defaults to 15. */
  function ValidateQuery(event: QueryEvent): (r: Result<(string, int), Error>)
    ensures r.Failure? <==> event.question.None? || event.question.value == ""
    ensures r.Failure? ==> r.error == MissingQuestion
    ensures r.Success? ==> r.value.0 == event.question.value && r.value.0 != ""
    ensures r.Success? ==> r.value.1 == if event.topK.Some? then event.topK.value else DefaultTopK
  {
    if event.question.None? || event.question.value == "" then Failure(MissingQuestion)
    else Success((event.question.value, event.topK.GetOr(DefaultTopK)))
  }

  /** `rag_query_pdf_ai`: refuses a missing question before any search, else answers from the top results. */
  method RagQueryPdfAi(store: QdrantStorage, event: QueryEvent, ranking: seq<(Id, real)>, answer: string)
    returns (r: Result<RAGQueryResult, Error>)
    requires store.Valid()
    ensures r.Failure? <==> event.question.None? || event.question.value == ""
    ensures r.Failure? ==> r.error == MissingQuestion
    ensures r.Success? ==>
      var top := TopResults(Candidates(store.client, ranking), event.question.value, event.topK.GetOr(DefaultTopK));
      && r.value.answer == answer
      && r.value.numContexts == |top|
      && Distinct(r.value.sources)
      && (forall s :: s in r.value.sources <==> s in SourceSet(top))
  {
    var query := ValidateQuery(event);
    if query.Failure? {
      return Failure(query.error);
    }
    var question := query.value.0;
    var topK := query.value.1;
    var found := Search(store, ranking, question, topK);
    r := Success(RAGQueryResult(answer, |found.contexts|, found.sources));
  }
}
