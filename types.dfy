/**
 * The records that flow through the pipeline: the pydantic models of
 * custom_types.py and the point and payload shapes of the vector store.
 */
module Types {
  import opened Wrappers

  /** A point id (the string form of a UUID). */
  type Id = string

  /** An embedding; its numbers are opaque here. */
  type Vector = seq<real>

  /**
   * A point's payload: `source_id` and `text`, each possibly absent.
   * A point with no payload at all (`p.payload or {}`) is `Payload(None, None)`.
   */
  datatype Payload = Payload(sourceId: Option<string>, text: Option<string>)

  /** What the store keeps under an id. */
  datatype Record = Record(vector: Vector, payload: Payload)

  /** A point as given to `upsert` and as returned by `scroll`. */
  datatype Point = Point(id: Id, vector: Vector, payload: Payload)

  /** A point as returned by a similarity query, with its score. */
  datatype ScoredPoint = ScoredPoint(id: Id, payload: Payload, score: real)

  /** The `{"text", "source", "score"}` dictionaries search results are shaped into. */
  datatype SearchResult = SearchResult(text: string, source: string, score: real)

  /** The exceptions the core raises. */
  datatype Error =
    | MissingQuestion          // the query event carries no question
    | NoTextExtracted(path: string)  // the PDF gave no usable text
    | IndexError               // fewer vectors or payloads than ids
    | WrongDimension           // the store refuses a vector of the wrong size

  datatype RAGChunkAndSrc = RAGChunkAndSrc(chunks: seq<string>, sourceId: string)

  datatype RAGUpsertResult = RAGUpsertResult(inngested: int)

  datatype RAGSearchResult = RAGSearchResult(contexts: seq<string>, sources: seq<string>)

  datatype RAGQueryResult = RAGQueryResult(answer: string, numContexts: int, sources: seq<string>)
}
