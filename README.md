# A verified model of a small RAG pipeline's retrieval core

The system ingests PDF files into a Qdrant vector collection and answers questions from that collection. This model covers four parts of it:

- **Ingest.** A PDF's extracted texts are chunked. Each chunk gets a deterministic id and a `{source_id, text}` payload, and the chunks are upserted into the vector store.
- **Query.** The question is validated. The 500 most similar stored chunks are fetched, and each one's score is boosted by how many question terms occur in its source name. The candidates are stable-sorted by score, truncated to `top_k`, and returned as contexts plus their distinct sources.
- **Store wrapper.** `QdrantStorage` upserts, searches with an optional source filter, deletes by source, and lists the sources with a paginated scroll.
- **Visualisation.** All points are fetched page by page and turned into one vector and one metadata row each, plus an optional query row.

The Qdrant client is an abstract in-memory collection (`Store.Collection`). It holds a map from id to record and a scan order. Upsert overwrites, delete goes by a source filter, `scroll` pages through the scan order, and `query_points` filters and truncates a similarity ranking that the store supplies. `QdrantStorage`, the scroll loops and the rescoring loop are imperative methods verified against pure specification functions. The properties that involve several calls are lemmas.

External services are parameters of the model:

- `embed`: the embedding of one text.
- `uuid5`: `uuid.uuid5(NAMESPACE_URL, name)`.
- `docs`: what the PDF reader extracted.
- `split`: `SentenceSplitter.split_text`.
- `ranking`: the store's cosine ranking of the embedded question, above the score threshold, best first.
- `answer`: the stripped reply of the language model.

Files:

| file | module | models |
|---|---|---|
| wrappers.dfy | `Wrappers` | `Option`, `Result` |
| collections.dfy | `Collections` | Python `s[:k]` and `list(set)` |
| strings.dfy | `Strings` | `isspace`, `lower`, `split()`, `in` on strings, `str(n)`, `sorted` on strings |
| types.dfy | `Types` | custom_types.py and the point and payload shapes |
| store.dfy | `Store` | the abstract Qdrant collection |
| vector_db.dfy | `VectorDb` | vector_db.py |
| ranking.dfy | `Ranking` | the terms, matches, boost and stable descending sort of `_search` |
| data_loader.dfy | `DataLoader` | `load_and_chunk_pdf` |
| viz_utils.dfy | `VizUtils` | `get_visualization_data` before the PCA |
| main.dfy | `RagApp` | main.py's ingest and query functions |

Two consequences of `load_and_chunk_pdf` that the model keeps:

- **Empty-document check.** `load_and_chunk_pdf` rejects an extraction before splitting, and only when every extracted text is blank (data_loader.py:21-22). It never checks the chunk list afterwards (data_loader.py:23-26). If the splitter returns no chunks, `load_and_chunk_pdf` returns an empty list, as `DataLoader.LoadAndChunkPdf` states. The model's `RagApp.RagIngestPdf` then upserts nothing and reports 0 chunks. The code sends that empty batch to `embed_texts` (main.py:36), and the model does not capture what the remote service does with it.
- **Whitespace-only texts.** Whenever at least one text has content, every extracted text is passed to the splitter, including whitespace-only ones. Whether a chunk can be empty or whitespace-only is up to the splitter.

## Model

| member | source | states |
|---|---|---|
| Collections.ListOfSet | main.py:71 | `list(set(...))` holds every element of the set exactly once and nothing else |
| Strings.Lower | main.py:59 | lower-casing keeps the length, maps each character on its own, and leaves no upper-case letter |
| Strings.LowerAppend | main.py:59 | lower-casing a concatenation lower-cases each part |
| Strings.Split | main.py:59 | every token of `split()` is non-empty, holds no whitespace, and is made of characters of the input |
| Strings.SplitAtSpace | main.py:59 | splitting at whitespace splits the two sides independently and concatenates the tokens |
| Strings.SplitWord | main.py:59 | a non-empty text without whitespace is exactly one token |
| Strings.SplitBlank | main.py:59 | a whitespace-only text has no tokens |
| Strings.ContainsAt | main.py:63 | `t in s` holds iff `t` occurs in `s` at some position |
| Strings.Decimal | main.py:37 | `str(i)` is a non-empty string of decimal digits, one digit long exactly below 10 |
| Strings.DecimalInjective | main.py:37 | different chunk indices are written differently |
| Strings.LexLessIrreflexive | vector_db.py:91 | no string sorts before itself |
| Strings.LexLessTransitive | vector_db.py:91 | string order is transitive |
| Strings.LexLessTotal | vector_db.py:91 | any two different strings are ordered one way or the other |
| Strings.InsertAscendingKeeps | vector_db.py:91 | inserting a new string into an ascending list keeps it ascending |
| Strings.SortedList | vector_db.py:91 | `sorted(list(s))` is strictly ascending and holds exactly the elements of `s` |
| Store.ScanOf | vector_db.py:77-83 | a scan lists one point per position of the scan order, with that id's stored vector and payload |
| Store.ScanExactlyOnce | vector_db.py:77-83 | the scan's ids are the scan order, so every stored record appears exactly once and nothing else does |
| Store.BatchRecords | vector_db.py:25 | a batch writes exactly the ids it carries |
| Store.UpsertAllRecords | vector_db.py:25 | after an upsert the records are the old ones overridden by the batch |
| Store.UpsertAllWellFormed | vector_db.py:25 | an upsert keeps every stored id listed exactly once in the scan order |
| Store.UpsertAllExtendsOrder | vector_db.py:25 | an upsert keeps existing points in place and appends new ids at the end |
| Store.UpsertAllKeepsOrder | vector_db.py:25 | a batch of existing ids leaves the scan order unchanged |
| Store.UpsertAllLastWins | vector_db.py:25 | after an upsert an id holds the last point of the batch that carries it |
| Store.UpsertAllOthers | vector_db.py:25 | ids the batch does not carry keep their record, or stay absent |
| Store.UpsertAllIdempotent | vector_db.py:25 | upserting the same batch twice equals upserting it once |
| Store.KeepIn | vector_db.py:61-71 | the scan order after a delete keeps exactly the remaining ids, without duplicates |
| Store.KeepInTwice | vector_db.py:61-71 | pruning the scan order a second time changes nothing |
| Store.DeleteBySourceIdempotent | vector_db.py:60-71 | deleting the same source twice equals deleting it once |
| Store.DropSource | vector_db.py:61-71 | the points kept are exactly those whose `source_id` is not `s` |
| Store.DeleteBySourceScan | vector_db.py:60-71 | after a delete the scan shows the other sources' points in their old order |
| Store.Ranked | vector_db.py:34-41 | the query sees no more points than the ranking, and only stored points that pass the filter, each with its stored payload |
| Store.RankedComplete | vector_db.py:34-41 | every ranking entry that is stored and passes the filter is among the query's points, with its stored payload and its score |
| Store.Start | vector_db.py:82 | a scroll starts at the beginning for `offset=None`, at the given position when it lies within the scan, and never past the end |
| Store.Collection.constructor | vector_db.py:9-13 | a new collection of the given dimension is empty |
| Store.Collection.Scan | vector_db.py:77-83 | the scan has one point per stored id |
| Store.Collection.Scroll | vector_db.py:77-83 | a page holds at most `limit` consecutive points of the scan from the offset; `next` is `None` exactly on the last page, and otherwise a later position |
| Store.Collection.QueryPoints | vector_db.py:34-41 | the first `min(limit, n)` points of the filtered ranking, where `n` is the number of points that qualify |
| Store.Collection.Upsert | vector_db.py:25 | a batch with right-sized vectors is written as `UpsertAll`; otherwise nothing changes and the call fails |
| Store.Collection.DeleteWhereSource | vector_db.py:61-71 | the new state is the delete by the source filter |
| VectorDb.ShapeResults | vector_db.py:43-52 | no more results than points, and every result's text is non-empty |
| VectorDb.ShapeResultsAppend | vector_db.py:43-52 | shaping goes point by point and keeps the store's order |
| VectorDb.ShapeResultsKeepsAll | vector_db.py:44-48 | no point is dropped iff every point has non-empty text |
| VectorDb.ShapeResultsSource | vector_db.py:43-48 | results shaped from the points of one source all name that source |
| VectorDb.SourcesOfMembers | vector_db.py:84-88 | a string is a listed source iff it is non-empty and some point carries it as `source_id` |
| VectorDb.SourcesOfAppend | vector_db.py:76-90 | the sources of two pages together are the union of each page's sources |
| VectorDb.DeletedSourceNotListed | vector_db.py:60-91 | after deleting `s`, the listed sources are the old ones without `s` |
| VectorDb.AddSources | vector_db.py:84-88 | one page adds exactly its points' truthy `source_id`s |
| VectorDb.PageSources | vector_db.py:76-90 | after each page, the sources seen are those of the scan up to the next offset, or of the whole scan when it is `None` |
| VectorDb.QdrantStorage.constructor | vector_db.py:5-8 | the default collection is `docs_2560` with dimension 2560 |
| VectorDb.QdrantStorage.UpsertVectors | vector_db.py:23-25 | `IndexError` with no change when `vectors` or `payloads` is shorter than `ids`; otherwise point `i` is `(ids[i], vectors[i], payloads[i])`, and the points are all upserted, or none when a vector has the wrong dimension |
| VectorDb.QdrantStorage.SearchVectors | vector_db.py:27-58 | results are the shaped query points, at most `top_k`. A truthy `source_id` makes every result come from that source; `None` or `""` gives the unfiltered results. `context` is the results' texts in order, and `sources` is their distinct sources |
| VectorDb.QdrantStorage.DeleteSource | vector_db.py:60-71 | the store afterwards is the delete by source |
| VectorDb.QdrantStorage.ListSources | vector_db.py:73-91 | the result is strictly ascending and holds exactly the truthy `source_id`s of one full scan, whatever the page boundaries |
| Ranking.Terms | main.py:59 | every term has at least 3 characters, no whitespace and no upper-case letter |
| Ranking.TermsAtSpace | main.py:59 | the terms of two texts joined by whitespace are the union of each text's terms |
| Ranking.TermsOfWord | main.py:59 | one word gives its lower-cased self when it has at least 3 characters, and no term otherwise |
| Ranking.TermsOfBlank | main.py:59 | a whitespace-only question has no terms |
| Ranking.Matches | main.py:62-63 | `0 <= matches <= len(terms)`, and `matches == 0` iff no term occurs in the lower-cased source |
| Ranking.Rescored | main.py:62-65 | text and source are unchanged; with `m > 0` matches the score rises by exactly `0.5 + 0.1*m`; it never falls; it is unchanged iff no term matches; it rises by at most `0.5 + 0.1*len(terms)` |
| Ranking.NoTermsNoBoost | main.py:61-65 | without terms every score is unchanged |
| Ranking.InsertDesc | main.py:67 | insertion adds exactly one element |
| Ranking.SortDesc | main.py:67 | the sorted list is a permutation of the candidates |
| Ranking.InsertDescSorted | main.py:67 | inserting into a non-increasing list keeps it non-increasing |
| Ranking.SortDescSorted | main.py:67 | the sorted list is non-increasing by adjusted score |
| Ranking.SortDescStable | main.py:67 | for every score, the candidates with that score keep their store order |
| Ranking.SortedStableUnique | main.py:67 | two non-increasing lists with the same per-score order are equal, so any stable descending sort gives `SortDesc` |
| DataLoader.ExtractedTexts | data_loader.py:20 | no more texts than documents, and every text is non-empty |
| DataLoader.ExtractedTextsMembers | data_loader.py:20 | a text is kept iff it is non-empty and some document carries it |
| DataLoader.ExtractedTextsAppend | data_loader.py:20 | the filter works document by document and keeps their order |
| DataLoader.ConcatSplitsMembers | data_loader.py:23-25 | a chunk is in the result iff the splitter produced it from one of the texts |
| DataLoader.LoadAndChunkPdf | data_loader.py:18-26 | fails with the path iff every extracted text is empty or whitespace, including when there are none; otherwise some text has content and the chunks are the splitter outputs concatenated in text order |
| VizUtils.FetchAllPoints | viz_utils.py:15-28 | the scroll loop gathers exactly one full scan, in order |
| VizUtils.GetVisualizationData | viz_utils.py:30-56 | nothing for an empty collection. Otherwise there is one vector and one row per point, in scan order. A row's source is `source_id` when present, even if empty, else `Unknown`. Its text is the first `min(100, len)` characters plus `...` for a truthy text, else `No text`. Its type is `Document` and its size 5. When a query vector is given, exactly one query vector and row come last: `User Query`, the query text if truthy else `Query`, type `Query`, size 12 |
| RagApp.IdNameInjective | main.py:37 | `f"{source_id}:{i}"` determines both the source and the index |
| RagApp.ChunkIdsDistinct | main.py:37 | if uuid5 gives different ids to this ingest's different names, the ids of the ingest are pairwise different, because `f"{source_id}:{i}"` differs for each `i` |
| RagApp.ChunkIdsPrefix | main.py:37 | id `i` depends only on the source and `i`: re-ingesting the same source with no fewer chunks repeats the ids |
| RagApp.IngestStored | main.py:36-40 | after the ingest, the id `uuid5(f"{source_id}:{i}")` of chunk `i` holds `embed(chunks[i])` and the payload `{source_id, chunks[i]}`, provided uuid5 does not collide on this ingest's names |
| RagApp.IngestLeavesOthers | main.py:37-40 | records under other ids are untouched |
| RagApp.ReingestIdempotent | main.py:37-40 | ingesting the same chunks of the same source again changes nothing |
| RagApp.Load | main.py:26-30 | `source_id` defaults to `pdf_path`; the chunks are those of `load_and_chunk_pdf`, whose error passes through |
| RagApp.UpsertChunks | main.py:32-41 | the reported count is `len(chunks)`; the store gets exactly the ingest points, or nothing on a dimension error |
| RagApp.RagIngestPdf | main.py:43-45 | a blank extraction fails with `NoTextExtracted`. Otherwise the ingest succeeds exactly when every chunk's embedding has the collection's dimension, and fails with `WrongDimension` if not. Any failure leaves the store unchanged. On success the count is the number of chunks, and the store gets those chunks under the defaulted source |
| RagApp.Candidates | main.py:55-57 | at most 500 candidates |
| RagApp.TopResults | main.py:59-68 | `results[:top_k]` has Python's slice length (`min(top_k, n)`, or `max(n + top_k, 0)` for a negative `top_k`), is non-increasing, and is drawn from the rescored candidates |
| RagApp.TopResultsBest | main.py:67-68 | a candidate cut by `top_k` scores no higher than any kept one |
| RagApp.TopResultsStable | main.py:67-68 | for each score, the kept candidates are the first ones of that score in store order |
| RagApp.Search | main.py:52-73 | contexts are the texts of the top results in rank order; sources are duplicate-free and exactly the top results' sources |
| RagApp.RagQueryPdfAi | main.py:75-112 | a missing or empty question fails with `MissingQuestion` before any search. Otherwise the answer is the model's reply, and `top_k` defaults to 15. `num_contexts` is the number of top results for the question, and `sources` are their distinct sources |

## Left out

- Strings.Lower: only ASCII letters are lower-cased. Python's full Unicode case mapping is not modelled.
- Ranking.Rescored: scores are real numbers. The rounding of Python floats in `+= 0.5 + matches * 0.1` is not modelled.
- streamlit_app.py: the UI, file saving, event sending and the HTTP polling loop are outside the core.
- Inngest orchestration: step durability and retries, FastAPI serving, and the `model_dump` round trips of main.py are outside the core.
- The language-model call: prompt assembly, adapter settings and `.strip()` of the reply (main.py:83-111) are an external service. The answer is a parameter.
- `embed_texts` (data_loader.py:28-33) is a remote call, so the model uses one opaque vector per text. A failing or short embedding response is not modelled, and neither is the remote call made for an empty batch when there are no chunks (main.py:36).
- The PDF reader and `SentenceSplitter` (data_loader.py:16, 19, 25) are given inputs.
- `uuid.uuid5` is an uninterpreted function, and SHA-1 hashing is not modelled. `RagApp.ChunkIdsDistinct` and `RagApp.IngestStored` assume that uuid5 gives different ids to the names of one ingest (`RagApp.NoCollisions`). Only those names are covered, not all strings.
- Qdrant similarity is a given input `ranking`. The cosine scoring and the 0.1 score threshold (vector_db.py:34-41) are computed by the store.
- Collection creation, `recreate_collection`, on-disk storage, `close`, `__enter__` and `__exit__` (vector_db.py:9-21, 93-101) are store setup and teardown. Each call gets an existing collection.
- Scroll order: Qdrant's `scroll` returns points in point-id order, and its next offset is a point id. The model stands in an abstract scan order, the order of first insertion, and uses positions in it as offsets. The real order of pages, listed sources before sorting and visualisation rows is id order. `VectorDb.QdrantStorage.ListSources` and `VizUtils.FetchAllPoints` are stated against the scan, whatever its order. `Store.UpsertAllExtendsOrder`, where new ids go at the end, describes only the model's order.
- Store exceptions: the only upsert failure modelled is a vector of the wrong dimension.
- PCA, numpy padding and the Plotly figure (viz_utils.py:58-114) are floating-point numerics and plotting.
- custom_types.py: `RAGChunkAndSrc.source_id` is a plain string. An explicit `None` source id, or a `source_id: null` in the ingest event, is not modelled.
- Event conversions: `int(top_k)` of a non-integer value is not modelled, because `top_k` is already an integer.
- Payloads: values that are not strings are not modelled. A point without a payload is the payload with both fields absent.
- Python lists: the in-place `score` update and the in-place `list.sort` act on a sequence value, so aliasing of the result dictionaries with `raw_found` is not modelled.
