# A verified model of the IEC knowledge-base ingestion and retrieval core

The backend of this research agent has two halves that meet in a Milvus vector store.

- **Ingestion** is the command-line script `backend/scripts/pdf_to_milvus.py`. It splits PDF files into chunks and annotates each chunk with its file and position. It embeds each chunk through the configured provider (an OpenAI-compatible API or Xinference). It builds one text record per chunk, at most 8000 characters long, and sends the records to the store in fixed-size batches. It sets up the collection first, and its exit code reports whether every PDF went in.
- **Retrieval** spans `backend/src/agent/milvus_search.py` and `backend/src/agent/utils.py`. The agent embeds the query and searches with oversampling (`min(2n, 20)`). It turns the hits into search-result records with 300-character snippets and lets a reranker reorder them. It falls back to canned results when a service is down, or to a DuckDuckGo instant-answer search for the web data source. It then builds a short-URL map and citation records for the answer and appends citation markers to the text.

The calls to the embedding providers, the vector store and the reranker are fields of `MilvusSearch.Services`: each a total function from the request the code builds to the reply it gets back, where a `...Failed` reply stands for an exception raised by that call. The remaining outside calls are function parameters: the DuckDuckGo request of `search_web` (`ddg`), `quote_plus` (`quotePlus`), Python's `hash(query)` (`queryHash`) and the second embedding round of ingestion (`reembed`). Configuration read from the environment at import time is a `MilvusSearch.Config` value, and `MilvusSearch.DefaultConfig` holds the defaults. Python's slicing, `str()` of an integer and `isdigit()`/`int()` are spelled out in `PyText` with their negative and edge cases.

The loops of the source stay loops: methods with invariants. Each method is proved equal to a specification function, and the properties the code promises are lemmas about those functions. The per-chunk metadata update, done in place in the source, is a loop over an `array`.

Files:
- `wrappers.dfy`: `Option`.
- `py_text.dfy`: Python slicing, `str(int)`, `isdigit`/`int`, and flattening of nested loops.
- `milvus_search.dfy`: embedding dispatch, service checks, hit mapping, rerank merge and the search pipeline.
- `pdf_to_milvus.dfy`: collection setup, annotation, embedding filter, records, batching, the per-PDF outcome and the exit code.
- `agent_utils.dfy`: research topic, knowledge-base search with mock fallback, web search, router, short URLs, citations and markers.

## Model

| member | source | states |
|---|---|---|
| PdfToMilvus.CreationDimension | backend/scripts/pdf_to_milvus.py:95-99 | A new collection gets the configured OpenAI-compatible dimension exactly when the provider is "openai_compatible", and 768 for any other provider. |
| PdfToMilvus.SetupMilvusCollection | backend/scripts/pdf_to_milvus.py:61-127 | An existing collection is dropped exactly when recreation is forced or its described fields lack "vector". A failed describe keeps it. A collection is created, with the provider's dimension, exactly when none existed or it was dropped. Nothing else changes, and the result is always true. |
| PdfToMilvus.SetupKeepsMatchingCollection | backend/scripts/pdf_to_milvus.py:71-113 | Without forcing, a collection that already has a "vector" field is neither dropped nor recreated, and the store is unchanged. |
| PdfToMilvus.SetupIdempotent | backend/scripts/pdf_to_milvus.py:71-113 | After one setup whose describe worked, a second setup without forcing changes nothing, so the stored rows survive. |
| PdfToMilvus.Annotated | backend/scripts/pdf_to_milvus.py:161-166 | The annotated chunk keeps its text and every other metadata key. It gains exactly `file_path`, `source` (the stem) and `chunk_index`. |
| PdfToMilvus.LoadAndSplitPdf | backend/scripts/pdf_to_milvus.py:158-169 | Updating the splits in place in order gives one chunk per split, and chunk i is split i annotated with `chunk_index = i`. |
| PdfToMilvus.ToFloats | backend/scripts/pdf_to_milvus.py:196-202 | `[float(x) for x in e]` succeeds exactly when every element converts, and then keeps every value in order. |
| PdfToMilvus.AcceptedVector | backend/scripts/pdf_to_milvus.py:184-202 | A reply is kept exactly when it is a non-empty list whose elements all convert. Every kept vector is non-empty and as long as the reply. |
| PdfToMilvus.EmbeddedPairing | backend/scripts/pdf_to_milvus.py:181-204 | There is one vector per chunk that embedded, so never more vectors than chunks. Vector k is the embedding of the k-th chunk that embedded. As many vectors as chunks arise exactly when every chunk embedded. |
| PdfToMilvus.GenerateEmbeddingsBatch | backend/scripts/pdf_to_milvus.py:172-204 | The loop returns the accepted vectors in input order. There are at most as many as there are documents, and none is empty. |
| PdfToMilvus.RecordLines | backend/scripts/pdf_to_milvus.py:233-237 | The payload is made of five appended parts, the first of them the title line. |
| PdfToMilvus.RecordText | backend/scripts/pdf_to_milvus.py:224-243 | The stored text is a prefix of `Title/Source/Page/File/Content` and at most 8000 characters long. It is the whole payload when that fits, and exactly 8000 characters otherwise. |
| PdfToMilvus.PageNumber | backend/scripts/pdf_to_milvus.py:224-226 | A missing page is 0, an integer page is itself, and a string that is not all digits is 0. A string page never gives a negative number. |
| PdfToMilvus.SourceName | backend/scripts/pdf_to_milvus.py:229 | A missing source is "unknown", and a string source is itself. |
| PdfToMilvus.Title | backend/scripts/pdf_to_milvus.py:229-230 | A positive page p gives "source - Page p" with p in decimal digits. A page of 0 or below, including a missing page, gives the source alone. |
| PdfToMilvus.PageFromDigitString | backend/scripts/pdf_to_milvus.py:224-230 | A page stored as the digit string of n reads as page n, exactly as the integer n does. |
| PdfToMilvus.TitleLineKept | backend/scripts/pdf_to_milvus.py:233-243 | Truncation never cuts the `Title:` line when that line fits in the limit. |
| PdfToMilvus.Records | backend/scripts/pdf_to_milvus.py:221-246 | There is one record per chunk and vector pair. |
| PdfToMilvus.PreparedRow | backend/scripts/pdf_to_milvus.py:224-244 | The `+=` steps of the loop body build the record of one chunk: its own vector as a list and its truncated payload. |
| PdfToMilvus.PrepareMilvusData | backend/scripts/pdf_to_milvus.py:207-246 | The loop builds exactly the prepared rows of the chunks and vectors. |
| PdfToMilvus.PreparedRowsShape | backend/scripts/pdf_to_milvus.py:217-246 | Differing counts give `[]`. Otherwise there is one record per pair, and record i holds vector i and the truncated text of chunk i. Every record has a list vector and text of at most 8000 characters. |
| PdfToMilvus.RecordAt | backend/scripts/pdf_to_milvus.py:221-246 | Record k is built from chunk k and vector k. |
| PdfToMilvus.BatchesCover | backend/scripts/pdf_to_milvus.py:269-270 | Joined in order, the slices `data[i:i+size]` for i in `range(start, len, size)` are exactly the data from `start` on. |
| PdfToMilvus.BatchAt | backend/scripts/pdf_to_milvus.py:269-270 | Batch k is the slice that starts at `start + k*size` and is cut at the end of the data. |
| PdfToMilvus.BatchesBounded | backend/scripts/pdf_to_milvus.py:269-270 | Every batch holds between one and `batch_size` records. |
| PdfToMilvus.ForwardedLength | backend/scripts/pdf_to_milvus.py:273-285 | A batch forwards at most its own records. |
| PdfToMilvus.ForwardedAppend | backend/scripts/pdf_to_milvus.py:273-285 | Filtering records by vector type distributes over concatenation. |
| PdfToMilvus.AllListsForwarded | backend/scripts/pdf_to_milvus.py:273-285 | Records that all carry list vectors are all forwarded. |
| PdfToMilvus.SentIsForwarded | backend/scripts/pdf_to_milvus.py:269-293 | Skipping empty batches loses nothing: all entities sent, in order, are the forwarded records of all batches. |
| PdfToMilvus.SentBounded | backend/scripts/pdf_to_milvus.py:269-290 | No sent batch is empty and none exceeds the batch size. |
| PdfToMilvus.SentSummary | backend/scripts/pdf_to_milvus.py:260-298 | Over the batches, every list-vector record reaches the store exactly once, in order, in non-empty batches of at most `batch_size`. |
| PdfToMilvus.BatchEntities | backend/scripts/pdf_to_milvus.py:273-285 | The inner loop builds the entities of one batch: its list-vector records, in order. |
| PdfToMilvus.InsertToMilvus | backend/scripts/pdf_to_milvus.py:249-298 | Empty data inserts nothing. Otherwise the batches sent are the non-empty forwarded slices, in order, each of at most `batch_size`. `total_inserted` counts the forwarded records, and the result is always true. |
| PdfToMilvus.ReembedChunks | backend/scripts/pdf_to_milvus.py:333-340 | The second round keeps exactly the chunks whose fresh reply is truthy, in order. |
| PdfToMilvus.ProcessSinglePdf | backend/scripts/pdf_to_milvus.py:301-356 | The result is false, with nothing sent, when there are no chunks, no vectors or no records. Otherwise the records are sent in batches, every one of them reaches the store, and the result is true. |
| PdfToMilvus.ReembedFilterAgrees | backend/scripts/pdf_to_milvus.py:330-340 | When the service answers the same twice and truthy replies are well formed, the second-round filter keeps exactly the chunks that embedded. |
| PdfToMilvus.ValidIsSucceeded | backend/scripts/pdf_to_milvus.py:330-343 | Under the same conditions, the chunks handed to `prepare_milvus_data` are exactly those that embedded. |
| PdfToMilvus.SucceededAll | backend/scripts/pdf_to_milvus.py:330-340 | When every chunk embeds, no chunk is dropped. |
| PdfToMilvus.StableServiceAligns | backend/scripts/pdf_to_milvus.py:318-356 | Under a stable, well-formed service a PDF succeeds exactly when some chunk embedded. Every record pairs a successful chunk's text with that chunk's own vector, in order. |
| PdfToMilvus.TransientFailureMisaligns | backend/scripts/pdf_to_milvus.py:330-343 | If chunk "a" embeds only in the first round and "b" only in the second, the PDF still succeeds. Its one stored record carries b's text with a's vector. |
| PdfToMilvus.RejectedTruthyReplyFailsDocument | backend/scripts/pdf_to_milvus.py:184-346 | A truthy reply that the first round rejects (not a list, or an element that does not convert) fails the whole PDF, even with a stable service. |
| PdfToMilvus.FilterCounts | backend/scripts/pdf_to_milvus.py:330-340 | Such a reply makes the truthiness filter keep strictly more chunks than there are vectors. |
| PdfToMilvus.FilterAtLeast | backend/scripts/pdf_to_milvus.py:330-340 | The truthiness filter never keeps fewer chunks than embedded. |
| PdfToMilvus.ProcessFile | backend/scripts/pdf_to_milvus.py:421-424 | One call of `process_single_pdf` from main's loop, with `get_embedding` as the first round, succeeds exactly when its PDF does. |
| PdfToMilvus.ProcessAll | backend/scripts/pdf_to_milvus.py:420-426 | The loop records every PDF's outcome in order, and `success_count` is the number of successes. |
| PdfToMilvus.RunIngestion | backend/scripts/pdf_to_milvus.py:384-439 | The exit code is 0 or 1. It is 0 exactly when the embedding check and the Milvus check pass, some PDF is listed, and every PDF succeeds. |
| PdfToMilvus.Outcomes | backend/scripts/pdf_to_milvus.py:420-426 | There is one recorded outcome per PDF. |
| PdfToMilvus.OutcomesAt | backend/scripts/pdf_to_milvus.py:420-426 | Entry i of the record is the outcome of PDF i. |
| PdfToMilvus.OutcomesVerdict | backend/scripts/pdf_to_milvus.py:420-439 | `success_count == len(pdf_files)` holds exactly when every PDF succeeds. |
| PdfToMilvus.CountTrueAll | backend/scripts/pdf_to_milvus.py:420-439 | The count of successes never exceeds the number of outcomes, and equals it exactly when all are successes. |
| MilvusSearch.FirstEmbedding | backend/src/agent/milvus_search.py:65-76 | A failed call gives `[]`. Otherwise the result is the first embedding of the reply. |
| MilvusSearch.OpenAICompatibleEmbedding | backend/src/agent/milvus_search.py:44-78 | No configured key gives `[]`, and so does any failure of the call. |
| MilvusSearch.XinferenceEmbedding | backend/src/agent/milvus_search.py:79-105 | Any failure of the Xinference call gives `[]`. |
| MilvusSearch.NoKeyNoCall | backend/src/agent/milvus_search.py:56-58 | Without a key the OpenAI-compatible service is never consulted: replacing it changes nothing. |
| MilvusSearch.GetEmbedding | backend/src/agent/milvus_search.py:106-118 | A failure of the chosen provider gives `[]`, and so does the OpenAI-compatible provider without a key. The result is the chosen provider's embedding even when the other service is replaced by any function, so the provider not chosen never affects it. |
| MilvusSearch.GetEmbeddingDispatch | backend/src/agent/milvus_search.py:106-118 | The provider string "openai_compatible" gives exactly the OpenAI-compatible embedding, and any other string exactly the Xinference one. The service not chosen is never consulted. |
| MilvusSearch.CheckMilvusConnection | backend/src/agent/milvus_search.py:246-262 | The check passes exactly when the collection is reported to exist, and fails when the call raises. |
| MilvusSearch.CheckOpenAICompatibleConnection | backend/src/agent/milvus_search.py:264-293 | The check passes exactly when a key is configured and the one-word test embedding call returns at least one item. It never passes without a key. |
| MilvusSearch.CheckXinferenceConnection | backend/src/agent/milvus_search.py:295-322 | The check passes exactly when listing works and both the embedding and the rerank model are running. |
| MilvusSearch.CheckXinferenceRerankAvailable | backend/src/agent/milvus_search.py:324-347 | The check passes exactly when listing works and the rerank model is running. |
| MilvusSearch.CheckEmbeddingService | backend/src/agent/milvus_search.py:349-358 | For "openai_compatible" the check passes exactly when a key is set and the test embedding returns data. For any other provider it passes exactly when listing works and both Xinference models are running. |
| MilvusSearch.CheckEmbeddingServiceDispatch | backend/src/agent/milvus_search.py:349-358 | The check is the OpenAI-compatible check for "openai_compatible" and the Xinference check otherwise. The model list never affects the first, and the OpenAI embeddings never affect the second. |
| MilvusSearch.XinferenceCheckImpliesRerank | backend/src/agent/milvus_search.py:295-358 | A passing Xinference service check implies the rerank model is available. |
| MilvusSearch.Snippet | backend/src/agent/milvus_search.py:221-223 | The snippet is the content when it has at most 300 characters. Otherwise it is the first 300 followed by "...", so it never exceeds 303. |
| MilvusSearch.HitResult | backend/src/agent/milvus_search.py:216-226 | Title, url and source default to "未知标题", "" and "IEC 知识库". The snippet is cut. `vector_score` is the hit's distance, and no rerank score is set. |
| MilvusSearch.HitResultsAppend | backend/src/agent/milvus_search.py:213-227 | Mapping hits one by one distributes over concatenation: one result per hit, in order. |
| MilvusSearch.SearchLimit | backend/src/agent/milvus_search.py:202 | The limit is `min(2n, 20)`: never above 20, and at least n for n up to 10. |
| MilvusSearch.CollectHits | backend/src/agent/milvus_search.py:213-227 | The nested loop yields one result per hit of every hit list, in order. |
| MilvusSearch.RerankRequestFor | backend/src/agent/milvus_search.py:146-150 | The request carries one document per candidate, namely its snippet, and asks for `top_n = min(top_k, len(results))`. |
| MilvusSearch.MergeLength | backend/src/agent/milvus_search.py:153-163 | The merge never yields more results than the response has items. |
| MilvusSearch.PyIndex | backend/src/agent/milvus_search.py:159 | Python's `results[index]` for an index in `[-len, len)`: a non-negative index is itself, and a negative one counts from the end. |
| MilvusSearch.MergeInResponseOrder | backend/src/agent/milvus_search.py:153-163 | With no index below `-len(results)` the merge succeeds and follows the response order. It skips indices at or past `len(results)`, and output k is the candidate at the k-th kept index (a negative one counting from the end), unchanged except for its new `rerank_score`. |
| MilvusSearch.MergeIndexError | backend/src/agent/milvus_search.py:153-168 | Any index below `-len(results)` anywhere in the response makes the merge raise, so the whole rerank falls back. |
| MilvusSearch.MergeStaysFailed | backend/src/agent/milvus_search.py:153-168 | Once an index below `-len(results)` raises, the whole merge falls back. |
| MilvusSearch.RerankFallback | backend/src/agent/milvus_search.py:150-168 | A failed call, or an index that raises, gives exactly `results[:top_k]`: a prefix of the input, in order, without scores. |
| MilvusSearch.RerankAtMostTopK | backend/src/agent/milvus_search.py:150-168 | A reranker that honours `top_n` never yields more than `min(top_k, len(results))` results. |
| MilvusSearch.RerankResultsWithXinference | backend/src/agent/milvus_search.py:121-168 | An empty candidate list comes back unchanged. Otherwise the result is the merged response, or the fallback. |
| MilvusSearch.SearchMilvusReal | backend/src/agent/milvus_search.py:171-243 | An empty query vector or a failed search gives `[]`. Otherwise the hits are mapped and then reranked or cut. |
| MilvusSearch.SearchWithoutRerank | backend/src/agent/milvus_search.py:230-243 | Without reranking the result is `initial_results[:num_results]`: the hits in search order, each with its distance and none with a rerank score. |
| MilvusSearch.SearchAtMostNumResults | backend/src/agent/milvus_search.py:171-243 | When the reranker honours `top_n`, the search never returns more than `num_results` results. |
| AgentUtils.TranscriptAppend | backend/src/agent/utils.py:17-22 | The transcript of a longer conversation extends the transcript of its beginning. |
| AgentUtils.TranscriptSkipsOthers | backend/src/agent/utils.py:17-22 | Messages other than user and assistant messages leave no trace. |
| AgentUtils.GetResearchTopic | backend/src/agent/utils.py:9-23 | A single message gives its content. Any other count gives the `User:`/`Assistant:` lines in order, and an empty list gives "". |
| AgentUtils.MockResults | backend/src/agent/utils.py:60-76 | There are exactly three canned results, each with a non-empty url. |
| AgentUtils.MockUrlsDistinct | backend/src/agent/utils.py:60-76 | The three canned results point to three different documents. |
| AgentUtils.SearchMilvus | backend/src/agent/utils.py:26-78 | The real search is used exactly when both checks pass. Otherwise the result is `mock_results[:num_results]`, at most three results. |
| AgentUtils.TopicTitle | backend/src/agent/utils.py:110 | A title longer than 100 characters becomes its first 100 followed by "...". A shorter one is kept as is. |
| AgentUtils.TopicResultsBound | backend/src/agent/utils.py:106-113 | There is at most one result per topic. |
| AgentUtils.TopicResultsAll | backend/src/agent/utils.py:106-113 | When every topic is a dictionary with `Text` and `FirstURL`, there is exactly one result per topic, in order. |
| AgentUtils.TopicResultsTitles | backend/src/agent/utils.py:109-113 | Every topic result's title is the bounded form of its snippet, which is the full topic text. |
| AgentUtils.WebResultsBounds | backend/src/agent/utils.py:101-131 | There are at most `num_results` results, and never none when at least one is asked for. |
| AgentUtils.DataResultsFit | backend/src/agent/utils.py:105-121 | The topic results and the abstract never exceed `num_results`, because the abstract is added only below the count. |
| AgentUtils.CollectTopics | backend/src/agent/utils.py:106-113 | The loop builds the topic results in order. |
| AgentUtils.SearchWeb | backend/src/agent/utils.py:81-131 | The result is the shaped reply, or the fallback when the reply yields nothing. There are at most `num_results` results, and at least one when one is asked for. |
| AgentUtils.SearchByDataSource | backend/src/agent/utils.py:134-149 | The exact tag "knowledge_base" routes to the knowledge-base search (real or mock), and any other tag routes to the web search. |
| AgentUtils.Urls | backend/src/agent/utils.py:159-160 | There is one url per result: `result.get('url', '')`. |
| AgentUtils.FirstIndex | backend/src/agent/utils.py:159-162 | The position of a url's first occurrence. |
| AgentUtils.FirstIndexPrefix | backend/src/agent/utils.py:159-162 | The first occurrence within a prefix is the first occurrence overall. |
| AgentUtils.ShortUrlInjective | backend/src/agent/utils.py:156-162 | Different positions give different short URLs for one id. |
| AgentUtils.ResolvedMapInjective | backend/src/agent/utils.py:156-164 | No two urls of the map share a short URL. |
| AgentUtils.ResolvedMapKeys | backend/src/agent/utils.py:156-164 | The keys are exactly the distinct non-empty urls. |
| AgentUtils.ResolvedMapValues | backend/src/agent/utils.py:156-164 | Each url maps to `prefix + str(id) + "-" + str(idx)` for its first occurrence idx, so later duplicates never overwrite. |
| AgentUtils.ResolveUrls | backend/src/agent/utils.py:152-164 | The loop builds the first-occurrence map. It has exactly the distinct non-empty urls as keys, and no two keys share a short URL. |
| AgentUtils.Label | backend/src/agent/utils.py:212 | The label is the longest prefix of the title without '.'. When it is shorter than the title, the title continues with '.'. |
| AgentUtils.LabelCases | backend/src/agent/utils.py:212 | A title without '.' is its own label. Otherwise the label stops right before the first '.'. |
| AgentUtils.CitationFor | backend/src/agent/utils.py:204-216 | A citation has `start_index` 0 and `end_index` equal to the snippet's length. Its single segment labels the title (or "Source idx+1"), with the map's short URL and the url as value. |
| AgentUtils.CitedPositionsShape | backend/src/agent/utils.py:203-217 | The cited positions are increasing and in range, are as many as the citations, and include every result whose url is in the map. |
| AgentUtils.CitationAt | backend/src/agent/utils.py:203-217 | Citation k is the citation of the k-th cited result. |
| AgentUtils.CitationsFollowResults | backend/src/agent/utils.py:203-217 | There is one citation per result whose non-empty url is in the map, in input order, and every such result is cited. |
| AgentUtils.ResolvedMapCitesAll | backend/src/agent/utils.py:204-207 | With a map from `resolve_urls`, every result with a non-empty url is cited. |
| AgentUtils.GetCitationsFromSearchResults | backend/src/agent/utils.py:190-219 | The loop builds exactly those citations: at most one per result, each with one segment and `start_index` 0. |
| AgentUtils.MarkersAppend | backend/src/agent/utils.py:183-185 | The markers of concatenated citation lists are the concatenated markers. |
| AgentUtils.OneMarkerPerCitation | backend/src/agent/utils.py:183-185 | A single-segment citation adds exactly one ` [label](short_url)` marker. |
| AgentUtils.InsertCitationMarkers | backend/src/agent/utils.py:167-187 | No citations leave the text unchanged. Otherwise the text is followed by one marker per segment of every citation, in order, so the text is a prefix of the result. |
| PyText.SliceTo | backend/src/agent/milvus_search.py:236 | Python's `s[:n]` is a prefix of length `min(n, len)` for n ≥ 0, and drops the last `-n` items for n < 0. |
| PyText.NatToString | backend/src/agent/utils.py:162 | `str(n)` is a non-empty string of digits without a leading zero. |
| PyText.ParseNatToString | backend/scripts/pdf_to_milvus.py:224-226 | `int(str(n)) == n`. |
| PyText.NatToStringInjective | backend/src/agent/utils.py:162 | Different numbers print differently. |

## Left out

- Network and SDK calls (`MilvusClient`, the OpenAI client, the Xinference `Client`, `requests.get`) are not executed. They are fields of `Services` or function parameters, and whatever exception they raise is a single failed reply.
- `PyPDFLoader` and `RecursiveCharacterTextSplitter` come from an outside library. The chunks they produce are an input (`splits`), and how text is chunked is not modelled.
- Numbers inside embedding vectors and distance or relevance scores are passed through as `real` and never computed with. Floating-point behaviour is not modelled.
- PdfToMilvus.ToFloats: `float()` of an integer too large for a double raises OverflowError, which the `except (ValueError, TypeError)` of pdf_to_milvus.py:196-200 does not catch, so the script would crash. The model treats every element that does not convert as a rejected vector.
- `client.insert`, `has_collection`, `drop_collection`, `create_collection`, the `MilvusClient(...)` constructor in `main` (pdf_to_milvus.py:395), `client.load_collection` (pdf_to_milvus.py:430), `get_collection_stats(...)['row_count']` (pdf_to_milvus.py:436-437), and `loader.load()` and `split_documents` in `load_and_split_pdf` (pdf_to_milvus.py:145-158) are assumed to succeed. An exception from any of them is not caught in the source and would end the script with a traceback. PdfToMilvus.RunIngestion: its exit code of 0 or 1 holds only under this assumption.
- The vector store's contents after insertion (row counts, `load_collection`, `get_collection_stats`) are not tracked. Only the batches handed to `insert` are.
- PdfToMilvus.InsertToMilvus: requires `batch_size > 0`. With 0, Python's `range` raises ValueError and the script crashes; a negative size inserts nothing. Neither case is modelled.
- PyText.IsDigits: Python's `isdigit` also accepts non-ASCII digits. The model accepts only `0`–`9`.
- The mock URLs in `search_milvus` depend on Python's per-process salted `hash(query)`, which is a parameter (`queryHash`). The query escaping done by `quote_plus` is also a parameter.
- `initialize_milvus_collection` and `launch_xinference_models` (milvus_search.py:361-440) are only SDK calls and log output.
- `get_embedding_service_info` (milvus_search.py:442-461) is not modelled. It only reports configuration: it picks one of two dictionaries of configuration values by provider, and it calls no service.
- The model list reply is taken to be a sequence of model records, each with a `model_name` (milvus_search.py:307-315 and 336-341). `backend/scripts/setup_xinference.py:87-95` reads the same reply as a dictionary keyed by model id. If the server answered in that form, iterating it would yield the string keys, `model["model_name"]` on a string would raise TypeError, and both Xinference checks would return False through their exception handlers (an empty dictionary gives False without raising). That reply shape is not modelled.
- The deprecated `get_citations` (utils.py:223-228) always returns `[]`.
- Logging, `print`, `tqdm`, `argparse`, the papers-directory checks and globbing in `main`, and reading the environment at import time are not modelled. The list of PDFs is an input, and the configuration is a `Config` value.
- In `search_web`, a `requests.get` or `response.json()` that raises is not caught by the source, and the exception reaches the caller. The model covers only replies that carry a status and, for status 200, a parsed body.
- Message content that is not a string (multi-part content) is not modelled. A message's content, and any key of a search-result dictionary, is a string or absent.
- Search results are records with optional fields rather than open dictionaries. Keys other than title, url, snippet, source, `vector_score` and `rerank_score` are not modelled.
- Data written by ingestion (`vector`, `text`) is not connected to the fields retrieval reads (`embedding`, `title`, `content`, `url`, `source`). The two halves use different field names, so no round trip is stated.
- The connection check that `main` runs before setup demands that the collection already exists, so setup's create-when-absent branch is never reached from `main` (`PdfToMilvus.MissingCollectionStopsRun`). Setup is still modelled in full, as the source writes it.
- MilvusSearch.XinferenceCheckImpliesRerank: the model assumes that each service answers a given request the same way throughout a run. `Services.listModels` is a single reply. In the source, the connection check (milvus_search.py:307) and the rerank check (milvus_search.py:336) make two separate `list_models()` calls, reached from utils.py:43 and milvus_search.py:230, with the embedding call and the search in between. A model that stops running between them is not captured. The outputs of `search_milvus` are unaffected, because a failed rerank falls back to the same `results[:num_results]`.
- MilvusSearch.KnowledgeBaseSearch: the log line at milvus_search.py:196 takes `len(query_vector)`. For a truthy embedding reply without a length, that raises TypeError and the function returns `[]`. The model's `RawOther(true)` goes on to search instead. Neither provider returns such a value.
- The re-embedding round of `process_single_pdf` gets its own oracle, because the service may answer differently the second time. A mismatch between its filter and the first round's is then modelled as what the code does: the records pair chunks and vectors by position (`PdfToMilvus.TransientFailureMisaligns`), or the counts differ and the PDF fails (`PdfToMilvus.RejectedTruthyReplyFailsDocument`).
