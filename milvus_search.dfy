/**
 * The retrieval side of the knowledge base (backend/src/agent/milvus_search.py):
 * choosing the embedding provider, embedding the query, searching the vector
 * store with oversampling, shaping the hits into search results and merging a
 * reranker's answer. Every network call is a field of `Services`: a total
 * function from the request the code builds to the reply it gets, where a
 * `...Failed` reply stands for any exception raised by the call.
 */
module MilvusSearch {
  import opened Wrappers
  import opened PyText

  /** Distances and relevance scores: passed through, never computed with. */
  type Score = real

  /** Process-wide configuration, read once from the environment. */
  datatype Config = Config(
    milvusCollection: string,
    xinferenceEmbeddingModel: string,
    xinferenceRerankModel: string,
    openaiApiKey: string,          // "" when no key is configured
    openaiEmbeddingModel: string,
    openaiDimensions: int,
    embeddingProvider: string)

  /** The configuration when no environment variable is set. */
  const DefaultConfig: Config :=
    Config("iec_knowledge_base", "bge-base-en-v1.5", "bge-reranker-base", "",
           "text-embedding-v4", 1024, "xinference")

  const OpenAICompatible: string := "openai_compatible"
  const Xinference: string := "xinference"

  /** One element of an embedding reply: `float(x)` either succeeds or raises. */
  datatype Element = Convertible(value: real) | Unconvertible

  /** What an embedding call hands back: a list, or some other Python value. */
  datatype RawEmbedding = RawList(items: seq<Element>) | RawOther(truthy: bool) {
    /** Python truthiness: a list is true when non-empty. */
    predicate Truthy() {
      match this
      case RawList(xs) => |xs| > 0
      case RawOther(t) => t
    }
  }

  /** The `[]` every embedding path returns on failure. */
  const NoEmbedding: RawEmbedding := RawList([])

  datatype EmbeddingRequest = EmbeddingRequest(model: string, input: seq<string>, dimensions: int)
  datatype XinferenceEmbeddingRequest = XinferenceEmbeddingRequest(model: string, text: string)
  /** `response.data` (OpenAI) or `embedding["data"]` (Xinference), or a raised exception. */
  datatype EmbeddingReply = EmbeddingData(data: seq<RawEmbedding>) | EmbeddingFailed

  /** A vector-store hit: the requested output fields present on the entity, and its distance. */
  datatype Hit = Hit(entity: map<string, string>, score: Score)
  datatype SearchRequest = SearchRequest(
    collection: string, vector: RawEmbedding, annsField: string, limit: int, outputFields: seq<string>)
  /** One list of hits per query vector, or a raised exception. */
  datatype SearchReply = SearchHits(hits: seq<seq<Hit>>) | SearchFailed

  /** The `model_name` of every running model, or a failed `list_models`. */
  datatype ModelsReply = RunningModels(names: seq<string>) | ListModelsFailed

  datatype RerankRequest = RerankRequest(model: string, query: string, documents: seq<string>, topN: int)
  datatype RerankItem = RerankItem(index: int, relevanceScore: Score)
  /** `rerank_response["results"]`, or a raised exception (including a missing model). */
  datatype RerankReply = Reranked(results: seq<RerankItem>) | RerankFailed

  /** The external services, as request-to-reply functions. */
  datatype Services = Services(
    openaiEmbeddings: EmbeddingRequest -> EmbeddingReply,
    xinferenceEmbedding: XinferenceEmbeddingRequest -> EmbeddingReply,
    milvusSearch: SearchRequest -> SearchReply,
    hasCollection: string -> Option<bool>,
    listModels: ModelsReply,
    rerank: RerankRequest -> RerankReply)

  /**
   * A search result as the dictionaries of the agent carry it. Keys that a
   * producer does not set are `None`; `rerankScore` is added by the reranker.
   */
  datatype SearchResult = SearchResult(
    title: Option<string>,
    url: Option<string>,
    snippet: Option<string>,
    source: Option<string>,
    vectorScore: Option<Score>,
    rerankScore: Option<Score>)

  // ---------------------------------------------------------------- embeddings

  /** The first embedding of a reply; `[]` when the call failed or `data` is empty (IndexError). */
  function FirstEmbedding(reply: EmbeddingReply): (e: RawEmbedding)
    ensures reply.EmbeddingFailed? ==> e == NoEmbedding
    ensures reply.EmbeddingData? && |reply.data| > 0 ==> e == reply.data[0]
  {
    match reply
    case EmbeddingData(d) => if |d| > 0 then d[0] else NoEmbedding
    case EmbeddingFailed => NoEmbedding
  }

  /** The request for one text: the configured model, a one-element input, the configured dimensions. */
  function OpenAIRequest(cfg: Config, text: string): EmbeddingRequest {
    EmbeddingRequest(cfg.openaiEmbeddingModel, [text], cfg.openaiDimensions)
  }

  /** get_openai_compatible_embedding: no key means `[]`; any failure of the call means `[]`. */
  function OpenAICompatibleEmbedding(cfg: Config, text: string, svc: Services): (e: RawEmbedding)
    ensures cfg.openaiApiKey == "" ==> e == NoEmbedding
    ensures svc.openaiEmbeddings(OpenAIRequest(cfg, text)).EmbeddingFailed? ==> e == NoEmbedding
  {
    if cfg.openaiApiKey == "" then NoEmbedding
    else FirstEmbedding(svc.openaiEmbeddings(OpenAIRequest(cfg, text)))
  }

  function XinferenceRequest(cfg: Config, text: string): XinferenceEmbeddingRequest {
    XinferenceEmbeddingRequest(cfg.xinferenceEmbeddingModel, text)
  }

  /** get_xinference_embedding: any failure (model missing, call raising) means `[]`. */
  function XinferenceEmbedding(cfg: Config, text: string, svc: Services): (e: RawEmbedding)
    ensures svc.xinferenceEmbedding(XinferenceRequest(cfg, text)).EmbeddingFailed? ==> e == NoEmbedding
  {
    FirstEmbedding(svc.xinferenceEmbedding(XinferenceRequest(cfg, text)))
  }

  /** get_embedding: the provider string selects the variant; any failure of the chosen one gives `[]`. */
  function GetEmbedding(cfg: Config, text: string, svc: Services): (e: RawEmbedding)
    ensures cfg.embeddingProvider == OpenAICompatible && cfg.openaiApiKey == "" ==> e == NoEmbedding
    ensures cfg.embeddingProvider == OpenAICompatible ==>
      svc.openaiEmbeddings(OpenAIRequest(cfg, text)).EmbeddingFailed? ==> e == NoEmbedding
    ensures cfg.embeddingProvider != OpenAICompatible ==>
      svc.xinferenceEmbedding(XinferenceRequest(cfg, text)).EmbeddingFailed? ==> e == NoEmbedding
    ensures cfg.embeddingProvider == OpenAICompatible ==>
      forall x :: OpenAICompatibleEmbedding(cfg, text, svc.(xinferenceEmbedding := x)) == e
    ensures cfg.embeddingProvider != OpenAICompatible ==>
      forall x :: XinferenceEmbedding(cfg, text, svc.(openaiEmbeddings := x)) == e
  {
    if cfg.embeddingProvider == OpenAICompatible then OpenAICompatibleEmbedding(cfg, text, svc)
    else XinferenceEmbedding(cfg, text, svc)
  }

  /** Without a key the OpenAI-compatible service is never consulted: any other service gives the same result. */
  lemma NoKeyNoCall(cfg: Config, text: string, svc: Services, other: EmbeddingRequest -> EmbeddingReply)
    requires cfg.openaiApiKey == ""
    ensures OpenAICompatibleEmbedding(cfg, text, svc.(openaiEmbeddings := other)) == NoEmbedding
    ensures GetEmbedding(cfg, text, svc.(openaiEmbeddings := other)) == GetEmbedding(cfg, text, svc)
  {
  }

  /**
   * get_embedding consults exactly one service: with provider "openai_compatible"
   * the Xinference service can be replaced without effect, with any other
   * provider string the OpenAI-compatible one can.
   */
  lemma GetEmbeddingDispatch(cfg: Config, text: string, svc: Services,
                             otherOpenAI: EmbeddingRequest -> EmbeddingReply,
                             otherXinference: XinferenceEmbeddingRequest -> EmbeddingReply)
    ensures cfg.embeddingProvider == OpenAICompatible ==>
      GetEmbedding(cfg, text, svc) == OpenAICompatibleEmbedding(cfg, text, svc)
    ensures cfg.embeddingProvider == OpenAICompatible ==>
      GetEmbedding(cfg, text, svc.(xinferenceEmbedding := otherXinference)) == GetEmbedding(cfg, text, svc)
    ensures cfg.embeddingProvider != OpenAICompatible ==>
      GetEmbedding(cfg, text, svc.(openaiEmbeddings := otherOpenAI)) == GetEmbedding(cfg, text, svc)
    ensures cfg.embeddingProvider != OpenAICompatible ==>
      GetEmbedding(cfg, text, svc) == XinferenceEmbedding(cfg, text, svc)
  {
  }

  // ---------------------------------------------------------------- health checks

  /** check_milvus_connection: the collection exists; false when the call raises. */
  function CheckMilvusConnection(cfg: Config, svc: Services): (ok: bool)
    ensures ok <==> svc.hasCollection(cfg.milvusCollection) == Some(true)
  {
    svc.hasCollection(cfg.milvusCollection).GetOr(false)
  }

  /** The probe embedding of the connection check: the word "test" with the configured model and dimensions. */
  function TestRequest(cfg: Config): EmbeddingRequest {
    EmbeddingRequest(cfg.openaiEmbeddingModel, ["test"], cfg.openaiDimensions)
  }

  /** `len(response.data) > 0`, false when the call raised. */
  predicate ReturnsData(reply: EmbeddingReply) {
    reply.EmbeddingData? && |reply.data| > 0
  }

  /** check_openai_compatible_connection: a key is configured and a test embedding returns data. */
  function CheckOpenAICompatibleConnection(cfg: Config, svc: Services): (ok: bool)
    ensures ok <==> cfg.openaiApiKey != "" && ReturnsData(svc.openaiEmbeddings(TestRequest(cfg)))
    ensures cfg.openaiApiKey == "" ==> !ok
  {
    if cfg.openaiApiKey == "" then false
    else match svc.openaiEmbeddings(EmbeddingRequest(cfg.openaiEmbeddingModel, ["test"], cfg.openaiDimensions))
      case EmbeddingData(d) => |d| > 0
      case EmbeddingFailed => false
  }

  /** `any(model["model_name"] == name for model in models)`; false when listing raised. */
  predicate ModelListed(models: ModelsReply, name: string) {
    models.RunningModels? && exists i :: 0 <= i < |models.names| && models.names[i] == name
  }

  /** check_xinference_connection: both the embedding and the rerank model are running. */
  function CheckXinferenceConnection(cfg: Config, svc: Services): (ok: bool)
    ensures ok <==> svc.listModels.RunningModels?
                    && cfg.xinferenceEmbeddingModel in svc.listModels.names
                    && cfg.xinferenceRerankModel in svc.listModels.names
  {
    ModelListed(svc.listModels, cfg.xinferenceEmbeddingModel) && ModelListed(svc.listModels, cfg.xinferenceRerankModel)
  }

  /** check_xinference_rerank_available: the rerank model is running. */
  function CheckXinferenceRerankAvailable(cfg: Config, svc: Services): (ok: bool)
    ensures ok <==> svc.listModels.RunningModels? && cfg.xinferenceRerankModel in svc.listModels.names
  {
    ModelListed(svc.listModels, cfg.xinferenceRerankModel)
  }

  /** check_embedding_service: the check of the configured provider. */
  function CheckEmbeddingService(cfg: Config, svc: Services): (ok: bool)
    ensures cfg.embeddingProvider == OpenAICompatible ==>
      (ok <==> cfg.openaiApiKey != "" && ReturnsData(svc.openaiEmbeddings(TestRequest(cfg))))
    ensures cfg.embeddingProvider != OpenAICompatible ==>
      (ok <==> svc.listModels.RunningModels?
               && cfg.xinferenceEmbeddingModel in svc.listModels.names
               && cfg.xinferenceRerankModel in svc.listModels.names)
  {
    if cfg.embeddingProvider == OpenAICompatible then CheckOpenAICompatibleConnection(cfg, svc)
    else CheckXinferenceConnection(cfg, svc)
  }

  /**
   * check_embedding_service consults exactly one service: with provider
   * "openai_compatible" it is the OpenAI-compatible check and the model listing
   * can be replaced without effect; with any other provider string it is the
   * Xinference check and the OpenAI-compatible service can be replaced.
   */
  lemma CheckEmbeddingServiceDispatch(cfg: Config, svc: Services,
                                      otherOpenAI: EmbeddingRequest -> EmbeddingReply, otherModels: ModelsReply)
    ensures cfg.embeddingProvider == OpenAICompatible ==>
      CheckEmbeddingService(cfg, svc) == CheckOpenAICompatibleConnection(cfg, svc)
      && CheckEmbeddingService(cfg, svc.(listModels := otherModels)) == CheckEmbeddingService(cfg, svc)
    ensures cfg.embeddingProvider != OpenAICompatible ==>
      CheckEmbeddingService(cfg, svc) == CheckXinferenceConnection(cfg, svc)
      && CheckEmbeddingService(cfg, svc.(openaiEmbeddings := otherOpenAI)) == CheckEmbeddingService(cfg, svc)
  {
  }

  /** The Xinference check needs the rerank model too, so it implies rerank availability. */
  lemma XinferenceCheckImpliesRerank(cfg: Config, svc: Services)
    requires cfg.embeddingProvider != OpenAICompatible && CheckEmbeddingService(cfg, svc)
    ensures CheckXinferenceRerankAvailable(cfg, svc)
  {
  }

  // ---------------------------------------------------------------- hit mapping

  const UnknownTitle: string := "未知标题"
  const KnowledgeBaseSource: string := "IEC 知识库"
  const SnippetLength: nat := 300
  const MaxSearchLimit: int := 20

  function Lookup(entity: map<string, string>, key: string, default: string): string {
    if key in entity then entity[key] else default
  }

  /** The stored content cut to 300 characters, with "..." when something was cut. */
  function Snippet(content: string): (s: string)
    ensures |s| <= SnippetLength + 3
    ensures |content| <= SnippetLength ==> s == content
    ensures |content| > SnippetLength ==> s == content[..SnippetLength] + "..."
  {
    if |content| > SnippetLength then content[..SnippetLength] + "..." else content
  }

  /** The result record built for one hit, with the source's defaults for missing fields. */
  function HitResult(h: Hit): (r: SearchResult)
    ensures r.title == Some(Lookup(h.entity, "title", UnknownTitle))
    ensures r.url == Some(Lookup(h.entity, "url", ""))
    ensures r.snippet == Some(Snippet(Lookup(h.entity, "content", "")))
    ensures r.source == Some(Lookup(h.entity, "source", KnowledgeBaseSource))
    ensures r.vectorScore == Some(h.score) && r.rerankScore == None
  {
    SearchResult(
      Some(Lookup(h.entity, "title", UnknownTitle)),
      Some(Lookup(h.entity, "url", "")),
      Some(Snippet(Lookup(h.entity, "content", ""))),
      Some(Lookup(h.entity, "source", KnowledgeBaseSource)),
      Some(h.score),
      None)
  }

  /** The results of the nested loop over hit lists: every hit of every list, in order. */
  function InitialResults(hits: seq<seq<Hit>>): seq<SearchResult> {
    HitResults(Flatten(hits))
  }

  /** One result per hit, in order. */
  function HitResults(hs: seq<Hit>): seq<SearchResult> {
    seq(|hs|, k requires 0 <= k < |hs| => HitResult(hs[k]))
  }

  lemma HitResultsAppend(a: seq<Hit>, b: seq<Hit>)
    ensures HitResults(a + b) == HitResults(a) + HitResults(b)
  {
    assert forall k :: 0 <= k < |b| ==> (a + b)[|a| + k] == b[k];
  }

  /** `min(num_results * 2, 20)`: oversampled for the reranker, capped at 20. */
  function SearchLimit(numResults: int): (limit: int)
    ensures limit <= MaxSearchLimit && limit <= 2 * numResults
    ensures limit == MaxSearchLimit || limit == 2 * numResults
    ensures 0 <= numResults <= MaxSearchLimit / 2 ==> numResults <= limit
  {
    Min(numResults * 2, MaxSearchLimit)
  }

  function SearchRequestFor(cfg: Config, vector: RawEmbedding, numResults: int): SearchRequest {
    SearchRequest(cfg.milvusCollection, vector, "embedding", SearchLimit(numResults),
                  ["title", "content", "url", "source"])
  }

  // ---------------------------------------------------------------- reranking

  /** The rerank request: the snippets of the candidates, asking for `min(top_k, len(results))`. */
  function RerankRequestFor(cfg: Config, query: string, results: seq<SearchResult>, topK: int): (req: RerankRequest)
    ensures req.topN == Min(topK, |results|) && req.query == query
    ensures |req.documents| == |results|
    ensures forall i :: 0 <= i < |results| ==> req.documents[i] == results[i].snippet.GetOr("")
  {
    RerankRequest(cfg.xinferenceRerankModel, query,
                  seq(|results|, i requires 0 <= i < |results| => results[i].snippet.GetOr("")),
                  Min(topK, |results|))
  }

  /** A copy of the candidate with `rerank_score` attached. */
  function WithRerankScore(r: SearchResult, score: Score): SearchResult {
    r.(rerankScore := Some(score))
  }

  /**
   * The loop over the rerank response: an item whose index is at least
   * `len(results)` is skipped; any other index is a Python index (negative ones
   * count from the end), and one below `-len(results)` raises IndexError (None).
   */
  function MergeReranked(results: seq<SearchResult>, items: seq<RerankItem>): Option<seq<SearchResult>>
  {
    if items == [] then Some([])
    else match MergeReranked(results, items[..|items| - 1])
      case None => None
      case Some(acc) =>
        var it := items[|items| - 1];
        if it.index >= |results| then Some(acc)
        else if it.index < -|results| then None
        else
          var i := if it.index < 0 then |results| + it.index else it.index;
          Some(acc + [WithRerankScore(results[i], it.relevanceScore)])
  }

  /** rerank_results_with_xinference as a value: the merged response, or `results[:top_k]` on failure. */
  function RerankOutcome(cfg: Config, query: string, results: seq<SearchResult>, topK: int, svc: Services)
    : seq<SearchResult>
  {
    if results == [] then results
    else match svc.rerank(RerankRequestFor(cfg, query, results, topK))
      case RerankFailed => SliceTo(results, topK)
      case Reranked(items) =>
        match MergeReranked(results, items)
        case None => SliceTo(results, topK)
        case Some(merged) => merged
  }

  /** The response items the merge keeps: those whose index is below `len(results)`, in order. */
  function Kept(n: nat, items: seq<RerankItem>): seq<RerankItem> {
    if items == [] then []
    else Kept(n, items[..|items| - 1]) + (if items[|items| - 1].index < n then [items[|items| - 1]] else [])
  }

  /** Python's `results[index]` position for an index in `[-n, n)`: negative ones count from the end. */
  function PyIndex(n: nat, index: int): (i: nat)
    requires 0 <= n + index && index < n
    ensures i < n
    ensures 0 <= index ==> i == index
    ensures index < 0 ==> i == n + index
  {
    if index < 0 then n + index else index
  }

  /** No index of the response is below `-n`, so none raises IndexError. */
  predicate NoIndexError(n: nat, items: seq<RerankItem>) {
    forall j :: 0 <= j < |items| ==> n + items[j].index >= 0
  }

  /** The merge never yields more items than the response holds. */
  lemma {:induction false} MergeLength(results: seq<SearchResult>, items: seq<RerankItem>)
    ensures MergeReranked(results, items).Some? ==> |MergeReranked(results, items).value| <= |items|
  {
    if items != [] {
      MergeLength(results, items[..|items| - 1]);
    }
  }

  /**
   * Without an index below `-len(results)` the merge succeeds and follows the
   * response order: the k-th output is the candidate at the k-th kept index
   * (a negative one counting from the end), unchanged except for its new
   * `rerank_score`.
   */
  lemma {:induction false} MergeInResponseOrder(results: seq<SearchResult>, items: seq<RerankItem>)
    requires NoIndexError(|results|, items)
    ensures MergeReranked(results, items).Some?
    ensures var kept := Kept(|results|, items);
      && |kept| <= |items|
      && (forall k :: 0 <= k < |kept| ==> 0 <= |results| + kept[k].index && kept[k].index < |results|)
      && |MergeReranked(results, items).value| == |kept|
      && forall k :: 0 <= k < |kept| ==>
           MergeReranked(results, items).value[k]
             == WithRerankScore(results[PyIndex(|results|, kept[k].index)], kept[k].relevanceScore)
  {
    KeptBounds(|results|, items);
    if items != [] {
      var init, last := items[..|items| - 1], items[|items| - 1];
      NoIndexErrorPrefix(|results|, items);
      MergeInResponseOrder(results, init);
      var acc := MergeReranked(results, init).value;
      if last.index < |results| {
        var merged := WithRerankScore(results[PyIndex(|results|, last.index)], last.relevanceScore);
        assert MergeReranked(results, items) == Some(acc + [merged]);
        assert Kept(|results|, items) == Kept(|results|, init) + [last];
      } else {
        assert MergeReranked(results, items) == Some(acc);
        assert Kept(|results|, items) == Kept(|results|, init);
      }
    }
  }

  lemma NoIndexErrorPrefix(n: nat, items: seq<RerankItem>)
    requires items != [] && NoIndexError(n, items)
    ensures NoIndexError(n, items[..|items| - 1])
  {
    var init := items[..|items| - 1];
    forall j | 0 <= j < |init| ensures n + init[j].index >= 0 { assert init[j] == items[j]; }
  }

  /** The kept items are at most the response's, and each indexes `results` without raising. */
  lemma {:induction false} KeptBounds(n: nat, items: seq<RerankItem>)
    requires NoIndexError(n, items)
    ensures |Kept(n, items)| <= |items|
    ensures forall k :: 0 <= k < |Kept(n, items)| ==> 0 <= n + Kept(n, items)[k].index && Kept(n, items)[k].index < n
  {
    if items != [] {
      NoIndexErrorPrefix(n, items);
      KeptBounds(n, items[..|items| - 1]);
    }
  }

  /** An index below `-len(results)` anywhere in the response makes the merge raise. */
  lemma {:induction false} MergeIndexError(results: seq<SearchResult>, items: seq<RerankItem>, j: nat)
    requires j < |items| && |results| + items[j].index < 0
    ensures MergeReranked(results, items).None?
  {
    var n := |items| - 1;
    assert items[..n + 1] == items;
    if j < n {
      assert items[..n][j] == items[j];
      MergeIndexError(results, items[..n], j);
    }
  }

  /** On a failed call, or an index that raises, the candidates come back truncated, in their order. */
  lemma RerankFallback(cfg: Config, query: string, results: seq<SearchResult>, topK: int, svc: Services)
    requires results != []
    requires var reply := svc.rerank(RerankRequestFor(cfg, query, results, topK));
      reply.RerankFailed? || MergeReranked(results, reply.results).None?
    ensures RerankOutcome(cfg, query, results, topK, svc) == SliceTo(results, topK)
    ensures 0 <= topK ==> |RerankOutcome(cfg, query, results, topK, svc)| == Min(topK, |results|)
    ensures RerankOutcome(cfg, query, results, topK, svc) <= results
  {
  }

  /**
   * When the reranker answers with at most the `top_n` items it was asked for,
   * the reranked list has at most `min(top_k, len(results))` items.
   */
  lemma RerankAtMostTopK(cfg: Config, query: string, results: seq<SearchResult>, topK: int, svc: Services)
    requires 0 <= topK
    requires var reply := svc.rerank(RerankRequestFor(cfg, query, results, topK));
      reply.Reranked? ==> |reply.results| <= Min(topK, |results|)
    ensures |RerankOutcome(cfg, query, results, topK, svc)| <= Min(topK, |results|)
  {
    if results != [] {
      match svc.rerank(RerankRequestFor(cfg, query, results, topK))
      case RerankFailed =>
      case Reranked(items) => MergeLength(results, items);
    }
  }

  /** rerank_results_with_xinference (milvus_search.py:121-168). */
  method RerankResultsWithXinference(cfg: Config, query: string, results: seq<SearchResult>, topK: int, svc: Services)
    returns (reranked: seq<SearchResult>)
    ensures results == [] ==> reranked == results
    ensures reranked == RerankOutcome(cfg, query, results, topK, svc)
  {
    if results == [] {
      return results;
    }
    var documents := [];
    for i := 0 to |results|
      invariant |documents| == i
      invariant forall j :: 0 <= j < i ==> documents[j] == results[j].snippet.GetOr("")
    {
      documents := documents + [results[i].snippet.GetOr("")];
    }
    var request := RerankRequest(cfg.xinferenceRerankModel, query, documents, Min(topK, |documents|));
    assert request == RerankRequestFor(cfg, query, results, topK);
    var reply := svc.rerank(request);
    if reply.RerankFailed? {
      return SliceTo(results, topK);
    }
    var items := reply.results;
    reranked := [];
    for j := 0 to |items|
      invariant MergeReranked(results, items[..j]) == Some(reranked)
    {
      assert items[..j + 1][..j] == items[..j];
      var index := items[j].index;
      if index < |results| {
        if index < -|results| {
          // IndexError: caught by the handler, which falls back to the first top_k.
          assert MergeReranked(results, items[..j + 1]) == None;
          MergeStaysFailed(results, items, j + 1);
          assert items[..|items|] == items;
          return SliceTo(results, topK);
        }
        var i := if index < 0 then |results| + index else index;
        reranked := reranked + [WithRerankScore(results[i], items[j].relevanceScore)];
      }
    }
    assert items[..|items|] == items;
  }

  /** Once a prefix of the response raises, the whole response does. */
  lemma {:induction false} MergeStaysFailed(results: seq<SearchResult>, items: seq<RerankItem>, j: nat)
    requires j <= |items| && MergeReranked(results, items[..j]) == None
    ensures MergeReranked(results, items) == None
    decreases |items| - j
  {
    if j < |items| {
      assert items[..j + 1][..j] == items[..j];
      MergeStaysFailed(results, items, j + 1);
    } else {
      assert items[..j] == items;
    }
  }

  // ---------------------------------------------------------------- the pipeline

  /** Reranking is used when the provider is Xinference or the rerank model is running. */
  predicate RerankEnabled(cfg: Config, svc: Services) {
    cfg.embeddingProvider == Xinference || CheckXinferenceRerankAvailable(cfg, svc)
  }

  /** search_milvus_real as a value. */
  function KnowledgeBaseSearch(cfg: Config, query: string, numResults: int, svc: Services): seq<SearchResult>
  {
    var vector := GetEmbedding(cfg, query, svc);
    if !vector.Truthy() then []
    else match svc.milvusSearch(SearchRequestFor(cfg, vector, numResults))
      case SearchFailed => []
      case SearchHits(hits) =>
        var initial := InitialResults(hits);
        if RerankEnabled(cfg, svc) then RerankOutcome(cfg, query, initial, numResults, svc)
        else SliceTo(initial, numResults)
  }

  /** The loop of search_milvus_real over `results` and each of its hits, building one result per hit. */
  method CollectHits(hits: seq<seq<Hit>>) returns (initialResults: seq<SearchResult>)
    ensures initialResults == InitialResults(hits)
  {
    initialResults := [];
    for i := 0 to |hits|
      invariant initialResults == InitialResults(hits[..i])
    {
      ghost var before := initialResults;
      for j := 0 to |hits[i]|
        invariant initialResults == before + HitResults(hits[i][..j])
      {
        HitResultsAppend(hits[i][..j], [hits[i][j]]);
        assert hits[i][..j] + [hits[i][j]] == hits[i][..j + 1];
        initialResults := initialResults + [HitResult(hits[i][j])];
      }
      assert hits[i][..|hits[i]|] == hits[i];
      assert hits[..i + 1][..i] == hits[..i];
      HitResultsAppend(Flatten(hits[..i]), hits[i]);
    }
    assert hits[..|hits|] == hits;
  }

  /** search_milvus_real (milvus_search.py:171-243). */
  method SearchMilvusReal(cfg: Config, query: string, numResults: int, svc: Services)
    returns (searchResults: seq<SearchResult>)
    ensures !GetEmbedding(cfg, query, svc).Truthy() ==> searchResults == []
    ensures var request := SearchRequestFor(cfg, GetEmbedding(cfg, query, svc), numResults);
      svc.milvusSearch(request).SearchFailed? ==> searchResults == []
    ensures searchResults == KnowledgeBaseSearch(cfg, query, numResults, svc)
  {
    var queryVector := GetEmbedding(cfg, query, svc);
    if !queryVector.Truthy() {
      return [];
    }
    var reply := svc.milvusSearch(
      SearchRequest(cfg.milvusCollection, queryVector, "embedding", Min(numResults * 2, 20),
                    ["title", "content", "url", "source"]));
    if reply.SearchFailed? {
      return [];
    }
    var initialResults := CollectHits(reply.hits);
    if cfg.embeddingProvider == Xinference || CheckXinferenceRerankAvailable(cfg, svc) {
      searchResults := RerankResultsWithXinference(cfg, query, initialResults, numResults, svc);
    } else {
      searchResults := SliceTo(initialResults, numResults);
    }
  }

  /**
   * Without reranking the vector hits come back in search order, cut to
   * `num_results`, each with its distance and none with a rerank score.
   */
  lemma SearchWithoutRerank(cfg: Config, query: string, numResults: int, svc: Services)
    requires 0 <= numResults
    requires !RerankEnabled(cfg, svc)
    requires GetEmbedding(cfg, query, svc).Truthy()
    requires svc.milvusSearch(SearchRequestFor(cfg, GetEmbedding(cfg, query, svc), numResults)).SearchHits?
    ensures var hits := svc.milvusSearch(SearchRequestFor(cfg, GetEmbedding(cfg, query, svc), numResults)).hits;
      var out := KnowledgeBaseSearch(cfg, query, numResults, svc);
      && |out| == Min(numResults, |Flatten(hits)|)
      && forall k :: 0 <= k < |out| ==>
           out[k] == HitResult(Flatten(hits)[k])
           && out[k].vectorScore == Some(Flatten(hits)[k].score) && out[k].rerankScore == None
  {
  }

  /** When the reranker honours `top_n`, the pipeline never returns more than `num_results` results. */
  lemma SearchAtMostNumResults(cfg: Config, query: string, numResults: int, svc: Services)
    requires 0 <= numResults
    requires forall req: RerankRequest :: svc.rerank(req).Reranked? && req.topN >= 0 ==>
               |svc.rerank(req).results| <= req.topN
    ensures |KnowledgeBaseSearch(cfg, query, numResults, svc)| <= numResults
  {
    var vector := GetEmbedding(cfg, query, svc);
    if vector.Truthy() {
      match svc.milvusSearch(SearchRequestFor(cfg, vector, numResults))
      case SearchFailed =>
      case SearchHits(hits) =>
        var initial := InitialResults(hits);
        if RerankEnabled(cfg, svc) {
          var req := RerankRequestFor(cfg, query, initial, numResults);
          RerankAtMostTopK(cfg, query, initial, numResults, svc);
        }
    }
  }
}
