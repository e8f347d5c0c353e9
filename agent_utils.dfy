/**
 * The agent's helpers (backend/src/agent/utils.py): the research topic drawn
 * from the chat, the knowledge-base search with its mock fallback, the
 * reshaping of the DuckDuckGo instant-answer reply, the data-source router,
 * the short-URL map and the citations built on it.
 */
module AgentUtils {
  import opened Wrappers
  import opened PyText
  import opened MilvusSearch

  // ---------------------------------------------------------------- research topic

  /** A chat message: from the user, from the assistant, or of another kind (system, tool). */
  datatype Message = HumanMessage(content: string) | AIMessage(content: string) | OtherMessage(content: string)

  /** The line a message contributes to the transcript. */
  function TranscriptLine(m: Message): string {
    match m
    case HumanMessage(c) => "User: " + c + "\n"
    case AIMessage(c) => "Assistant: " + c + "\n"
    case OtherMessage(_) => ""
  }

  /** The transcript of a conversation: one line per user or assistant message, in order. */
  function Transcript(ms: seq<Message>): string {
    if ms == [] then "" else Transcript(ms[..|ms| - 1]) + TranscriptLine(ms[|ms| - 1])
  }

  /** The transcript of a longer conversation extends that of its beginning. */
  lemma {:induction false} TranscriptAppend(a: seq<Message>, b: seq<Message>)
    ensures Transcript(a + b) == Transcript(a) + Transcript(b)
    decreases |b|
  {
    if b == [] {
      assert a + b == a;
    } else {
      var init := b[..|b| - 1];
      DropLastAppend(a, b);
      TranscriptAppend(a, init);
      AppendAssoc(Transcript(a), Transcript(init), TranscriptLine(b[|b| - 1]));
    }
  }

  /** Messages of other kinds leave no trace in the transcript. */
  lemma {:induction false} TranscriptSkipsOthers(ms: seq<Message>)
    requires forall i :: 0 <= i < |ms| ==> ms[i].OtherMessage?
    ensures Transcript(ms) == ""
  {
    if ms != [] {
      TranscriptSkipsOthers(ms[..|ms| - 1]);
    }
  }

  /** get_research_topic (utils.py:9-23). */
  method GetResearchTopic(messages: seq<Message>) returns (researchTopic: string)
    ensures |messages| == 1 ==> researchTopic == messages[0].content
    ensures |messages| != 1 ==> researchTopic == Transcript(messages)
    ensures messages == [] ==> researchTopic == ""
  {
    if |messages| == 1 {
      return messages[0].content;
    }
    researchTopic := "";
    for i := 0 to |messages|
      invariant researchTopic == Transcript(messages[..i])
    {
      assert messages[..i + 1][..i] == messages[..i];
      var message := messages[i];
      if message.HumanMessage? {
        researchTopic := researchTopic + ("User: " + message.content + "\n");
      } else if message.AIMessage? {
        researchTopic := researchTopic + ("Assistant: " + message.content + "\n");
      }
    }
    assert messages[..|messages|] == messages;
  }

  // ---------------------------------------------------------------- knowledge-base search

  /** A result carrying only a title, a url and a snippet, as the mock and web searches build them. */
  function Plain(title: string, url: string, snippet: string): SearchResult {
    SearchResult(Some(title), Some(url), Some(snippet), None, None, None)
  }

  /**
   * The three canned results; `queryHash` stands for Python's per-process
   * `hash(query)`, and `% 1000` is floor modulo, which Dafny's `%` agrees with
   * for a positive divisor.
   */
  function MockResults(query: string, queryHash: int): (r: seq<SearchResult>)
    ensures |r| == 3
    ensures forall k :: 0 <= k < 3 ==> r[k].url.Some? && r[k].url.value != ""
  {
    var h := IntToString(queryHash % 1000);
    [ Plain("IEC 知识库文档 - " + query, "https://iec-knowledge.internal/doc/" + h,
            "这是关于 \"" + query + "\" 的 IEC 内部知识库内容。包含详细的技术规范、标准文档和实施指南。该文档涵盖了相关的技术要求和最佳实践。"),
      Plain("技术标准文档 - " + query, "https://iec-knowledge.internal/standards/" + h,
            "IEC 技术标准中关于 \"" + query + "\" 的详细规范。包含标准定义、测试方法、合规要求和实施建议。"),
      Plain("实施指南 - " + query, "https://iec-knowledge.internal/guides/" + h,
            "关于 \"" + query + "\" 的实施指南和操作手册。提供详细的步骤说明、注意事项和常见问题解答。") ]
  }

  /** The three canned results point to three different documents. */
  lemma MockUrlsDistinct(query: string, queryHash: int)
    ensures var r := MockResults(query, queryHash);
      r[0].url != r[1].url && r[1].url != r[2].url && r[0].url != r[2].url
  {
    var r := MockResults(query, queryHash);
    assert r[0].url.value[31] == 'd';
    assert r[1].url.value[31] == 's';
    assert r[2].url.value[31] == 'g';
  }

  /** Whether search_milvus uses the real search: both service checks must pass. */
  predicate RealSearchAvailable(cfg: Config, svc: Services) {
    CheckMilvusConnection(cfg, svc) && CheckEmbeddingService(cfg, svc)
  }

  /** search_milvus (utils.py:26-78). */
  method SearchMilvus(cfg: Config, query: string, numResults: int, queryHash: int, svc: Services)
    returns (results: seq<SearchResult>)
    ensures RealSearchAvailable(cfg, svc) ==> results == KnowledgeBaseSearch(cfg, query, numResults, svc)
    ensures !RealSearchAvailable(cfg, svc) ==> results == SliceTo(MockResults(query, queryHash), numResults)
    ensures !RealSearchAvailable(cfg, svc) ==> |results| <= 3
  {
    var milvusAvailable := CheckMilvusConnection(cfg, svc);
    var embeddingAvailable := CheckEmbeddingService(cfg, svc);
    if milvusAvailable && embeddingAvailable {
      results := SearchMilvusReal(cfg, query, numResults, svc);
      return;
    }
    var mockResults := MockResults(query, queryHash);
    results := SliceTo(mockResults, numResults);
  }

  // ---------------------------------------------------------------- web search

  /** One entry of `RelatedTopics`: a dictionary with optional `Text` and `FirstURL`, or anything else. */
  datatype Topic = TopicDict(text: Option<string>, firstUrl: Option<string>) | NonDictTopic

  /** The parsed instant-answer JSON; an absent key is `None`. */
  datatype DdgData = DdgData(
    relatedTopics: Option<seq<Topic>>,
    abstractText: Option<string>,
    heading: Option<string>,
    abstractUrl: Option<string>)

  /** The HTTP reply: its status and, when the status is 200, its JSON body. */
  datatype WebReply = WebReply(status: int, data: DdgData)

  const TitleLength: nat := 100

  /** A topic title: the text itself, or its first 100 characters and "..." when longer. */
  function TopicTitle(text: string): (t: string)
    ensures |text| <= TitleLength ==> t == text
    ensures |text| > TitleLength ==> t == text[..TitleLength] + "..."
    ensures |t| <= TitleLength + 3
  {
    if |text| > 100 then text[..100] + "..." else text
  }

  /** Only dictionaries carrying both keys contribute. */
  predicate Contributes(t: Topic) {
    t.TopicDict? && t.text.Some? && t.firstUrl.Some?
  }

  function TopicResult(t: Topic): SearchResult
    requires Contributes(t)
  {
    Plain(TopicTitle(t.text.value), t.firstUrl.value, t.text.value)
  }

  /** The results made from a list of topics, in order. */
  function TopicResults(ts: seq<Topic>): seq<SearchResult> {
    if ts == [] then []
    else
      var last := ts[|ts| - 1];
      TopicResults(ts[..|ts| - 1]) + (if Contributes(last) then [TopicResult(last)] else [])
  }

  /** At most one result per topic. */
  lemma {:induction false} TopicResultsBound(ts: seq<Topic>)
    ensures |TopicResults(ts)| <= |ts|
  {
    if ts != [] {
      TopicResultsBound(ts[..|ts| - 1]);
    }
  }

  /** When every topic contributes, exactly one result per topic, in order. */
  lemma {:induction false} TopicResultsAll(ts: seq<Topic>)
    requires forall i :: 0 <= i < |ts| ==> Contributes(ts[i])
    ensures |TopicResults(ts)| == |ts|
    ensures forall i :: 0 <= i < |ts| ==> TopicResults(ts)[i] == TopicResult(ts[i])
  {
    if ts != [] {
      var init := ts[..|ts| - 1];
      assert forall i :: 0 <= i < |init| ==> init[i] == ts[i];
      TopicResultsAll(init);
      var r := TopicResults(ts);
      assert r == TopicResults(init) + [TopicResult(ts[|ts| - 1])];
      assert forall i :: 0 <= i < |init| ==> r[i] == TopicResults(init)[i];
    }
  }

  /** Every result made from topics has a bounded title and a snippet that is the full topic text. */
  lemma {:induction false} TopicResultsTitles(ts: seq<Topic>)
    ensures forall k :: 0 <= k < |TopicResults(ts)| ==>
      var r := TopicResults(ts)[k];
      r.title.Some? && r.snippet.Some? && r.title.value == TopicTitle(r.snippet.value)
  {
    if ts != [] {
      TopicResultsTitles(ts[..|ts| - 1]);
    }
  }

  function RequestUrl(query: string, quotePlus: string -> string): string {
    "https://api.duckduckgo.com/?q=" + quotePlus(query) + "&format=json&no_html=1&skip_disambig=1"
  }

  /** The result added when the reply yields nothing. */
  function FallbackResult(query: string, quotePlus: string -> string): SearchResult {
    Plain("Search results for: " + query, "https://duckduckgo.com/?q=" + quotePlus(query),
          "Please search for '" + query + "' to find relevant information.")
  }

  /** The results drawn from a JSON body: the first topics, then the abstract while there is room. */
  function DataResults(query: string, numResults: int, data: DdgData): seq<SearchResult> {
    var fromTopics := if data.relatedTopics.Some? then TopicResults(SliceTo(data.relatedTopics.value, numResults)) else [];
    if |fromTopics| < numResults && data.abstractText.Some? && data.abstractText.value != "" then
      fromTopics + [Plain(data.heading.GetOr(query), data.abstractUrl.GetOr(""), data.abstractText.value)]
    else fromTopics
  }

  /** search_web as a value. */
  function WebResults(query: string, numResults: int, reply: WebReply, quotePlus: string -> string)
    : seq<SearchResult>
  {
    var fromData := if reply.status == 200 then DataResults(query, numResults, reply.data) else [];
    SliceTo(if fromData == [] then [FallbackResult(query, quotePlus)] else fromData, numResults)
  }

  /**
   * At most `num_results` results, never none when one is asked for; a failed
   * request or an empty answer gives exactly the fallback result.
   */
  lemma WebResultsBounds(query: string, numResults: int, reply: WebReply, quotePlus: string -> string)
    ensures 0 <= numResults ==> |WebResults(query, numResults, reply, quotePlus)| <= numResults
    ensures 1 <= numResults ==> |WebResults(query, numResults, reply, quotePlus)| >= 1
    ensures 1 <= numResults && reply.status != 200 ==>
      WebResults(query, numResults, reply, quotePlus) == [FallbackResult(query, quotePlus)]
  {
  }

  /** With a positive count the topic part fits without the final cut, and the abstract is added only below the count. */
  lemma DataResultsFit(query: string, numResults: int, data: DdgData)
    requires 0 <= numResults
    ensures |DataResults(query, numResults, data)| <= numResults
  {
    if data.relatedTopics.Some? {
      TopicResultsBound(SliceTo(data.relatedTopics.value, numResults));
    }
  }

  /** search_web's loop over the related topics it keeps. */
  method CollectTopics(topics: seq<Topic>) returns (searchResults: seq<SearchResult>)
    ensures searchResults == TopicResults(topics)
  {
    searchResults := [];
    for i := 0 to |topics|
      invariant searchResults == TopicResults(topics[..i])
    {
      assert topics[..i + 1][..i] == topics[..i];
      var topic := topics[i];
      if topic.TopicDict? && topic.text.Some? && topic.firstUrl.Some? {
        var text := topic.text.value;
        searchResults := searchResults + [Plain(if |text| > 100 then text[..100] + "..." else text,
                                                topic.firstUrl.value, text)];
      }
    }
    assert topics[..|topics|] == topics;
  }

  /** search_web (utils.py:81-131); `ddg` answers the GET for the request URL. */
  method SearchWeb(query: string, numResults: int, ddg: string -> WebReply, quotePlus: string -> string)
    returns (results: seq<SearchResult>)
    ensures results == WebResults(query, numResults, ddg(RequestUrl(query, quotePlus)), quotePlus)
    ensures 0 <= numResults ==> |results| <= numResults
    ensures 1 <= numResults ==> |results| >= 1
  {
    var searchResults := [];
    var response := ddg(RequestUrl(query, quotePlus));
    if response.status == 200 {
      var data := response.data;
      if data.relatedTopics.Some? {
        searchResults := CollectTopics(SliceTo(data.relatedTopics.value, numResults));
      }
      if |searchResults| < numResults && data.abstractText.Some? && data.abstractText.value != "" {
        searchResults := searchResults + [Plain(data.heading.GetOr(query), data.abstractUrl.GetOr(""),
                                                data.abstractText.GetOr(""))];
      }
    }
    if |searchResults| == 0 {
      searchResults := searchResults + [FallbackResult(query, quotePlus)];
    }
    results := SliceTo(searchResults, numResults);
    WebResultsBounds(query, numResults, response, quotePlus);
  }

  // ---------------------------------------------------------------- routing

  const KnowledgeBase: string := "knowledge_base"

  /** search_by_data_source (utils.py:134-149): the knowledge base for its exact tag, the web for any other. */
  method SearchByDataSource(cfg: Config, query: string, dataSource: string, numResults: int, queryHash: int,
                            svc: Services, ddg: string -> WebReply, quotePlus: string -> string)
    returns (results: seq<SearchResult>)
    ensures dataSource == KnowledgeBase && RealSearchAvailable(cfg, svc) ==>
      results == KnowledgeBaseSearch(cfg, query, numResults, svc)
    ensures dataSource == KnowledgeBase && !RealSearchAvailable(cfg, svc) ==>
      results == SliceTo(MockResults(query, queryHash), numResults)
    ensures dataSource != KnowledgeBase ==>
      results == WebResults(query, numResults, ddg(RequestUrl(query, quotePlus)), quotePlus)
  {
    if dataSource == "knowledge_base" {
      results := SearchMilvus(cfg, query, numResults, queryHash, svc);
    } else {
      results := SearchWeb(query, numResults, ddg, quotePlus);
    }
  }

  // ---------------------------------------------------------------- short URLs

  /** `result.get('url', '')`. */
  function UrlOf(r: SearchResult): string {
    r.url.GetOr("")
  }

  function Urls(results: seq<SearchResult>): (us: seq<string>)
    ensures |us| == |results| && forall k :: 0 <= k < |results| ==> us[k] == UrlOf(results[k])
  {
    seq(|results|, k requires 0 <= k < |results| => UrlOf(results[k]))
  }

  /** The position of the first occurrence of `u`. */
  function FirstIndex(us: seq<string>, u: string): (k: nat)
    requires u in us
    ensures k < |us| && us[k] == u
    ensures forall j :: 0 <= j < k ==> us[j] != u
  {
    if us[0] == u then 0 else 1 + FirstIndex(us[1..], u)
  }

  /** The first occurrence within a prefix is the first occurrence overall. */
  lemma FirstIndexPrefix(us: seq<string>, i: nat, u: string)
    requires i <= |us| && u in us[..i]
    ensures u in us && FirstIndex(us[..i], u) == FirstIndex(us, u)
  {
    var k := FirstIndex(us[..i], u);
    assert us[k] == u;
    var k' := FirstIndex(us, u);
    assert forall j :: 0 <= j < k ==> us[..i][j] == us[j];
  }

  const ShortUrlPrefix: string := "https://search.result.com/id/"

  function ShortUrl(id: int, idx: nat): string {
    ShortUrlPrefix + IntToString(id) + "-" + NatToString(idx)
  }

  /** Short URLs of one id differ for different positions. */
  lemma ShortUrlInjective(id: int, a: nat, b: nat)
    requires ShortUrl(id, a) == ShortUrl(id, b)
    ensures a == b
  {
    var head := ShortUrlPrefix + IntToString(id) + "-";
    assert ShortUrl(id, a) == head + NatToString(a);
    assert ShortUrl(id, b) == head + NatToString(b);
    assert NatToString(a) == ShortUrl(id, a)[|head|..];
    assert NatToString(b) == ShortUrl(id, b)[|head|..];
    NatToStringInjective(a, b);
  }

  /** The short-URL map for results: each distinct non-empty url to the short URL of its first position. */
  ghost predicate IsResolvedMap(results: seq<SearchResult>, id: int, m: map<string, string>) {
    && (forall u :: u in m <==> u in Urls(results) && u != "")
    && forall u :: u in m ==> m[u] == ShortUrl(id, FirstIndex(Urls(results), u))
  }

  /** No two urls share a short URL. */
  lemma ResolvedMapInjective(results: seq<SearchResult>, id: int, m: map<string, string>, u: string, v: string)
    requires IsResolvedMap(results, id, m)
    requires u in m && v in m && m[u] == m[v]
    ensures u == v
  {
    var us := Urls(results);
    ShortUrlInjective(id, FirstIndex(us, u), FirstIndex(us, v));
  }

  /** What resolve_urls builds from the urls in order: a new non-empty url gets the short URL of its position. */
  function ResolvedMap(us: seq<string>, id: int): map<string, string> {
    if us == [] then map[]
    else
      var m := ResolvedMap(us[..|us| - 1], id);
      var url := us[|us| - 1];
      if url != "" && url !in m then m[url := ShortUrl(id, |us| - 1)] else m
  }

  lemma ResolvedMapSnoc(us: seq<string>, id: int, n: nat)
    requires n < |us|
    ensures var m := ResolvedMap(us[..n], id);
      ResolvedMap(us[..n + 1], id) == if us[n] != "" && us[n] !in m then m[us[n] := ShortUrl(id, n)] else m
  {
    assert us[..n + 1][..n] == us[..n];
  }

  /** The keys are exactly the distinct non-empty urls. */
  lemma {:induction false} ResolvedMapKeys(us: seq<string>, id: int)
    ensures forall u :: u in ResolvedMap(us, id) <==> u in us && u != ""
  {
    if us != [] {
      var init := us[..|us| - 1];
      ResolvedMapKeys(init, id);
      assert us == init + [us[|us| - 1]];
    }
  }

  /** Each url maps to the short URL of its first position. */
  lemma {:induction false} ResolvedMapValues(us: seq<string>, id: int)
    ensures forall u :: u in ResolvedMap(us, id) ==> u in us && ResolvedMap(us, id)[u] == ShortUrl(id, FirstIndex(us, u))
  {
    if us != [] {
      var n := |us| - 1;
      var init := us[..n];
      var m := ResolvedMap(init, id);
      ResolvedMapValues(init, id);
      ResolvedMapKeys(init, id);
      assert us == init + [us[n]];
      forall u | u in ResolvedMap(us, id) ensures u in us && ResolvedMap(us, id)[u] == ShortUrl(id, FirstIndex(us, u)) {
        if u in m {
          FirstIndexPrefix(us, n, u);
        } else {
          assert u == us[n] && u !in init;
          assert FirstIndex(us, u) == n;
        }
      }
    }
  }

  /** resolve_urls (utils.py:152-164). */
  method ResolveUrls(searchResults: seq<SearchResult>, id: int) returns (resolvedMap: map<string, string>)
    ensures resolvedMap == ResolvedMap(Urls(searchResults), id)
    ensures IsResolvedMap(searchResults, id, resolvedMap)
    ensures forall u, v :: u in resolvedMap && v in resolvedMap && u != v ==> resolvedMap[u] != resolvedMap[v]
  {
    ghost var us := Urls(searchResults);
    resolvedMap := map[];
    for idx := 0 to |searchResults|
      invariant resolvedMap == ResolvedMap(us[..idx], id)
    {
      var url := searchResults[idx].url.GetOr("");
      ResolvedMapSnoc(us, id, idx);
      if url != "" && url !in resolvedMap {
        resolvedMap := resolvedMap[url := ShortUrlPrefix + IntToString(id) + "-" + NatToString(idx)];
      }
    }
    assert us[..|searchResults|] == us;
    ResolvedMapKeys(us, id);
    ResolvedMapValues(us, id);
    forall u, v | u in resolvedMap && v in resolvedMap && u != v ensures resolvedMap[u] != resolvedMap[v] {
      if resolvedMap[u] == resolvedMap[v] {
        ResolvedMapInjective(searchResults, id, resolvedMap, u, v);
      }
    }
  }

  // ---------------------------------------------------------------- citations

  /** `title.split('.')[0] if '.' in title else title`: the title up to its first '.'. */
  function Label(title: string): (r: string)
    ensures r <= title
    ensures '.' !in r
    ensures |r| < |title| ==> title[|r|] == '.'
  {
    if title == [] || title[0] == '.' then [] else [title[0]] + Label(title[1..])
  }

  /** A title without a '.' is its own label; otherwise the label stops at the first '.'. */
  lemma LabelCases(title: string)
    ensures '.' !in title ==> Label(title) == title
    ensures '.' in title ==> |Label(title)| < |title| && title[|Label(title)|] == '.'
  {
    var r := Label(title);
    if |r| < |title| {
      assert title[|r|] in title;
    } else {
      assert r == title;
    }
  }

  datatype Segment = Segment(labelText: string, shortUrl: string, value: string)
  datatype Citation = Citation(startIndex: int, endIndex: int, segments: seq<Segment>)

  /** Whether the result at a position is cited: its url is non-empty and has a short URL. */
  predicate Cited(r: SearchResult, m: map<string, string>) {
    UrlOf(r) != "" && UrlOf(r) in m
  }

  /** The citation of the result at position `idx`. */
  function CitationFor(r: SearchResult, idx: nat, m: map<string, string>): (c: Citation)
    requires Cited(r, m)
    ensures c.startIndex == 0 && c.endIndex == |r.snippet.GetOr("")|
    ensures |c.segments| == 1 && c.segments[0].value == UrlOf(r) && c.segments[0].shortUrl == m[UrlOf(r)]
    ensures c.segments[0].labelText == Label(r.title.GetOr("Source " + NatToString(idx + 1)))
  {
    var title := r.title.GetOr("Source " + NatToString(idx + 1));
    Citation(0, |r.snippet.GetOr("")|, [Segment(Label(title), m[UrlOf(r)], UrlOf(r))])
  }

  /** The citations of a result list, in order. */
  function Citations(rs: seq<SearchResult>, m: map<string, string>): seq<Citation> {
    if rs == [] then []
    else
      var i := |rs| - 1;
      Citations(rs[..i], m) + (if Cited(rs[i], m) then [CitationFor(rs[i], i, m)] else [])
  }

  /** The positions of the cited results, in increasing order. */
  function CitedPositions(rs: seq<SearchResult>, m: map<string, string>): seq<nat> {
    if rs == [] then []
    else
      var i := |rs| - 1;
      CitedPositions(rs[..i], m) + (if Cited(rs[i], m) then [i] else [])
  }

  /**
   * The k-th citation is that of the k-th cited result: one per result whose
   * url has a short URL, in input order; and every cited result is listed.
   */
  lemma {:induction false} CitationsFollowResults(rs: seq<SearchResult>, m: map<string, string>)
    ensures var ps := CitedPositions(rs, m);
      && |Citations(rs, m)| == |ps| <= |rs|
      && (forall k :: 0 <= k < |ps| ==> ps[k] < |rs| && Cited(rs[ps[k]], m)
                                        && Citations(rs, m)[k] == CitationFor(rs[ps[k]], ps[k], m))
      && (forall k, l :: 0 <= k < l < |ps| ==> ps[k] < ps[l])
      && (forall i :: 0 <= i < |rs| && Cited(rs[i], m) ==> i in ps)
  {
    CitedPositionsShape(rs, m);
    var ps := CitedPositions(rs, m);
    forall k | 0 <= k < |ps| ensures Citations(rs, m)[k] == CitationFor(rs[ps[k]], ps[k], m) {
      CitationAt(rs, m, k);
    }
  }

  /** The cited positions: as many as the citations, increasing, in range, and every cited result among them. */
  lemma {:induction false} CitedPositionsShape(rs: seq<SearchResult>, m: map<string, string>)
    ensures var ps := CitedPositions(rs, m);
      && |Citations(rs, m)| == |ps| <= |rs|
      && (forall k :: 0 <= k < |ps| ==> ps[k] < |rs| && Cited(rs[ps[k]], m))
      && (forall k, l :: 0 <= k < l < |ps| ==> ps[k] < ps[l])
      && (forall i :: 0 <= i < |rs| && Cited(rs[i], m) ==> i in ps)
  {
    if rs != [] {
      var i := |rs| - 1;
      var init := rs[..i];
      CitedPositionsShape(init, m);
      var ps0 := CitedPositions(init, m);
      assert forall k :: 0 <= k < |ps0| ==> rs[ps0[k]] == init[ps0[k]];
      forall j | 0 <= j < |rs| && Cited(rs[j], m) ensures j in CitedPositions(rs, m) {
        if j < i {
          assert init[j] == rs[j];
          assert j in ps0;
        }
      }
    }
  }

  /** Citation `k` is that of the `k`-th cited result. */
  lemma {:induction false} CitationAt(rs: seq<SearchResult>, m: map<string, string>, k: nat)
    requires k < |CitedPositions(rs, m)|
    ensures CitedPositions(rs, m)[k] < |rs|
    ensures var p := CitedPositions(rs, m)[k];
      Cited(rs[p], m) && k < |Citations(rs, m)| && Citations(rs, m)[k] == CitationFor(rs[p], p, m)
  {
    var i := |rs| - 1;
    var init := rs[..i];
    CitedPositionsShape(init, m);
    var ps0 := CitedPositions(init, m);
    var cs0 := Citations(init, m);
    assert |cs0| == |ps0|;
    if k < |ps0| {
      CitationAt(init, m, k);
      var p := ps0[k];
      assert CitedPositions(rs, m)[k] == p;
      assert init[p] == rs[p];
      assert Citations(rs, m)[k] == cs0[k];
    } else {
      assert Cited(rs[i], m);
      assert CitedPositions(rs, m)[k] == i;
      assert Citations(rs, m)[k] == CitationFor(rs[i], i, m);
    }
  }

  /** With a map built by resolve_urls, every result with a non-empty url is cited. */
  lemma ResolvedMapCitesAll(rs: seq<SearchResult>, id: int, m: map<string, string>, i: nat)
    requires IsResolvedMap(rs, id, m) && i < |rs| && UrlOf(rs[i]) != ""
    ensures Cited(rs[i], m)
  {
    assert Urls(rs)[i] == UrlOf(rs[i]);
  }

  /** get_citations_from_search_results (utils.py:190-219). */
  method GetCitationsFromSearchResults(searchResults: seq<SearchResult>, resolvedUrlsMap: map<string, string>)
    returns (citations: seq<Citation>)
    ensures citations == Citations(searchResults, resolvedUrlsMap)
    ensures |citations| <= |searchResults|
    ensures forall k :: 0 <= k < |citations| ==> |citations[k].segments| == 1 && citations[k].startIndex == 0
  {
    citations := [];
    for idx := 0 to |searchResults|
      invariant citations == Citations(searchResults[..idx], resolvedUrlsMap)
    {
      assert searchResults[..idx + 1][..idx] == searchResults[..idx];
      var result := searchResults[idx];
      var url := result.url.GetOr("");
      var title := result.title.GetOr("Source " + NatToString(idx + 1));
      if url != "" && url in resolvedUrlsMap {
        var citation := Citation(0, |result.snippet.GetOr("")|,
                                 [Segment(Label(title), resolvedUrlsMap[url], url)]);
        citations := citations + [citation];
      }
    }
    assert searchResults[..|searchResults|] == searchResults;
    CitationsFollowResults(searchResults, resolvedUrlsMap);
  }

  // ---------------------------------------------------------------- citation markers

  function Marker(s: Segment): string {
    " [" + s.labelText + "](" + s.shortUrl + ")"
  }

  /** The markers of a list of segments, in order. */
  function SegmentMarkers(ss: seq<Segment>): string {
    if ss == [] then "" else SegmentMarkers(ss[..|ss| - 1]) + Marker(ss[|ss| - 1])
  }

  /** The markers of every segment of every citation, in order. */
  function Markers(cs: seq<Citation>): string {
    if cs == [] then "" else Markers(cs[..|cs| - 1]) + SegmentMarkers(cs[|cs| - 1].segments)
  }

  /** Markers of a concatenation are the concatenated markers. */
  lemma {:induction false} MarkersAppend(a: seq<Citation>, b: seq<Citation>)
    ensures Markers(a + b) == Markers(a) + Markers(b)
    decreases |b|
  {
    if b == [] {
      assert a + b == a;
    } else {
      var init := b[..|b| - 1];
      DropLastAppend(a, b);
      MarkersAppend(a, init);
      AppendAssoc(Markers(a), Markers(init), SegmentMarkers(b[|b| - 1].segments));
    }
  }

  /** Single-segment citations (those get_citations_from_search_results builds) contribute one marker each. */
  lemma {:induction false} OneMarkerPerCitation(cs: seq<Citation>)
    requires forall k :: 0 <= k < |cs| ==> |cs[k].segments| == 1
    ensures |cs| > 0 ==> Markers(cs) == Markers(cs[..|cs| - 1]) + Marker(cs[|cs| - 1].segments[0])
  {
    if |cs| > 0 {
      var ss := cs[|cs| - 1].segments;
      assert |ss| == 1;
      assert ss[..0] == [];
      assert SegmentMarkers(ss) == SegmentMarkers([]) + Marker(ss[0]);
      assert SegmentMarkers(ss) == Marker(ss[0]);
    }
  }

  /** insert_citation_markers (utils.py:167-187). */
  method InsertCitationMarkers(text: string, citationsList: seq<Citation>) returns (r: string)
    ensures citationsList == [] ==> r == text
    ensures r == text + Markers(citationsList)
    ensures text <= r
  {
    if citationsList == [] {
      return text;
    }
    var citationMarkers := "";
    for i := 0 to |citationsList|
      invariant citationMarkers == Markers(citationsList[..i])
    {
      assert citationsList[..i + 1][..i] == citationsList[..i];
      ghost var before := citationMarkers;
      var segments := citationsList[i].segments;
      for j := 0 to |segments|
        invariant citationMarkers == before + SegmentMarkers(segments[..j])
      {
        assert segments[..j + 1][..j] == segments[..j];
        var segment := segments[j];
        AppendAssoc(before, SegmentMarkers(segments[..j]), Marker(segment));
        citationMarkers := citationMarkers + (" [" + segment.labelText + "](" + segment.shortUrl + ")");
      }
      assert segments[..|segments|] == segments;
    }
    assert citationsList[..|citationsList|] == citationsList;
    r := text + citationMarkers;
  }
}
