/**
 * The localization orchestrator: it enriches the query with the request's
 * context, runs the knowledge base's retrieve-then-generate pipeline, turns
 * the generated text into a response, and always answers, with a fixed
 * degraded response when no knowledge base is configured or a step raises.
 * It also reports on a scrape of new pages for the knowledge base.
 */
module Localization {
  import opened Wrappers
  import opened Strings
  import opened QueryEngine

  /** A request; `DefaultRequest` gives the dataclass defaults. */
  datatype LocalizationRequest = LocalizationRequest(
    query: string,
    targetRegion: string,
    brandContext: Option<string>,
    productType: Option<string>,
    campaignType: Option<string>)

  datatype LocalizationResponse = LocalizationResponse(
    query: string,
    targetRegion: string,
    advice: string,
    culturalInsights: seq<string>,
    recommendations: seq<string>,
    sourcesUsed: int,
    confidenceScore: real)

  /** A scraped and chunked page, as the scraper hands it over. */
  datatype Chunk = Chunk(pageContent: string, metadata: map<string, string>)

  /** The scraper's `scrape_and_chunk`: URLs in, chunks out, or an exception. */
  type ScrapeAndChunk = seq<string> -> Result<seq<Chunk>, Exception>

  /** The orchestrator with its collaborators; its fields are fixed at construction. */
  datatype FashionLocalizationRag = FashionLocalizationRag(
    knowledgeBaseId: Option<string>,
    scrapeAndChunk: ScrapeAndChunk,
    retrieve: Retrieve,
    invokeModel: InvokeModel)

  /** The query engine is built only when a knowledge-base id is given. */
  function QueryEngineOf(rag: FashionLocalizationRag): (engine: Option<BedrockKnowledgeBase>)
    ensures engine.Some? <==> Truthy(rag.knowledgeBaseId)
    ensures engine.Some? ==> Truthy(engine.value.knowledgeBaseId) && engine.value.knowledgeBaseId == rag.knowledgeBaseId
    ensures engine.Some? ==> engine.value.retrieve == rag.retrieve && engine.value.invokeModel == rag.invokeModel
  {
    if Truthy(rag.knowledgeBaseId) then Some(BedrockKnowledgeBase(rag.knowledgeBaseId, rag.retrieve, rag.invokeModel))
    else None
  }

  // ---------------------------------------------------------------- query enhancement

  const Separator: string := " | "
  const BrandLabel: string := "Brand context: "
  const ProductLabel: string := "Product type: "
  const CampaignLabel: string := "Campaign type: "
  const RegionLabel: string := "Target region: "

  function Present(field: Option<string>): nat {
    if Truthy(field) then 1 else 0
  }

  /**
   * The parts `_enhance_query` collects: the query, each truthy context field
   * behind its label (brand, product, campaign), then the region.
   */
  function Segments(request: LocalizationRequest): (parts: seq<string>)
    ensures |parts| == 2 + Present(request.brandContext) + Present(request.productType) + Present(request.campaignType)
    ensures parts[0] == request.query
    ensures parts[|parts| - 1] == RegionLabel + request.targetRegion
    ensures Truthy(request.brandContext) ==> parts[1] == BrandLabel + request.brandContext.value
    ensures Truthy(request.productType) ==>
      parts[1 + Present(request.brandContext)] == ProductLabel + request.productType.value
    ensures Truthy(request.campaignType) ==>
      parts[1 + Present(request.brandContext) + Present(request.productType)] == CampaignLabel + request.campaignType.value
  {
    var started := [request.query];
    var withBrand := if Truthy(request.brandContext) then started + [BrandLabel + request.brandContext.value] else started;
    var withProduct := if Truthy(request.productType) then withBrand + [ProductLabel + request.productType.value] else withBrand;
    var withCampaign := if Truthy(request.campaignType) then withProduct + [CampaignLabel + request.campaignType.value] else withProduct;
    withCampaign + [RegionLabel + request.targetRegion]
  }

  /**
   * `LocalizationRequest(query)`: the region defaults to `DefaultRegion` and
   * the three context fields to absent, so the enhanced query is the query
   * followed by the default region segment.
   */
  function DefaultRequest(query: string): (request: LocalizationRequest)
    ensures request.query == query && request.targetRegion == DefaultRegion
    ensures !Truthy(request.brandContext) && !Truthy(request.productType) && !Truthy(request.campaignType)
    ensures EnhancedQuery(request) == query + " | Target region: Saudi Arabia"
  {
    var request := LocalizationRequest(query, DefaultRegion, None, None, None);
    var parts := Segments(request);
    assert parts == [query, RegionLabel + DefaultRegion];
    assert parts[1..] == [RegionLabel + DefaultRegion];
    assert Join(parts, Separator) == query + Separator + (RegionLabel + DefaultRegion);
    LabelsAfterSeparator();
    request
  }

  /** No field of the request that can reach the enhanced query holds a `|`. */
  predicate BarFree(request: LocalizationRequest) {
    && '|' !in request.query
    && '|' !in request.targetRegion
    && (request.brandContext.Some? ==> '|' !in request.brandContext.value)
    && (request.productType.Some? ==> '|' !in request.productType.value)
    && (request.campaignType.Some? ==> '|' !in request.campaignType.value)
  }

  lemma LabelledBarFree(tag: string, value: string)
    requires '|' !in tag && '|' !in value
    ensures '|' !in tag + value
  {
  }

  lemma {:induction false} SegmentsBarFree(request: LocalizationRequest)
    requires BarFree(request)
    ensures MarkerFree(Segments(request), '|')
  {
    var parts := Segments(request);
    assert '|' !in BrandLabel && '|' !in ProductLabel && '|' !in CampaignLabel && '|' !in RegionLabel;
    LabelledBarFree(RegionLabel, request.targetRegion);
    if Truthy(request.brandContext) { LabelledBarFree(BrandLabel, request.brandContext.value); }
    if Truthy(request.productType) { LabelledBarFree(ProductLabel, request.productType.value); }
    if Truthy(request.campaignType) { LabelledBarFree(CampaignLabel, request.campaignType.value); }
  }

  /**
   * `_enhance_query`: the segments joined by `" | "`. The string starts with
   * the query and ends with the region segment; when no field holds a `|`,
   * splitting it on `" | "` gives back exactly the segments.
   */
  function EnhancedQuery(request: LocalizationRequest): (enhanced: string)
    ensures request.query <= enhanced
    ensures EndsWith(enhanced, RegionLabel + request.targetRegion)
    ensures BarFree(request) ==> Split(enhanced, Separator) == Segments(request)
  {
    var parts := Segments(request);
    JoinBounds(parts, Separator);
    if BarFree(request) then
      SegmentsBarFree(request);
      assert FirstAt(Separator, 1);
      SplitJoin(parts, Separator, 1);
      Join(parts, Separator)
    else
      Join(parts, Separator)
  }

  /** A bar-free enhanced query splits into 2 segments plus one per truthy context field. */
  lemma EnhancedQuerySegmentCount(request: LocalizationRequest)
    requires BarFree(request)
    ensures |Split(EnhancedQuery(request), Separator)|
         == 2 + Present(request.brandContext) + Present(request.productType) + Present(request.campaignType)
    ensures Split(EnhancedQuery(request), Separator)[0] == request.query
  {
  }

  /** A query with only a brand context: the query, the brand segment and the region, in that order. */
  lemma {:induction false} EnhancedQueryWithBrand(query: string, region: string, brand: string)
    requires brand != ""
    ensures EnhancedQuery(LocalizationRequest(query, region, Some(brand), None, None))
         == query + " | Brand context: " + brand + " | Target region: " + region
  {
    var request := LocalizationRequest(query, region, Some(brand), None, None);
    var parts := Segments(request);
    assert parts == [query, BrandLabel + brand, RegionLabel + region];
    assert parts[1..] == [BrandLabel + brand, RegionLabel + region];
    assert parts[1..][1..] == [RegionLabel + region];
    assert Join(parts[1..][1..], Separator) == RegionLabel + region;
    assert Join(parts[1..], Separator) == BrandLabel + brand + Separator + (RegionLabel + region);
    assert Join(parts, Separator) == query + Separator + Join(parts[1..], Separator);
    LabelsAfterSeparator();
  }

  /** The separator followed by a label, spelled out. */
  lemma LabelsAfterSeparator()
    ensures Separator + BrandLabel == " | Brand context: "
    ensures Separator + RegionLabel == " | Target region: "
    ensures Separator + RegionLabel + DefaultRegion == " | Target region: Saudi Arabia"
  {
  }

  // ---------------------------------------------------------------- response shaping

  /** The two keys `_parse_response` reads from the pipeline's result; each may be absent. */
  datatype ResultFields = ResultFields(generatedResponse: Option<string>, numDocsUsed: Option<int>)

  const CulturalKeyword: string := "cultural"
  const RecommendKeyword: string := "recommend"
  const CulturalNote: string := "Cultural considerations identified in response"
  const RecommendationNote: string := "Specific recommendations provided"
  const ParsedConfidence: real := 0.8
  const NotConfiguredAdvice: string := "Knowledge Base not configured. Please provide Knowledge Base ID."
  const ErrorPrefix: string := "Error generating advice: "

  /** The note, once, when the keyword occurs in the lowercased advice. */
  function KeywordNote(advice: string, keyword: string, note: string): seq<string> {
    if Contains(Lower(advice), keyword) then [note] else []
  }

  /**
   * `_parse_response`: request fields copied, the generated text as advice
   * (default empty), one note per keyword found, the document count as
   * sources (default 0) and the fixed confidence.
   */
  function ParseResponse(request: LocalizationRequest, result: ResultFields): (response: LocalizationResponse)
    ensures response.query == request.query && response.targetRegion == request.targetRegion
    ensures response.advice == result.generatedResponse.GetOr("")
    ensures response.culturalInsights != [] <==> exists i :: OccursAt(Lower(response.advice), CulturalKeyword, i)
    ensures response.culturalInsights != [] ==> response.culturalInsights == [CulturalNote]
    ensures response.recommendations != [] <==> exists i :: OccursAt(Lower(response.advice), RecommendKeyword, i)
    ensures response.recommendations != [] ==> response.recommendations == [RecommendationNote]
    ensures response.sourcesUsed == result.numDocsUsed.GetOr(0)
    ensures response.confidenceScore == ParsedConfidence
  {
    var advice := result.generatedResponse.GetOr("");
    LocalizationResponse(
      request.query,
      request.targetRegion,
      advice,
      KeywordNote(advice, CulturalKeyword, CulturalNote),
      KeywordNote(advice, RecommendKeyword, RecommendationNote),
      result.numDocsUsed.GetOr(0),
      ParsedConfidence)
  }

  /** The keyword test ignores ASCII case: a "Cultural" or "CULTURAL" in the advice sets the insight note. */
  lemma CulturalNoteIgnoresCase(request: LocalizationRequest, advice: string, variant: string, i: int)
    requires OccursAt(advice, variant, i) && Lower(variant) == CulturalKeyword
    ensures ParseResponse(request, ResultFields(Some(advice), None)).culturalInsights == [CulturalNote]
  {
    LowerFindsCaseVariant(advice, variant, CulturalKeyword, i);
  }

  /** The response given when nothing could be asked or something raised. */
  predicate Degraded(response: LocalizationResponse, request: LocalizationRequest, advice: string) {
    response == LocalizationResponse(request.query, request.targetRegion, advice, [], [], 0, 0.0)
  }

  function AsResultFields(result: GenerationResult): ResultFields {
    ResultFields(Some(result.generatedResponse), Some(result.numDocsUsed))
  }

  /**
   * `get_localization_advice`. Without a query engine: the fixed
   * not-configured response. Otherwise the pipeline runs on the enhanced
   * query; an exception from it becomes the degraded response whose advice is
   * the error prefix and the exception text. It never fails.
   */
  function GetLocalizationAdvice(rag: FashionLocalizationRag, request: LocalizationRequest)
    : (response: LocalizationResponse)
    ensures response.query == request.query && response.targetRegion == request.targetRegion
    ensures QueryEngineOf(rag).None? ==> Degraded(response, request, NotConfiguredAdvice)
    ensures QueryEngineOf(rag).Some? ==>
      var outcome := QueryAndGenerate(QueryEngineOf(rag).value, EnhancedQuery(request), request.targetRegion, DefaultMaxResults);
      && (outcome.Failure? ==> Degraded(response, request, ErrorPrefix + outcome.error.message))
      && (outcome.Success? ==>
            && response.advice == outcome.value.generatedResponse
            && response.sourcesUsed == |outcome.value.retrievedDocs|
            && response.confidenceScore == ParsedConfidence)
    ensures QueryEngineOf(rag).Some? ==>
      var outcome := QueryAndGenerate(QueryEngineOf(rag).value, EnhancedQuery(request), request.targetRegion, DefaultMaxResults);
      outcome.Success? ==> response == ParseResponse(request, AsResultFields(outcome.value))
    ensures response.confidenceScore == 0.0 || response.confidenceScore == ParsedConfidence
    ensures response.confidenceScore == 0.0 ==>
      response.culturalInsights == [] && response.recommendations == [] && response.sourcesUsed == 0
    ensures |response.culturalInsights| <= 1 && |response.recommendations| <= 1
  {
    match QueryEngineOf(rag)
    case None =>
      LocalizationResponse(request.query, request.targetRegion, NotConfiguredAdvice, [], [], 0, 0.0)
    case Some(engine) =>
      match QueryAndGenerate(engine, EnhancedQuery(request), request.targetRegion, DefaultMaxResults)
      case Failure(e) =>
        LocalizationResponse(request.query, request.targetRegion, ErrorPrefix + e.message, [], [], 0, 0.0)
      case Success(result) =>
        ParseResponse(request, AsResultFields(result))
  }

  /**
   * End to end: with a knowledge base configured and both remote calls
   * answering, the sources reported are the retrieved results that reach the
   * default threshold, and the advice is the model's text for the prompt
   * built from exactly those results.
   */
  lemma AdviceFromRetrievedDocuments(rag: FashionLocalizationRag, request: LocalizationRequest)
    requires Truthy(rag.knowledgeBaseId)
    requires rag.retrieve(rag.knowledgeBaseId.value, EnhancedQuery(request), DefaultMaxResults).Success?
    ensures
      var docs := Filtered(RetrievedList(rag.retrieve(rag.knowledgeBaseId.value, EnhancedQuery(request), DefaultMaxResults).value), DefaultThreshold);
      var generated := rag.invokeModel(Prompt(request.targetRegion, ContextText(docs), EnhancedQuery(request)));
      && (generated.Success? ==>
            && GetLocalizationAdvice(rag, request).sourcesUsed == |docs|
            && GetLocalizationAdvice(rag, request).advice == generated.value
            && GetLocalizationAdvice(rag, request).confidenceScore == ParsedConfidence)
      && (generated.Failure? ==>
            Degraded(GetLocalizationAdvice(rag, request), request, ErrorPrefix + generated.error.message))
  {
    var engine := QueryEngineOf(rag).value;
    assert engine.retrieve == rag.retrieve && engine.invokeModel == rag.invokeModel;
  }

  // ---------------------------------------------------------------- knowledge-base update

  /** The dictionary `update_knowledge_base` returns, one constructor per status. */
  datatype UpdateReport =
    | NoDocuments
    | Scraped(documentsScraped: int, urlsProcessed: int, documents: seq<Chunk>)
    | UpdateError(error: string)
  {
    function Status(): string {
      match this
      case NoDocuments => "failed"
      case Scraped(_, _, _) => "success"
      case UpdateError(_) => "error"
    }

    function Message(): string {
      match this
      case NoDocuments => "No documents scraped"
      case Scraped(_, _, _) => "Documents ready for Knowledge Base upload"
      case UpdateError(e) => e
    }
  }

  /**
   * `update_knowledge_base`: "failed" for an empty scrape, "success" with the
   * chunk and URL counts otherwise, "error" with the exception text when the
   * scraper raises.
   */
  function UpdateKnowledgeBase(rag: FashionLocalizationRag, urls: seq<string>): (report: UpdateReport)
    ensures report.Status() == "failed" <==> rag.scrapeAndChunk(urls) == Success([])
    ensures report.Status() == "success" <==> rag.scrapeAndChunk(urls).Success? && rag.scrapeAndChunk(urls).value != []
    ensures report.Status() == "error" <==> rag.scrapeAndChunk(urls).Failure?
    ensures report.Scraped? ==>
      && report.documents == rag.scrapeAndChunk(urls).value
      && report.documentsScraped == |report.documents| > 0
      && report.urlsProcessed == |urls|
    ensures report.UpdateError? ==> report.Message() == rag.scrapeAndChunk(urls).error.message
  {
    match rag.scrapeAndChunk(urls)
    case Failure(e) => UpdateError(e.message)
    case Success(documents) =>
      if documents == [] then NoDocuments
      else Scraped(|documents|, |urls|, documents)
  }
}
