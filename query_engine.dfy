/**
 * The knowledge-base client: retrieval with a score threshold, the context
 * block and prompt handed to the generation model, and the
 * retrieve-then-generate pipeline. The two remote calls (`retrieve` and
 * `invoke_model`) are function values that either answer or raise.
 */
module QueryEngine {
  import opened Wrappers
  import opened Strings

  /** An exception, with the text `str(e)` gives for it. */
  datatype Exception = ValueError(message: string) | RemoteError(message: string)

  /** One entry of `retrievalResults`; each field may be absent. */
  datatype RetrievalResult = RetrievalResult(score: Option<real>, source: Option<string>, text: Option<string>)

  /** The reply of the retrieval call; the key `retrievalResults` may be absent. */
  datatype RetrieveResponse = RetrieveResponse(retrievalResults: Option<seq<RetrievalResult>>)

  /** The remote retrieval: knowledge-base id, query text, number of results. */
  type Retrieve = (string, string, int) -> Result<RetrieveResponse, Exception>

  /** The remote generation model: prompt in, first text field of the reply out. */
  type InvokeModel = string -> Result<string, Exception>

  /** A configured client. The source's fields are never changed after construction. */
  datatype BedrockKnowledgeBase = BedrockKnowledgeBase(
    knowledgeBaseId: Option<string>,
    retrieve: Retrieve,
    invokeModel: InvokeModel)

  /** What `query_knowledge_base` returns. */
  datatype QueryResult = QueryResult(
    query: string,
    results: seq<RetrievalResult>,
    totalResults: int,
    rawResponse: RetrieveResponse)

  /** What `query_and_generate` returns. */
  datatype GenerationResult = GenerationResult(
    query: string,
    targetRegion: string,
    generatedResponse: string,
    retrievedDocs: seq<RetrievalResult>,
    numDocsUsed: int)

  const DefaultMaxResults: int := 5
  const DefaultThreshold: real := 0.7
  const DefaultRegion: string := "Saudi Arabia"
  const MissingIdMessage: string := "Knowledge Base ID not provided"
  const ContextSeparator: string := "\n\n"

  /** `result.get('score', 0)`. */
  function ScoreOf(result: RetrievalResult): real {
    result.score.GetOr(0.0)
  }

  predicate Passes(result: RetrievalResult, threshold: real) {
    ScoreOf(result) >= threshold
  }

  /** `response.get('retrievalResults', [])`. */
  function RetrievedList(response: RetrieveResponse): seq<RetrievalResult> {
    response.retrievalResults.GetOr([])
  }

  /** The results the threshold filter keeps, in their original order. */
  function Filtered(results: seq<RetrievalResult>, threshold: real): (kept: seq<RetrievalResult>)
    ensures |kept| <= |results|
    decreases |results|
  {
    if results == [] then []
    else
      var last := results[|results| - 1];
      Filtered(results[..|results| - 1], threshold) + (if Passes(last, threshold) then [last] else [])
  }

  /** `a` is `b` with some entries left out, the rest in the same relative order. */
  ghost predicate IsSubsequence<T>(a: seq<T>, b: seq<T>)
    decreases |b|
  {
    || a == []
    || (&& b != []
        && (|| (a[|a| - 1] == b[|b| - 1] && IsSubsequence(a[..|a| - 1], b[..|b| - 1]))
            || IsSubsequence(a, b[..|b| - 1])))
  }

  /** The filter's output is a subsequence of its input. */
  lemma {:induction false} FilteredIsSubsequence(results: seq<RetrievalResult>, threshold: real)
    ensures IsSubsequence(Filtered(results, threshold), results)
    decreases |results|
  {
    if results != [] {
      var init := results[..|results| - 1];
      FilteredIsSubsequence(init, threshold);
      var kept := Filtered(results, threshold);
      if kept != Filtered(init, threshold) {
        assert kept[..|kept| - 1] == Filtered(init, threshold);
      }
    }
  }

  /**
   * A result is kept exactly when its score reaches the threshold: every
   * passing result keeps all its occurrences, every other one has none.
   */
  lemma {:induction false} FilteredCounts(results: seq<RetrievalResult>, threshold: real, x: RetrievalResult)
    ensures multiset(Filtered(results, threshold))[x]
         == if Passes(x, threshold) then multiset(results)[x] else 0
    decreases |results|
  {
    if results != [] {
      var init, last := results[..|results| - 1], results[|results| - 1];
      FilteredCounts(init, threshold, x);
      assert results == init + [last];
    }
  }

  /** Every kept result reaches the threshold (inclusive), and every result that reaches it is kept. */
  lemma FilteredKeepsExactlyPassing(results: seq<RetrievalResult>, threshold: real, x: RetrievalResult)
    ensures x in Filtered(results, threshold) <==> x in results && ScoreOf(x) >= threshold
  {
    FilteredCounts(results, threshold, x);
  }

  /** A result without a score counts as 0: it is kept only when the threshold is at most 0. */
  lemma MissingScoreKeptIffThresholdNonPositive(results: seq<RetrievalResult>, threshold: real, x: RetrievalResult)
    requires x in results && x.score.None?
    ensures x in Filtered(results, threshold) <==> threshold <= 0.0
  {
    FilteredKeepsExactlyPassing(results, threshold, x);
  }

  /** When every result reaches the threshold the filter returns the list unchanged. */
  lemma {:induction false} FilteredAllPass(results: seq<RetrievalResult>, threshold: real)
    requires forall i :: 0 <= i < |results| ==> Passes(results[i], threshold)
    ensures Filtered(results, threshold) == results
    decreases |results|
  {
    if results != [] {
      var init := results[..|results| - 1];
      FilteredAllPass(init, threshold);
      assert init + [results[|results| - 1]] == results;
    }
  }

  /** The scenario of five retrieved passages at threshold 0.7: three remain, in order. */
  lemma FilteredExample(a: RetrievalResult, b: RetrievalResult, c: RetrievalResult, d: RetrievalResult, e: RetrievalResult)
    requires a.score == Some(0.9) && b.score == Some(0.5) && c.score == Some(0.8)
    requires d.score == Some(0.3) && e.score == Some(0.75)
    ensures Filtered([a, b, c, d, e], DefaultThreshold) == [a, c, e]
  {
    assert Filtered([a], DefaultThreshold) == [a] by { assert [a][..0] == []; }
    assert Filtered([a, b], DefaultThreshold) == [a] by { assert [a, b][..1] == [a]; }
    assert Filtered([a, b, c], DefaultThreshold) == [a, c] by { assert [a, b, c][..2] == [a, b]; }
    assert Filtered([a, b, c, d], DefaultThreshold) == [a, c] by { assert [a, b, c, d][..3] == [a, b, c]; }
    assert [a, b, c, d, e][..4] == [a, b, c, d];
  }

  /**
   * `query_knowledge_base` as a value: a falsy id raises before the remote
   * call; a raising call propagates; otherwise the filtered results.
   */
  function KnowledgeBaseQuery(kb: BedrockKnowledgeBase, query: string, maxResults: int, threshold: real)
    : (r: Result<QueryResult, Exception>)
    ensures !Truthy(kb.knowledgeBaseId) ==> r == Failure(ValueError(MissingIdMessage))
    ensures r.Success? <==> Truthy(kb.knowledgeBaseId) && kb.retrieve(kb.knowledgeBaseId.value, query, maxResults).Success?
    ensures r.Success? ==>
      var call := kb.retrieve(kb.knowledgeBaseId.value, query, maxResults);
      && call.Success?
      && r.value.query == query
      && r.value.rawResponse == call.value
      && r.value.totalResults == |r.value.results| <= |RetrievedList(call.value)|
      && r.value.results == Filtered(RetrievedList(call.value), threshold)
      && IsSubsequence(r.value.results, RetrievedList(call.value))
      && (forall i :: 0 <= i < |r.value.results| ==> ScoreOf(r.value.results[i]) >= threshold)
      && (forall x :: x in RetrievedList(call.value) && ScoreOf(x) >= threshold ==> x in r.value.results)
    ensures Truthy(kb.knowledgeBaseId) && kb.retrieve(kb.knowledgeBaseId.value, query, maxResults).Failure? ==>
      r == Failure(kb.retrieve(kb.knowledgeBaseId.value, query, maxResults).error)
  {
    if !Truthy(kb.knowledgeBaseId) then Failure(ValueError(MissingIdMessage))
    else
      match kb.retrieve(kb.knowledgeBaseId.value, query, maxResults)
      case Failure(e) => Failure(e)
      case Success(response) =>
        var all := RetrievedList(response);
        var kept := Filtered(all, threshold);
        FilteredIsSubsequence(all, threshold);
        assert forall i :: 0 <= i < |kept| ==> ScoreOf(kept[i]) >= threshold by {
          forall i | 0 <= i < |kept| ensures ScoreOf(kept[i]) >= threshold {
            FilteredKeepsExactlyPassing(all, threshold, kept[i]);
          }
        }
        assert forall x :: x in all && ScoreOf(x) >= threshold ==> x in kept by {
          forall x | x in all && ScoreOf(x) >= threshold ensures x in kept {
            FilteredKeepsExactlyPassing(all, threshold, x);
          }
        }
        Success(QueryResult(query, kept, |kept|, response))
  }

  /** `query_knowledge_base`: the id check, the remote call, then the filter loop. */
  method QueryKnowledgeBase(kb: BedrockKnowledgeBase, query: string, maxResults: int, threshold: real)
    returns (r: Result<QueryResult, Exception>)
    ensures r == KnowledgeBaseQuery(kb, query, maxResults, threshold)
  {
    if !Truthy(kb.knowledgeBaseId) {
      return Failure(ValueError(MissingIdMessage));
    }
    var call := kb.retrieve(kb.knowledgeBaseId.value, query, maxResults);
    if call.Failure? {
      return Failure(call.error);
    }
    var all := RetrievedList(call.value);
    var filtered := [];
    for i := 0 to |all|
      invariant filtered == Filtered(all[..i], threshold)
    {
      var result := all[i];
      assert all[..i + 1][..i] == all[..i];
      if ScoreOf(result) >= threshold {
        filtered := filtered + [result];
      }
    }
    assert all[..|all|] == all;
    return Success(QueryResult(query, filtered, |filtered|, call.value));
  }

  const SourceLabel: string := "Source: "
  const ContentLabel: string := "\nContent: "

  /**
   * One block of the context: `Source: ` with the source (`Unknown` when
   * absent), then a newline, `Content: ` and the text (empty when absent).
   */
  function Block(doc: RetrievalResult): (block: string)
    ensures SourceLabel <= block
    ensures OccursAt(block, doc.source.GetOr("Unknown"), |SourceLabel|)
    ensures OccursAt(block, ContentLabel, |SourceLabel| + |doc.source.GetOr("Unknown")|)
    ensures EndsWith(block, ContentLabel + doc.text.GetOr(""))
    ensures |block| == |SourceLabel| + |doc.source.GetOr("Unknown")| + |ContentLabel| + |doc.text.GetOr("")|
  {
    var source, text := doc.source.GetOr("Unknown"), doc.text.GetOr("");
    var block := SourceLabel + source + ContentLabel + text;
    OccursInMiddle(SourceLabel, source, ContentLabel + text);
    OccursInMiddle(SourceLabel + source, ContentLabel, text);
    assert block == SourceLabel + source + (ContentLabel + text);
    block
  }

  function Blocks(docs: seq<RetrievalResult>): (blocks: seq<string>)
    ensures |blocks| == |docs|
    ensures forall i :: 0 <= i < |docs| ==> blocks[i] == Block(docs[i])
  {
    seq(|docs|, i requires 0 <= i < |docs| => Block(docs[i]))
  }

  /**
   * The context text of `generate_culturally_aware_response`: the blocks
   * joined by a blank line. It is empty for no documents, starts with the
   * first document's block, ends with the last one's and holds every block.
   */
  function ContextText(docs: seq<RetrievalResult>): (text: string)
    ensures docs == [] ==> text == ""
    ensures docs != [] ==> Block(docs[0]) <= text && EndsWith(text, Block(docs[|docs| - 1]))
    ensures forall i :: 0 <= i < |docs| ==> Contains(text, Block(docs[i]))
  {
    var blocks := Blocks(docs);
    var text := Join(blocks, ContextSeparator);
    assert forall i :: 0 <= i < |docs| ==> Contains(text, Block(docs[i])) by {
      forall i | 0 <= i < |docs| ensures Contains(text, Block(docs[i])) {
        JoinHoldsParts(blocks, ContextSeparator, i);
      }
    }
    if docs == [] then text
    else
      JoinBounds(blocks, ContextSeparator);
      text
  }

  /**
   * The context text is empty for no documents, a single block for one, and
   * grows by a blank line and one block per further document, in order.
   */
  lemma ContextTextLayout(docs: seq<RetrievalResult>, doc: RetrievalResult)
    ensures ContextText([]) == ""
    ensures ContextText([doc]) == Block(doc)
    ensures docs != [] ==> ContextText(docs + [doc]) == ContextText(docs) + "\n\n" + Block(doc)
  {
    if docs != [] {
      assert Blocks(docs + [doc]) == Blocks(docs) + [Block(doc)];
      JoinSnoc(Blocks(docs), ContextSeparator, Block(doc));
    }
  }

  const PromptOpening: string := "\nYou are an expert in fashion marketing localization with deep knowledge of "
  const PromptNorms: string := "'s cultural norms, values, and preferences.\n\nContext Information:\n"
  const PromptQueryLabel: string := "\n\nUser Query: "
  const PromptBasedOn: string := "\n\nBased on the provided context about "
  const PromptInstructions: string :=
    "'s culture and fashion norms, provide specific, actionable advice for localizing fashion marketing. Consider:\n\n"
    + "1. Cultural sensitivities and values\n"
    + "2. Appropriate imagery and messaging\n"
    + "3. Color symbolism and preferences\n"
    + "4. Religious and social considerations\n"
    + "5. Local fashion trends and preferences\n"
    + "6. Marketing channels and approaches\n\n"
    + "Provide a comprehensive response that goes beyond translation to true cultural localization.\n\n"
    + "Response:"

  /** The closing part of the prompt, which names the region a second time. */
  function PromptTail(targetRegion: string): string {
    PromptBasedOn + targetRegion + PromptInstructions
  }

  /** The generation prompt; it embeds the region, the context text and the query. */
  function Prompt(targetRegion: string, contextText: string, query: string): (p: string)
    ensures OccursAt(p, targetRegion, |PromptOpening|)
    ensures Contains(p, contextText) && Contains(p, query) && Contains(p, targetRegion)
  {
    EmbedsPieces(PromptOpening, targetRegion, PromptNorms, contextText, PromptQueryLabel, query, PromptTail(targetRegion));
    PromptOpening + targetRegion + PromptNorms + contextText + PromptQueryLabel + query + PromptTail(targetRegion)
  }

  lemma EmbedsPieces(a: string, x: string, b: string, y: string, c: string, z: string, d: string)
    ensures var p := a + x + b + y + c + z + d;
      && OccursAt(p, x, |a|) && Contains(p, x) && Contains(p, y) && Contains(p, z)
  {
    var ax := a + x;
    var axby := ax + b + y;
    var axbycz := axby + c + z;
    OccursAtEnd(a, x);
    OccursAppend(ax, b, x, |a|);
    OccursAppend(ax + b, y, x, |a|);
    OccursAtEnd(ax + b, y);
    OccursAppend(axby, c, x, |a|);
    OccursAppend(axby, c, y, |ax + b|);
    OccursAppend(axby + c, z, x, |a|);
    OccursAppend(axby + c, z, y, |ax + b|);
    OccursAtEnd(axby + c, z);
    OccursAppend(axbycz, d, x, |a|);
    OccursAppend(axbycz, d, y, |ax + b|);
    OccursAppend(axbycz, d, z, |axby + c|);
  }

  /**
   * `generate_culturally_aware_response`: the model's answer, or its
   * exception, for a prompt that names the region right after "deep
   * knowledge of " and holds the context text of the documents and the query.
   */
  function GenerateCulturallyAwareResponse(kb: BedrockKnowledgeBase, query: string, contextDocs: seq<RetrievalResult>, targetRegion: string)
    : (r: Result<string, Exception>)
    ensures exists p ::
      && r == kb.invokeModel(p)
      && OccursAt(p, targetRegion, |PromptOpening|)
      && Contains(p, ContextText(contextDocs))
      && Contains(p, query)
  {
    var p := Prompt(targetRegion, ContextText(contextDocs), query);
    kb.invokeModel(p)
  }

  /**
   * `query_and_generate`: retrieval at the default threshold, then generation
   * over the kept documents; either step's exception propagates.
   */
  function QueryAndGenerate(kb: BedrockKnowledgeBase, query: string, targetRegion: string, maxResults: int)
    : (r: Result<GenerationResult, Exception>)
    ensures KnowledgeBaseQuery(kb, query, maxResults, DefaultThreshold).Failure? ==>
      r == Failure(KnowledgeBaseQuery(kb, query, maxResults, DefaultThreshold).error)
    ensures KnowledgeBaseQuery(kb, query, maxResults, DefaultThreshold).Success? ==>
      var docs := KnowledgeBaseQuery(kb, query, maxResults, DefaultThreshold).value.results;
      var generated := kb.invokeModel(Prompt(targetRegion, ContextText(docs), query));
      && docs == Filtered(RetrievedList(kb.retrieve(kb.knowledgeBaseId.value, query, maxResults).value), DefaultThreshold)
      && (generated.Failure? ==> r == Failure(generated.error))
      && (generated.Success? ==>
            && r.Success?
            && r.value.query == query
            && r.value.targetRegion == targetRegion
            && r.value.generatedResponse == generated.value
            && r.value.retrievedDocs == docs
            && r.value.numDocsUsed == |docs|)
  {
    match KnowledgeBaseQuery(kb, query, maxResults, DefaultThreshold)
    case Failure(e) => Failure(e)
    case Success(retrieval) =>
      match GenerateCulturallyAwareResponse(kb, query, retrieval.results, targetRegion)
      case Failure(e) => Failure(e)
      case Success(response) =>
        Success(GenerationResult(query, targetRegion, response, retrieval.results, |retrieval.results|))
  }
}
