# Fashion localization RAG orchestrator — a Dafny model

This project models the request path of the `lokalize` fashion-localization service.
The service does four things:

- It enriches a localization query with optional brand, product and campaign context and the target region.
- It asks a hosted knowledge base for passages and keeps those whose score reaches a threshold.
- It builds a prompt from the kept passages, and the generated answer becomes a response record with two keyword flags.
- It always answers. When no knowledge base is configured, or when a step raises, it returns a fixed degraded response.

The model also covers the status record produced when new pages are scraped for the knowledge base.

The remote calls are function values that either return a value or raise an `Exception` (a `Result`):

- `retrieve`: the knowledge-base retrieval.
- `invokeModel`: the generation model, prompt in, generated text out.
- `scrapeAndChunk`: the scraper.

The retrieved list is whatever `retrieve` returns. The model never inspects how chunking, retrieval or generation work.

Files and modules:

- `wrappers.dfy` (`Wrappers`): `Option` and `Result`.
- `strings.dfy` (`Strings`):
  - Python truthiness of an optional string.
  - ASCII `lower()`.
  - First-occurrence search and `in`.
  - `sep.join` and its inverse `Split`.
- `query_engine.dfy` (`QueryEngine`), modelling `query_engine.py`:
  - The threshold filter. The loop of `query_knowledge_base` is the method `QueryKnowledgeBase`, proved equal to the function `KnowledgeBaseQuery`.
  - The context block and the prompt.
  - `query_and_generate`.
- `localization.dfy` (`Localization`), modelling `__init__.py`:
  - The request and response records.
  - `_enhance_query`, `_parse_response`, `get_localization_advice` and `update_knowledge_base`.

The two classes of the source never change their fields after construction, so they are datatypes:

- `BedrockKnowledgeBase`
- `FashionLocalizationRag`

Two behaviours of the code are modelled as written:

- A missing knowledge-base id raises a plain `ValueError` with the text "Knowledge Base ID not provided". There is no dedicated configuration-error type.
- `update_knowledge_base` returns the scraped chunks themselves in its success record, beside the counts and the message.

## Model

| member | source | states |
|---|---|---|
| `Strings.Lower` | src/lokalize/rag/__init__.py:173-176 | lowercasing keeps the length, leaves no ASCII capital, keeps every other character and maps each capital to its lowercase letter |
| `Strings.IndexOf` | src/lokalize/rag/__init__.py:173-176 | the result is an index where the needle occurs with no earlier occurrence, or absent exactly when the needle occurs nowhere; this is Python's `in` |
| `Strings.LowerKeepsOccurrence` | src/lokalize/rag/__init__.py:173-176 | an occurrence of a needle in the advice becomes an occurrence of the lowercased needle in the lowercased advice, at the same index |
| `Strings.LowerFindsCaseVariant` | src/lokalize/rag/__init__.py:173-176 | any case variant of a lowercase keyword in the advice makes the keyword test on the lowercased advice succeed |
| `Strings.JoinBounds` | src/lokalize/rag/__init__.py:163 | a joined string starts with the first part and ends with the last part |
| `Strings.JoinHoldsParts` | src/lokalize/rag/query_engine.py:112-116 | every part occurs in the joined string |
| `Strings.JoinSnoc` | src/lokalize/rag/query_engine.py:112-116 | joining one more part appends the separator and then that part |
| `Strings.Split` | src/lokalize/rag/__init__.py:163 | splitting on a non-empty separator gives at least one piece, and joining the pieces gives back the input |
| `Strings.SplitJoin` | src/lokalize/rag/__init__.py:163 | when no part holds the separator's marker character, splitting the joined string gives back exactly the parts |
| `QueryEngine.Filtered` | src/lokalize/rag/query_engine.py:74-78 | the filter never returns more results than it was given |
| `QueryEngine.FilteredIsSubsequence` | src/lokalize/rag/query_engine.py:74-78 | the kept results are a subsequence of `retrievalResults`, in their original relative order |
| `QueryEngine.FilteredCounts` | src/lokalize/rag/query_engine.py:74-78 | a result scoring at least the threshold keeps all its occurrences; a result scoring below it keeps none |
| `QueryEngine.FilteredKeepsExactlyPassing` | src/lokalize/rag/query_engine.py:74-78 | a result is kept if and only if it was retrieved and its score is at least the threshold (inclusive) |
| `QueryEngine.MissingScoreKeptIffThresholdNonPositive` | src/lokalize/rag/query_engine.py:75-77 | a result without a score counts as 0, so it is kept if and only if the threshold is at most 0 |
| `QueryEngine.FilteredAllPass` | src/lokalize/rag/query_engine.py:74-78 | when every result reaches the threshold, the filter returns the list unchanged |
| `QueryEngine.FilteredExample` | src/lokalize/rag/query_engine.py:74-78 | scores 0.9, 0.5, 0.8, 0.3 and 0.75 at threshold 0.7 leave the first, third and fifth results, in that order |
| `QueryEngine.KnowledgeBaseQuery` | src/lokalize/rag/query_engine.py:56-94 | it succeeds if and only if the id is truthy and the retrieval answers; a falsy id fails with the fixed `ValueError`, whatever the remote call would do; a raising retrieval propagates its exception; success echoes the query and the raw response, reports `total_results` equal to the number of kept results, keeps a subsequence of the retrieved list (empty when `retrievalResults` is missing), keeps only results at or above the threshold, and keeps every such result |
| `QueryEngine.QueryKnowledgeBase` | src/lokalize/rag/query_engine.py:41-94 | the id check, the retrieval call and the appending filter loop together compute exactly `KnowledgeBaseQuery` |
| `QueryEngine.Block` | src/lokalize/rag/query_engine.py:113-114 | a block starts with `Source: `, which is followed by the source (`Unknown` when absent) and then a newline and `Content: `; it ends with a newline, `Content: ` and the text (empty when absent); its length is exactly the sum of the label, source, newline-and-label and text lengths, so the two `Content: ` labels are the same one and nothing else is in the block |
| `QueryEngine.ContextText` | src/lokalize/rag/query_engine.py:112-116 | the context is empty for no documents; otherwise it starts with the first document's block and ends with the last document's block; every document's block occurs in it |
| `QueryEngine.ContextTextLayout` | src/lokalize/rag/query_engine.py:112-116 | the context is empty for no documents and one block for one document; each further document adds a blank line and its block, in document order |
| `QueryEngine.Prompt` | src/lokalize/rag/query_engine.py:119-138 | the region appears inside the opening sentence, right after "deep knowledge of "; the prompt contains the context text and the query |
| `QueryEngine.GenerateCulturallyAwareResponse` | src/lokalize/rag/query_engine.py:96-168 | the outcome, an answer or an exception, is the model's outcome for a prompt that names the region right after "deep knowledge of " and holds both the context text of the documents and the query |
| `QueryEngine.QueryAndGenerate` | src/lokalize/rag/query_engine.py:170-206 | a failing retrieval or generation propagates its exception; success echoes the query and region, returns as `retrieved_docs` the results filtered at the default threshold 0.7, reports `num_docs_used` equal to their number, and returns the model's text for the prompt built from those documents |
| `Localization.QueryEngineOf` | src/lokalize/rag/__init__.py:59-66 | a query engine exists if and only if the knowledge-base id is truthy; it carries that id and the orchestrator's own retrieval and generation calls, which stand for the region and model id passed to the client |
| `Localization.DefaultRequest` | src/lokalize/rag/__init__.py:15-22 | a request built from the query alone has region "Saudi Arabia" and no context, so its enhanced query is the query followed by ` \| Target region: Saudi Arabia` |
| `Localization.Segments` | src/lokalize/rag/__init__.py:150-161 | the segments are the query first and the region segment last; there are 2 of them plus one per truthy context field; the brand, product and campaign segments follow in that fixed order |
| `Localization.EnhancedQuery` | src/lokalize/rag/__init__.py:148-163 | the enhanced query starts with the query and ends with `Target region: ` followed by the region; when no field holds a bar, splitting it on `" \| "` gives back exactly the segments |
| `Localization.EnhancedQuerySegmentCount` | src/lokalize/rag/__init__.py:150-163 | a bar-free enhanced query splits into 2 plus the number of truthy context fields segments, and the first one is the query |
| `Localization.EnhancedQueryWithBrand` | src/lokalize/rag/__init__.py:150-163 | a query with only a brand context gives the query, `Brand context: ` with the brand, and `Target region: ` with the region, joined by `" \| "` |
| `Localization.ParseResponse` | src/lokalize/rag/__init__.py:165-187 | query and region are copied; the advice is the generated text (default empty); the insight list is the one fixed note when "cultural" occurs in the lowercased advice and is empty otherwise; the recommendation list follows the same rule for "recommend"; sources are `num_docs_used` (default 0); confidence is 0.8 |
| `Localization.CulturalNoteIgnoresCase` | src/lokalize/rag/__init__.py:173-174 | a "Cultural" or "CULTURAL" anywhere in the advice sets the insight note |
| `Localization.GetLocalizationAdvice` | src/lokalize/rag/__init__.py:102-146 | it always answers and always echoes query and region; with no engine it returns the fixed not-configured advice, empty lists, 0 sources and confidence 0.0; a raising pipeline gives `Error generating advice: ` plus the exception text with the same empty shape; success gives exactly `_parse_response` of the pipeline's result: the generated advice, the number of retrieved documents as sources, the keyword notes for "cultural" and "recommend" in the lowercased advice, and confidence 0.8; confidence is always 0.0 or 0.8; confidence 0.0 always comes with empty lists and 0 sources; each list holds at most one note |
| `Localization.AdviceFromRetrievedDocuments` | src/lokalize/rag/__init__.py:123-134 | with a knowledge base configured and retrieval answering, the sources reported are the retrieved results at or above 0.7 for the enhanced query, and the advice is the model's answer to the prompt built from them; if generation raises, the answer is the degraded error response |
| `Localization.UpdateKnowledgeBase` | src/lokalize/rag/__init__.py:69-100 | the status is "failed" if and only if the scrape returned no chunks; "success" if and only if it returned some, with the chunks, their count and the URL count; "error" if and only if the scraper raised, with the exception text as message |

## Left out

- `src/lokalize/rag/web_scraper.py` is not part of this model. Page loading is HTTP plus HTML extraction, and chunking is done by LangChain's `RecursiveCharacterTextSplitter`, whose code this repository does not contain. The scraper is the abstract `scrapeAndChunk`. The chunk size 800 and overlap 100 passed to it at `src/lokalize/rag/__init__.py:57` are not modelled.
- The boto3 client construction and its possible exception (`query_engine.py:33-39`) are not modelled. Neither are the JSON request bodies of `retrieve` and `invoke_model` or the parsing of the model's reply body. `retrieve` receives the id, the query and the number of results. `invokeModel` receives the prompt and returns the first text field.
- The `HYBRID` search mode and the 1000-token output cap are request-body constants that nothing in the model depends on.
- The prompt's wording is kept as string constants, but only the embedding of region, context and query is proved.
- Logging, the `__main__` demo blocks, `quick_fashion_query`, `quick_localization_advice` and `setup_demo_knowledge_base` are left out. They are demo wrappers that build real clients.
- `tests/test_rag.py` is left out. It checks imports, constructor field storage and a subprocess demo.
- Scores and confidences are `real` and are only compared. Floating-point rounding is not modelled.
- `Strings.Lower`: lowercases ASCII letters only, because Python's Unicode case mapping is outside Dafny's `char` model.
- A `score` key that is present but holds `null` would raise a `TypeError` in the comparison. The model only distinguishes a present score from an absent one.
- A `retrievalResults`, `metadata` or `content` key that is present but holds `null` makes the source raise (`TypeError` at `query_engine.py:75`, `AttributeError` at `query_engine.py:113-114`). The model has no null: such a key behaves like an absent one, giving no results, or the default source or text.
- A document whose `metadata` or `content` key is missing and one whose inner key is missing both show up as an absent `source` or `text`.
- `Localization.GetLocalizationAdvice`: the exceptions it catches can only come from the pipeline. In the model's typed records, neither query enhancement nor response parsing can raise.
- `Localization.EnhancedQuery`: the split round trip is stated only for fields without a `|`. A field that itself contains `" | "` makes the segment boundaries ambiguous.
- Dafny has no default arguments. The dataclass defaults of `LocalizationRequest` are the function `DefaultRequest`, and the `"Saudi Arabia"` defaults of the engine's methods are left out, because every call in the core passes the region explicitly.
