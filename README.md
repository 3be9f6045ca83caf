# EchoBreaker media-suggestion pipeline, modelled in Dafny

EchoBreaker analyses a video and proposes counter-arguments, each backed by
suggested YouTube videos. This project models the deterministic core of that
pipeline and proves its contracts:

- **Per-argument selection** (`process_counter_argument` in api/main.py), in module `Pipeline`. It searches for up to three
  candidates, asks a relevance scorer about each, keeps a candidate when the
  verdict is `accept` or the score is at least 0.6, falls back to the top
  search result with score 0.5 when nothing is kept, stable-sorts by relevance
  and attaches the best two. A failing task leaves its argument as it was.
- **Candidate search** (services/search/youtube_search.py), in module `YouTubeSearch`. This covers the clickbait
  title filter, the authority score, query cleaning and the filtering loop
  with its `continue`, `break` and catch-all.
- **LLM output normalisation** (services/reasoning/generator.py), in module `Reasoning`.
  `verify_relevance` fills in defaults and falls back to a neutral accept.
  `generate_analysis` injects the URL, repairs each missing or blank
  `youtube_query`, then validates.
- **Data model** (models/analysis_result.py), in module `Models`. It has the five records and
  their Pydantic validation from a JSON object, with required fields, optional
  fields and defaults.
- **Claim extraction** (services/language/analyzer.py), in module `Language`. This covers
  fixed-size chunking and the sentence-to-claim mapping.
- **Presentation arithmetic**:
  - frontend/app.py, in module `Frontend`: the duration split, the date
    reformatting, the relevance badge and the view-count suffix.
  - app.py, in module `Dashboard`: the sentiment tally, the total video count, the
    15-claim cap and the column index.

The support modules are:
- `Wrappers`: Option and Result (`Raised(message)` stands for a Python exception).
- `Text`: Python's `strip`, `split`, `upper`, `isspace` and integer formatting.
- `PyJson`: JSON values, plus `Field`, which keeps an absent key (`.get` default applies) apart from an explicit null.

The external services are parameters of type `YouTubeSearch.Provider`, `Reasoning.Scorer` and `Language.Client`:
- the search provider, yt-dlp's `extract_info`;
- the relevance scorer, `ollama.chat` followed by `json.loads`;
- the Azure text-analytics client.

The search provider and the scorer return either data or an explicit failure. The language client returns, per chunk, either the analysed document or a per-document error; it never raises (see "## Left out"). The methods that loop in the source are written as `while` loops. Each is proved
equal to a specification function, and the properties are lemmas about
that function:
- `SearchVideos` and `ScanEntries`
- `VerifyRelevance`
- `GenerateAnalysis`
- `ScreenResults`
- `ProcessCounterArgument`
- `AttachSuggestions`
- `MineOpinions`
- `AppendClaims`
- `AnalyzeSentimentAndOpinions`
- `SentimentCounts`

Behaviour worth noting:
- **Acceptance rule.** A candidate is kept when `verdict == 'accept' or score >= 0.6` (api/main.py:101), with the score the scorer gave. At most two suggestions are attached (api/main.py:116).
- **Empty queries.** Only an empty query is skipped (api/main.py:80). A whitespace-only query is searched.
- **Failed tasks.** A task that raises leaves the argument's previous `suggested_videos` in place (api/main.py:119-120).
- **Neutral verdict reason.** The neutral verdict's reason is `Verification error: ` followed by the exception text (services/reasoning/generator.py:290).
- **Search failures.** The search never raises: any failure gives an empty list (services/search/youtube_search.py:127-129). The task's own catch-all therefore only sees failures of the relevance check and of the sort.

The results page reads the video metadata from the JSON of the API's response.
In that JSON every field of a `VideoSuggestion` is present, and a `None` value
becomes `null` (`Frontend.Serialized`). The page's `video_metadata` block
(frontend/app.py:519-544) reads a key that `AnalysisResult` does not declare. Its
duration and view-count computations are those of each video card (frontend/app.py:620-635),
modelled once; its view label only adds the word " views". Its upload-date reformatting
(frontend/app.py:540-544) is modelled as `Frontend.DateText`.

## Model

| member | source | states |
|---|---|---|
| Models.ValidateOpinion | models/analysis_result.py:4-7 | validation succeeds exactly when the three fields are strings, and the record holds them |
| Models.ValidateClaim | models/analysis_result.py:9-13 | valid exactly when text and sentiment are strings, confidence_score is a number and opinions is absent or a list of valid opinions; the record holds each value, and absent opinions give the empty list |
| Models.ClaimOpinionsDefault | models/analysis_result.py:9-13 | a claim object without opinions validates, with the empty list |
| Models.ValidateVideo | models/analysis_result.py:15-23 | valid exactly when title and url are strings and each of the six optional fields is absent, null or of its type; the record holds title and url and the value of each present optional field, and an absent optional field is None |
| Models.VideoOptionalsDefault | models/analysis_result.py:15-23 | an object with only a string title and url validates, every optional field None |
| Models.ValidateArgument | models/analysis_result.py:25-32 | valid exactly when type, title, content and youtube_query are strings, source_reference and semantic_contrast_score are absent, null or of their type, and suggested_videos is absent or a list of valid videos; the record holds each value, with the empty list and None for absent fields |
| Models.ArgumentVideosDefault | models/analysis_result.py:25-32 | an argument object with only its four strings validates, with no videos and both optional fields None |
| Models.ValidateResult | models/analysis_result.py:34-39 | valid exactly when video_url, topic_summary and overall_sentiment are strings and claims and counter_arguments are lists of valid claims and arguments; the record holds the three strings, the validated claims and one validated argument per element of counter_arguments |
| Models.VideoIgnoresUndeclaredKey | models/analysis_result.py:15-23 | a key VideoSuggestion does not declare has no effect on validation |
| Models.ArgumentIgnoresUndeclaredKey | models/analysis_result.py:25-32 | a key CounterArgument does not declare has no effect on validation |
| Models.ResultIgnoresUndeclaredKey | models/analysis_result.py:34-39 | AnalysisResult has no metadata field: any undeclared key is ignored |
| Models.ResultNeedsEveryField | models/analysis_result.py:34-39 | dropping any one of the five fields makes validation fail |
| YouTubeSearch.IsQualityTitle | services/search/youtube_search.py:11-33 | the title filter; its rules are stated by QualityTitleRules, CapsRule and QualityTitleCapsBound |
| YouTubeSearch.CapsRule | services/search/youtube_search.py:29-31 | titles of at most ten characters never fail the caps rule; longer ones fail exactly when more than 7 in 10 characters are upper case |
| YouTubeSearch.QualityTitleRules | services/search/youtube_search.py:11-33 | the empty title, a clickbait phrase in the upper-cased title, more than three emoji, and a caps ratio above 0.7 on a title longer than ten characters each reject it |
| YouTubeSearch.QualityTitleCapsBound | services/search/youtube_search.py:29-31 | an accepted title is short or has a caps ratio of at most 0.7 |
| YouTubeSearch.AuthorityScore | services/search/youtube_search.py:35-50 | the score lies in [0.5, 1.0] |
| YouTubeSearch.AuthorityScoreCases | services/search/youtube_search.py:35-50 | the score is 1.0, 0.8, 0.7 or 0.5, each exactly when its combination of category boost and channel boost applies |
| YouTubeSearch.CleanQuery | services/search/youtube_search.py:58 | the query with quotes, backslashes and spaces stripped from both ends; its properties are stated by CleanQueryProperties |
| YouTubeSearch.CleanQueryProperties | services/search/youtube_search.py:58 | the cleaned query is an infix of the query, starting after the stripped leading characters, with no quote, backslash or space at either end, and cleaning again changes nothing |
| YouTubeSearch.Truncate | services/search/youtube_search.py:104 | the description is a prefix of at most 500 characters, the whole of it when it is short enough |
| YouTubeSearch.EntryStep | services/search/youtube_search.py:89-118 | a kept entry is a non-falsy entry whose title is present, and the result carries that title |
| YouTubeSearch.EntryStepKeeps | services/search/youtube_search.py:93-118 | a kept result passes the title filter, is scored by the entry's authority and has a description of at most 500 characters |
| YouTubeSearch.ScanKeepsFirstCandidates | services/search/youtube_search.py:88-122 | the loop keeps the first candidates in provider order, at most the limit, and all of them unless it stopped at the limit |
| YouTubeSearch.CandidatesWellFormed | services/search/youtube_search.py:89-118 | every candidate is well formed and made from one of the entries |
| YouTubeSearch.CandidateScored | services/search/youtube_search.py:106-118 | each candidate carries the authority score of the entry it came from |
| YouTubeSearch.SearchResults | services/search/youtube_search.py:52-129 | the specified search: the cleaned query, the loop over the provider's entries, and the empty list on any failure; its properties are stated by SearchResultsProperties and SearchFailuresGiveEmpty |
| YouTubeSearch.SearchResultsProperties | services/search/youtube_search.py:80-125 | at most `limit` results, each well formed, a prefix of the candidates in provider order, each scored by its entry's authority |
| YouTubeSearch.SearchFailuresGiveEmpty | services/search/youtube_search.py:84-129 | a provider failure or an entry that raises before the loop stops gives the empty list |
| YouTubeSearch.ScanSettled | services/search/youtube_search.py:120-122 | after a break or an exception the remaining entries change nothing |
| YouTubeSearch.ScanStep | services/search/youtube_search.py:89-122 | one more entry on a running loop is skipped, raises, or appends its candidate |
| YouTubeSearch.RaiseSettles | services/search/youtube_search.py:89-129 | an entry that raises while the loop runs makes the whole loop raise |
| YouTubeSearch.ScanEntries | services/search/youtube_search.py:88-122 | the entry loop computes exactly the specified scan, including its break and its exception |
| YouTubeSearch.SearchVideos | services/search/youtube_search.py:52-129 | the loop asks for `limit * 2` entries of the cleaned query and computes exactly the specified results |
| Reasoning.PromptDescription | services/reasoning/generator.py:239 | the scorer sees "N/A" for an empty description, otherwise its first 300 characters |
| Reasoning.Verdict | services/reasoning/generator.py:275-292 | the specified post-processing of the scorer's reply; its properties are stated by VerdictOnFailure, VerdictDefaults and VerdictOnScalar |
| Reasoning.VerdictOnFailure | services/reasoning/generator.py:285-292 | a failed call or parse gives score 0.65, verdict accept and a reason prefixed "Verification error: " |
| Reasoning.VerdictDefaults | services/reasoning/generator.py:275-283 | present keys unchanged; a missing score becomes 0.5; a missing verdict is accept exactly when the score is at least 0.7; a missing reason is the default; fallback exactly when a missing verdict meets a non-numeric score |
| Reasoning.VerdictOnScalar | services/reasoning/generator.py:276-292 | a reply that is a number, a boolean or null makes the key test raise, giving the neutral verdict |
| Reasoning.VerifyRelevance | services/reasoning/generator.py:221-292 | the result is the scorer's reply with its defaults filled in, or the neutral verdict |
| Reasoning.TitleKeywords | services/reasoning/generator.py:173 | at most four whitespace-free words, and at least one when the title has any |
| Reasoning.DefaultQuery | services/reasoning/generator.py:170-176 | the default query; its properties are stated by DefaultQueryNotBlank, DefaultQueryWithKeywords and DefaultQueryEndsWithSuffix |
| Reasoning.DefaultQueryNotBlank | services/reasoning/generator.py:176-179 | the repaired query is never blank, so the second default is unreachable |
| Reasoning.DefaultQueryWithKeywords | services/reasoning/generator.py:170-176 | with a word in the title the query is the keywords, the type and the suffix joined by spaces, unstripped |
| Reasoning.DefaultQueryEndsWithSuffix | services/reasoning/generator.py:176 | every repaired query ends with "perspective research analysis" |
| Reasoning.RepairArgument | services/reasoning/generator.py:159-180 | one iteration of the repair loop; its properties are stated by RepairArgumentProperties |
| Reasoning.RepairAll | services/reasoning/generator.py:157-180 | the whole repair loop; its properties are stated by RepairAllProperties and RepairAllRaises |
| Reasoning.RepairArgumentProperties | services/reasoning/generator.py:159-180 | a repaired argument has a usable query built from its title and type and every other key unchanged; one needing no fix is untouched |
| Reasoning.WithQueryProperties | services/reasoning/generator.py:180 | setting a non-blank query leaves a usable query and every other key as it was |
| Reasoning.RepairAllProperties | services/reasoning/generator.py:158-180 | the loop repairs each argument in place, in order, one for one |
| Reasoning.RepairAllRaises | services/reasoning/generator.py:157-219 | an exception inside the loop is the outcome of the whole loop |
| Reasoning.GenerateAnalysis | services/reasoning/generator.py:131-219 | the method computes the specified analysis: URL injected, arguments repaired, result validated, or the exception re-raised |
| Reasoning.Analysis | services/reasoning/generator.py:131-219 | the specified generate_analysis after the reply; its properties are stated by AnalysisKeepsCallerUrl and AnalysisQueriesNotBlank |
| Reasoning.AnalysisKeepsCallerUrl | services/reasoning/generator.py:144-145 | the result's video_url is always the caller's |
| Reasoning.AnalysisQueriesNotBlank | services/reasoning/generator.py:157-203 | every argument of a successful analysis has a non-blank query |
| Pipeline.KeepRule | api/main.py:97-103 | with a numeric or missing score, read as 0.5, a result is kept exactly when the verdict is accept or the score is at least 0.6, with that score; with neither key it is dropped |
| Pipeline.NeutralVerdictKept | api/main.py:97-103 | the neutral verdict is always kept, with score 0.65 |
| Pipeline.MissingVerdictKeptFromKeepScore | api/main.py:97-101 | with the verdict left out, the effective threshold is 0.6, not the 0.7 of the derived verdict |
| Pipeline.ScreenOkIff | api/main.py:88-103 | the loop completes exactly when no check leads to an exception |
| Pipeline.ScreenKeptFrom | api/main.py:88-103 | each kept video is a search result with only its score replaced by its check's, and there are no more than the results |
| Pipeline.KeptIndicesPositions | api/main.py:89-103 | the positions the loop keeps are strictly increasing, each one's check keeps it, and every result its check keeps is among them |
| Pipeline.ScreenRescoredAt | api/main.py:89-103 | kept video k is the result at the k-th kept position with its check's score |
| Pipeline.ScreenSelects | api/main.py:88-103 | a completed loop keeps exactly the results its checks keep, in search order, each rescored by its check |
| Pipeline.ScreenKeepsAll | api/main.py:88-103 | when every check keeps its result, all results are kept in order with their new scores |
| Pipeline.FailingScorerKeepsAll | api/main.py:89-103 | with a scorer that always fails, every result is kept with score 0.65 |
| Pipeline.ScreenSettled | api/main.py:89-120 | an exception part-way through ends the whole loop |
| Pipeline.Decide | api/main.py:97-101 | a result whose verdict is not accept is kept only with a score of at least 0.6, and dropped only when it is a dict whose verdict is not accept |
| Pipeline.Screen | api/main.py:88-103 | the loop never keeps more results than it was given (its order and selection: ScreenSelects) |
| Pipeline.ScreenStep | api/main.py:89-103 | one more result raises, is dropped or is appended with its check's score |
| Pipeline.Pool | api/main.py:108-112 | kept results are used as they are; the pool is empty only when there were no results at all; the fallback adds one video |
| Pipeline.InsertByKeyStable | api/main.py:115 | inserting into a sorted list keeps equal-key elements in their order |
| Pipeline.SortDescProperties | api/main.py:115 | the sort is descending by score (None as 0), a permutation, and stable |
| Pipeline.SortDesc | api/main.py:115 | the sort keeps the length (its order, permutation and stability: SortDescProperties) |
| Pipeline.Top | api/main.py:116 | the first min(2, n) elements, in order |
| Pipeline.WithKeyTake | api/main.py:116 | cutting a list keeps, for each score, a prefix of the videos with that score |
| Pipeline.TopKeepsTies | api/main.py:115-116 | among videos with equal scores, the two attached are the first of them in pool order |
| Pipeline.TopIsBest | api/main.py:116 | the first two of a sorted list are sorted and outrank everything left out |
| Pipeline.BestTwo | api/main.py:115-116 | at most two, non-empty exactly when the pool is, sorted, a sub-multiset of the pool and none outranked by a left-out element |
| Pipeline.Suggestions | api/main.py:79-81 | the task is skipped exactly when the query is empty |
| Pipeline.PickProperties | api/main.py:105-116 | from screened results: at most two videos; at least one exactly when there were results; sorted and the best of the pool; kept ones come from the results, rescored; otherwise the first result with score 0.5; the kept list is the results the checks keep, in search order; videos with equal scores keep their order in the pool |
| Pipeline.SuggestionsProperties | api/main.py:86-116 | at most two videos; at least one exactly when the search found any; sorted and the best of the pool; kept ones come from the search, rescored; otherwise the first search result with score 0.5 |
| Pipeline.ScreenResults | api/main.py:88-103 | the relevance loop computes exactly the specified screening, including the exception that ends it |
| Pipeline.ProcessCounterArgument | api/main.py:78-120 | the loop computes exactly the specified outcome of one argument's task |
| Pipeline.AttachAll | api/main.py:122-124 | as many arguments come back as went in |
| Pipeline.AttachAllPointwise | api/main.py:122-124 | argument i comes back with its own task's outcome attached, independently of the others |
| Pipeline.AttachSuggestions | api/main.py:122-124 | running the tasks one after another gives exactly the specified result for all arguments |
| Pipeline.AttachIsolated | api/main.py:78-124 | a skipped or failed argument is unchanged; otherwise only its suggested videos are replaced, by at most two |
| Pipeline.GeneratedArgumentsAreSearched | api/main.py:79-81 | arguments from generate_analysis always have a query, so none is skipped |
| Language.Chunks | services/language/analyzer.py:28-29 | fixed-size chunking; its properties are stated by ChunksConcat, ChunksSizes and ChunksCount |
| Language.ChunksConcat | services/language/analyzer.py:28-29 | the chunks joined are the text |
| Language.ChunksSizes | services/language/analyzer.py:28-29 | every chunk is non-empty and at most the chunk size; all but the last are exactly that size |
| Language.ChunksCount | services/language/analyzer.py:28-29 | there are ceil(len / 5000) chunks |
| Language.OpinionOf | services/language/analyzer.py:52-56 | an opinion without assessments becomes ("N/A", "neutral"); otherwise it takes the first assessment |
| Language.Confidence | services/language/analyzer.py:63 | the confidence of a sentence's own label, none for an unknown label; used by ClaimsFromIsFilterMap |
| Language.ClaimsFrom | services/language/analyzer.py:58-66 | the sentence loop; its properties are stated by ClaimsFromIsFilterMap and ClaimsFromRaisedPrefix |
| Language.ClaimsFromIsFilterMap | services/language/analyzer.py:58-66 | the claims are the sentences with opinions or a non-neutral sentiment, in order, each with its own label's confidence; the loop raises exactly when such a sentence has an unknown label |
| Language.AllSentencesConcat | services/language/analyzer.py:35-46 | the sentences of consecutive chunks come in chunk order, one run of chunks after the other |
| Language.ClaimsFromRaisedPrefix | services/language/analyzer.py:63 | once one claim raises, the later sentences change nothing |
| Language.Analysis | services/language/analyzer.py:15-68 | the specified claim extraction; its properties are stated by EmptyTextHasNoClaims and ClaimsFromIsFilterMap |
| Language.EmptyTextHasNoClaims | services/language/analyzer.py:19-20 | empty text gives no claims, and the early return agrees with the loop |
| Language.MineOpinions | services/language/analyzer.py:50-56 | the inner loop maps every mined opinion in order |
| Language.AppendClaims | services/language/analyzer.py:49-66 | the sentence loop continues the claims of the sentences before it |
| Language.AnalyzeSentimentAndOpinions | services/language/analyzer.py:15-68 | the method computes exactly the specified claims or the exception |
| Frontend.DurationParts | frontend/app.py:622-623 | hours·3600 + minutes·60 + seconds is the duration, with minutes and seconds below 60 |
| Frontend.DurationText | frontend/app.py:620-626 | a missing or zero duration, and only that, renders as "N/A"; the clock forms are stated by DurationRoundTrip and DurationShape |
| Frontend.ClockText | frontend/app.py:622-624 | a clock reading is never "N/A" |
| Frontend.ClockIsNotPlaceholder | frontend/app.py:624-626 | a clock reading, which holds a colon, is never "N/A" |
| Frontend.DurationRoundTrip | frontend/app.py:620-626 | reading the rendered duration back gives every positive duration |
| Frontend.DurationShape | frontend/app.py:624 | the h:mm:ss form appears exactly when the duration is at least an hour |
| Frontend.DateText | frontend/app.py:540-544 | an eight-character date gets dashes at 4 and 7, and removing them recovers it; anything else is "N/A" |
| Frontend.BadgeFor | frontend/app.py:611-617 | the three-tier badge; its properties are stated by BadgeTiers and BadgeMonotone |
| Frontend.BadgeTiers | frontend/app.py:611-617 | the tiers partition the scores at 0.85 and 0.7 |
| Frontend.BadgeMonotone | frontend/app.py:611-617 | a higher score never gets a lower badge |
| Frontend.BadgeOf | frontend/app.py:611 | an absent score is moderate, and a null one raises |
| Frontend.PipelineDefaultsAreModerate | frontend/app.py:611-617 | the pipeline's own scores 0.5 and 0.65 show as moderate |
| Frontend.ViewsLabelFor | frontend/app.py:629-635 | millions from 1,000,000, thousands from 1000, the plain number below |
| Frontend.ViewsAsWritten | frontend/app.py:629-635 | the view label as written; UnknownViewCountRaises states that a null count raises |
| Frontend.UnknownViewCountRaises | frontend/app.py:629-630 | a video with an unknown view count makes its card raise |
| Frontend.NullViewCountReachesPage | services/search/youtube_search.py:103 | a kept entry with a null view count reaches the page as a card that raises |
| Frontend.Views | frontend/app.py:629-635 | corrected: a null view count shows as 0, and it agrees with the source wherever that does not raise |
| Frontend.ViewsAlwaysRender | frontend/app.py:629-635 | with the correction every video's view count renders |
| Dashboard.TotalVideos | app.py:379 | the total as written; its properties are stated by TotalVideosAdditive and TotalOfResponse |
| Dashboard.LengthSumSnoc | app.py:379 | the reference sum splits off its last list |
| Dashboard.TotalVideosDefaults | app.py:379 | the total raises exactly when some list is null; otherwise it is the sum of the present lists' lengths, an absent list counting 0 |
| Dashboard.TotalVideosAdditive | app.py:379 | the total splits over any division of the arguments |
| Dashboard.TotalOfResponse | app.py:379 | the total is the sum of the suggested-video list lengths |
| Dashboard.TotalAfterPipeline | app.py:379 | when every argument's task completes, there are at most two videos per argument |
| Dashboard.TallyStep | app.py:392-394 | one more key is appended to the keys when new, and its count goes up by one |
| Dashboard.SentimentCounts | app.py:391-394 | the loop builds the tally: keys without duplicates in first-occurrence order, exactly the sentiments that occur, each counted, the counts adding up to the number of claims |
| Dashboard.Tally | app.py:391-394 | the dict the tally loop builds; its properties are stated by TallyProperties |
| Dashboard.TallyProperties | app.py:391-394 | the tally holds exactly the keys that occur, counts each occurrence, and sums to the number of items |
| Dashboard.SentimentKeyCounts | app.py:392-394 | each sentiment is counted under its value, claims without one under "neutral" too, and null ones under None |
| Dashboard.FirstOccurrencesProperties | app.py:391-397 | the chart's labels are the occurring sentiments, each once |
| Dashboard.OccurrencesPositive | app.py:391-394 | a sentiment has a positive count exactly when it occurs |
| Dashboard.ResponseHasNoNullSlice | app.py:393 | each claim of a response is counted under its own sentiment, and none under None |
| Dashboard.Numbered | app.py:425 | at most 15 claims are listed, the first ones, numbered from 1 |
| Dashboard.ColumnOf | app.py:471 | the column of a video; its property is stated by ColumnsFit |
| Dashboard.ColumnsFit | app.py:469-471 | every video's column index is below min(n, 3), and every column gets a video |

## Left out

- Concurrency: `asyncio.gather` and the thread pool are modelled as a sequential loop (`Pipeline.AttachSuggestions`). Each task touches only its own argument, so the order does not matter. Timeouts are not modelled.
- In-place mutation: the source changes each search result's `relevance_score` and each argument's `suggested_videos` in place. The model replaces them with updated values. Aliasing between the fallback video and the raw list is not observable afterwards, so it is not modelled.
- I/O and foreign calls are parameters or left out: yt-dlp, Ollama, `json.loads`, Azure, Whisper, downloading, transcription, the HTTP endpoint, temp-file cleanup and all Streamlit rendering. The prompt texts are free text and are not modelled; only the 300-character description cut is.
- The search provider and the relevance scorer are modelled as deterministic functions, so equal inputs always get equal replies; a real LLM call does not promise this. No stated property depends on it.
- Debug logging (`_log` and `print`) is I/O. The argument expressions of the debug `_log` calls in generate_analysis (services/reasoning/generator.py:134, 141-155) can only raise on input that validation rejects anyway, so the outcome is the same.
- Exception messages (`TypeError`, `AttributeError`, `ValidationError`) are placeholders; Python's wording is not modelled.
- Float formatting (`:.1f`, `*100:.0f`) is not modelled; the view label keeps the tier and the number.
- Case mapping and `isupper` are ASCII only; the Unicode tables are not modelled.
- Pydantic coercions are not modelled: no string-to-number conversion, and no bool-to-int. Validation is by JSON type.
- Pipeline.Decide: when the verdict is `accept` and the score is neither a number nor null, the source stores that value and fails only later, when the sort compares it with another key. The model fails the task at once. It differs from the source when that video ends up alone in the list, or when its score is a falsy value that the sort key reads as 0.
- Reasoning.TypeForQuery: a non-string `type` in an argument that needs a query is refused. Python would format it with `str`, but validation of `type: str` then fails anyway.
- api/main.py imports `VideoMetadata` (api/main.py:7), which models/analysis_result.py does not define, and calls `download_audio_with_metadata`, which services/youtube/downloader.py lacks. The endpoint glue is not modelled.
- The language client (`Language.Client`) never raises. A transport or HTTP error raised by `client.analyze_sentiment` (services/language/analyzer.py:36) would propagate out of analyze_sentiment_and_opinions; that path is not modelled. Only the per-document `is_error` result (services/language/analyzer.py:44-46) is.
- services/language/analyzer.py uses `List` without importing it (line 15), so the module fails on import. The logic is modelled as if the import were there.
- frontend/minimal_app.py's two-tier badge is not modelled; it is subsumed by the three tiers of frontend/app.py.
- Frontend.BadgeOf: a null relevance score raises, as written. The pipeline always assigns a number except when the scorer accepts with a null score.

## Findings

| source | as written | input that shows it | evidently intended | confidence | as-written member | corrected member |
|---|---|---|---|---|---|---|
| frontend/app.py:629-630 | `video.get('view_count', 0)` defaults only an absent key; a null view count reaches `views >= 1000000` | a search entry whose `view_count` is null: the search keeps it as None, the API serialises it as null, and the comparison raises TypeError | an unknown view count shown as 0 | medium, not executed | Frontend.ViewsAsWritten (Frontend.UnknownViewCountRaises, Frontend.NullViewCountReachesPage) | Frontend.Views (Frontend.ViewsAlwaysRender) |
