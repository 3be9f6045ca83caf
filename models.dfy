/**
  The record types of models/analysis_result.py and the way Pydantic builds
  them from parsed JSON: required fields must be present with a value of the
  declared type, optional fields default to None, list fields with a default
  default to the empty list, and keys the model does not declare are ignored.
*/
module Models {
  import opened Wrappers
  import opened PyJson

  datatype MinedOpinion = MinedOpinion(target: string, assessment: string, sentiment: string)

  datatype ExtractedClaim = ExtractedClaim(
    text: string,
    sentiment: string,
    confidenceScore: real,
    opinions: seq<MinedOpinion>)

  datatype VideoSuggestion = VideoSuggestion(
    title: string,
    url: string,
    thumbnail: Option<string>,
    duration: Option<int>,          // seconds
    channelName: Option<string>,
    viewCount: Option<int>,
    relevanceScore: Option<real>,
    description: Option<string>)

  /** `type` is a Dafny keyword, so the argument's type is called `kind`. */
  datatype CounterArgument = CounterArgument(
    kind: string,
    title: string,
    content: string,
    sourceReference: Option<string>,
    youtubeQuery: string,
    suggestedVideos: seq<VideoSuggestion>,
    semanticContrastScore: Option<real>)

  datatype AnalysisResult = AnalysisResult(
    videoUrl: string,
    topicSummary: string,
    overallSentiment: string,
    claims: seq<ExtractedClaim>,
    counterArguments: seq<CounterArgument>)

  // ---------------------------------------------------------------------------
  // Field readers.  The outer Option is the validation outcome (None: Pydantic
  // raises a ValidationError); the inner one is the Python value of the field.
  // ---------------------------------------------------------------------------

  /** A required `str` field. */
  function ReqStr(m: map<string, Json>, k: string): (r: Option<string>)
    ensures r.Some? <==> k in m && m[k].JStr?
    ensures r.Some? ==> r.value == m[k].s
  {
    if k in m && m[k].JStr? then Some(m[k].s) else None
  }

  /** A required `float` field (a JSON integer is accepted as well). */
  function ReqReal(m: map<string, Json>, k: string): (r: Option<real>)
    ensures r.Some? <==> k in m && (m[k].JInt? || m[k].JReal?)
    ensures r.Some? ==> r.value == (if m[k].JInt? then m[k].i as real else m[k].r)
  {
    if k in m && m[k].JInt? then Some(m[k].i as real)
    else if k in m && m[k].JReal? then Some(m[k].r)
    else None
  }

  /** An `Optional[str] = None` field. */
  function OptStr(m: map<string, Json>, k: string): (r: Option<Option<string>>)
    ensures r.Some? <==> k !in m || m[k].JNull? || m[k].JStr?
    ensures r.Some? && (k !in m || m[k].JNull?) ==> r.value.None?
    ensures r.Some? && k in m && m[k].JStr? ==> r.value == Some(m[k].s)
  {
    if k !in m || m[k].JNull? then Some(None)
    else if m[k].JStr? then Some(Some(m[k].s))
    else None
  }

  /** An `Optional[int] = None` field. */
  function OptInt(m: map<string, Json>, k: string): (r: Option<Option<int>>)
    ensures r.Some? <==> k !in m || m[k].JNull? || m[k].JInt?
    ensures r.Some? && (k !in m || m[k].JNull?) ==> r.value.None?
    ensures r.Some? && k in m && m[k].JInt? ==> r.value == Some(m[k].i)
  {
    if k !in m || m[k].JNull? then Some(None)
    else if m[k].JInt? then Some(Some(m[k].i))
    else None
  }

  /** An `Optional[float] = None` field. */
  function OptReal(m: map<string, Json>, k: string): (r: Option<Option<real>>)
    ensures r.Some? <==> k !in m || m[k].JNull? || m[k].JInt? || m[k].JReal?
    ensures r.Some? && (k !in m || m[k].JNull?) ==> r.value.None?
    ensures r.Some? && k in m && m[k].JInt? ==> r.value == Some(m[k].i as real)
    ensures r.Some? && k in m && m[k].JReal? ==> r.value == Some(m[k].r)
  {
    if k !in m || m[k].JNull? then Some(None)
    else if m[k].JInt? then Some(Some(m[k].i as real))
    else if m[k].JReal? then Some(Some(m[k].r))
    else None
  }

  /** A `List[...]` field; `defaulted` says whether it is declared `= []`. */
  function ListItems(m: map<string, Json>, k: string, defaulted: bool): (r: Option<seq<Json>>)
    ensures r.Some? <==> (k in m && m[k].JArr?) || (defaulted && k !in m)
    ensures r.Some? && k !in m ==> r.value == []
    ensures r.Some? && k in m ==> r.value == m[k].items
  {
    if k in m && m[k].JArr? then Some(m[k].items)
    else if defaulted && k !in m then Some([])
    else None
  }

  /** Validates every element of a list field with the element type's validator. */
  function ValidateEach<T>(xs: seq<Json>, f: Json -> Option<T>): (r: Option<seq<T>>)
    ensures r.Some? <==> forall i :: 0 <= i < |xs| ==> f(xs[i]).Some?
    ensures r.Some? ==> |r.value| == |xs| && forall i :: 0 <= i < |xs| ==> r.value[i] == f(xs[i]).value
  {
    if xs == [] then Some([])
    else
      match (f(xs[0]), ValidateEach(xs[1..], f))
      case (Some(x), Some(rest)) => Some([x] + rest)
      case _ =>
        assert forall i :: 1 <= i < |xs| ==> xs[i] == xs[1..][i - 1];
        None
  }

  // ---------------------------------------------------------------------------
  // The models.
  // ---------------------------------------------------------------------------

  const OpinionFields: set<string> := {"target", "assessment", "sentiment"}
  const ClaimFields: set<string> := {"text", "sentiment", "confidence_score", "opinions"}
  const VideoFields: set<string> :=
    {"title", "url", "thumbnail", "duration", "channel_name", "view_count", "relevance_score", "description"}
  const ArgumentFields: set<string> :=
    {"type", "title", "content", "source_reference", "youtube_query", "suggested_videos", "semantic_contrast_score"}
  const ResultFields: set<string> :=
    {"video_url", "topic_summary", "overall_sentiment", "claims", "counter_arguments"}

  /** `MinedOpinion(**j)`: three required strings. */
  function ValidateOpinion(j: Json): (r: Option<MinedOpinion>)
    ensures r.Some? <==> j.JObj? && ReqStr(j.fields, "target").Some?
                         && ReqStr(j.fields, "assessment").Some? && ReqStr(j.fields, "sentiment").Some?
    ensures r.Some? ==> r.value == MinedOpinion(j.fields["target"].s, j.fields["assessment"].s, j.fields["sentiment"].s)
  {
    if !j.JObj? then None
    else
      var target :- ReqStr(j.fields, "target");
      var assessment :- ReqStr(j.fields, "assessment");
      var sentiment :- ReqStr(j.fields, "sentiment");
      Some(MinedOpinion(target, assessment, sentiment))
  }

  /** `ExtractedClaim(**j)`: `opinions` defaults to the empty list. */
  function ValidateClaim(j: Json): (r: Option<ExtractedClaim>)
    ensures r.Some? <==>
      && j.JObj?
      && ReqStr(j.fields, "text").Some? && ReqStr(j.fields, "sentiment").Some?
      && ReqReal(j.fields, "confidence_score").Some? && ListItems(j.fields, "opinions", true).Some?
      && ValidateEach(ListItems(j.fields, "opinions", true).value, ValidateOpinion).Some?
    ensures r.Some? ==> r.value.text == j.fields["text"].s && r.value.sentiment == j.fields["sentiment"].s
    ensures r.Some? ==> r.value.confidenceScore == ReqReal(j.fields, "confidence_score").value
    ensures r.Some? ==> r.value.opinions == ValidateEach(ListItems(j.fields, "opinions", true).value, ValidateOpinion).value
    ensures r.Some? && "opinions" !in j.fields ==> r.value.opinions == []
  {
    if !j.JObj? then None
    else
      var text :- ReqStr(j.fields, "text");
      var sentiment :- ReqStr(j.fields, "sentiment");
      var confidence :- ReqReal(j.fields, "confidence_score");
      var items :- ListItems(j.fields, "opinions", true);
      var opinions :- ValidateEach(items, ValidateOpinion);
      Some(ExtractedClaim(text, sentiment, confidence, opinions))
  }

  /** `VideoSuggestion(**j)`: `title` and `url` are required, the other six fields default to None. */
  function ValidateVideo(j: Json): (r: Option<VideoSuggestion>)
    ensures r.Some? <==>
      && j.JObj?
      && ReqStr(j.fields, "title").Some? && ReqStr(j.fields, "url").Some?
      && OptStr(j.fields, "thumbnail").Some? && OptInt(j.fields, "duration").Some?
      && OptStr(j.fields, "channel_name").Some? && OptInt(j.fields, "view_count").Some?
      && OptReal(j.fields, "relevance_score").Some? && OptStr(j.fields, "description").Some?
    ensures r.Some? ==> r.value.title == j.fields["title"].s && r.value.url == j.fields["url"].s
    ensures r.Some? ==>
      && ("thumbnail" !in j.fields ==> r.value.thumbnail.None?)
      && ("duration" !in j.fields ==> r.value.duration.None?)
      && ("channel_name" !in j.fields ==> r.value.channelName.None?)
      && ("view_count" !in j.fields ==> r.value.viewCount.None?)
      && ("relevance_score" !in j.fields ==> r.value.relevanceScore.None?)
      && ("description" !in j.fields ==> r.value.description.None?)
    ensures r.Some? ==>
      && r.value.thumbnail == OptStr(j.fields, "thumbnail").value
      && r.value.duration == OptInt(j.fields, "duration").value
      && r.value.channelName == OptStr(j.fields, "channel_name").value
      && r.value.viewCount == OptInt(j.fields, "view_count").value
      && r.value.relevanceScore == OptReal(j.fields, "relevance_score").value
      && r.value.description == OptStr(j.fields, "description").value
  {
    if !j.JObj? then None
    else
      var m := j.fields;
      var title :- ReqStr(m, "title");
      var url :- ReqStr(m, "url");
      var thumbnail :- OptStr(m, "thumbnail");
      var duration :- OptInt(m, "duration");
      var channel :- OptStr(m, "channel_name");
      var views :- OptInt(m, "view_count");
      var score :- OptReal(m, "relevance_score");
      var description :- OptStr(m, "description");
      Some(VideoSuggestion(title, url, thumbnail, duration, channel, views, score, description))
  }

  /**
    `CounterArgument(**j)`: `type`, `title`, `content` and `youtube_query` are
    required strings, `suggested_videos` defaults to the empty list and the
    two optional fields to None.
  */
  function ValidateArgument(j: Json): (r: Option<CounterArgument>)
    ensures r.Some? <==>
      && j.JObj?
      && ReqStr(j.fields, "type").Some? && ReqStr(j.fields, "title").Some?
      && ReqStr(j.fields, "content").Some? && OptStr(j.fields, "source_reference").Some?
      && ReqStr(j.fields, "youtube_query").Some? && ListItems(j.fields, "suggested_videos", true).Some?
      && ValidateEach(ListItems(j.fields, "suggested_videos", true).value, ValidateVideo).Some?
      && OptReal(j.fields, "semantic_contrast_score").Some?
    ensures r.Some? ==>
      && r.value.kind == j.fields["type"].s && r.value.title == j.fields["title"].s
      && r.value.content == j.fields["content"].s && r.value.youtubeQuery == j.fields["youtube_query"].s
    ensures r.Some? ==>
      && ("suggested_videos" !in j.fields ==> r.value.suggestedVideos == [])
      && ("source_reference" !in j.fields ==> r.value.sourceReference.None?)
      && ("semantic_contrast_score" !in j.fields ==> r.value.semanticContrastScore.None?)
    ensures r.Some? ==>
      && r.value.sourceReference == OptStr(j.fields, "source_reference").value
      && r.value.suggestedVideos == ValidateEach(ListItems(j.fields, "suggested_videos", true).value, ValidateVideo).value
      && r.value.semanticContrastScore == OptReal(j.fields, "semantic_contrast_score").value
  {
    if !j.JObj? then None
    else
      var m := j.fields;
      var kind :- ReqStr(m, "type");
      var title :- ReqStr(m, "title");
      var content :- ReqStr(m, "content");
      var reference :- OptStr(m, "source_reference");
      var query :- ReqStr(m, "youtube_query");
      var items :- ListItems(m, "suggested_videos", true);
      var videos :- ValidateEach(items, ValidateVideo);
      var contrast :- OptReal(m, "semantic_contrast_score");
      Some(CounterArgument(kind, title, content, reference, query, videos, contrast))
  }

  /** `AnalysisResult(**j)`: exactly five required fields, neither list has a default. */
  function ValidateResult(j: Json): (r: Option<AnalysisResult>)
    ensures r.Some? <==>
      && j.JObj?
      && ReqStr(j.fields, "video_url").Some? && ReqStr(j.fields, "topic_summary").Some?
      && ReqStr(j.fields, "overall_sentiment").Some?
      && ListItems(j.fields, "claims", false).Some?
      && ValidateEach(ListItems(j.fields, "claims", false).value, ValidateClaim).Some?
      && ListItems(j.fields, "counter_arguments", false).Some?
      && ValidateEach(ListItems(j.fields, "counter_arguments", false).value, ValidateArgument).Some?
    ensures r.Some? ==> j.JObj? && ResultFields <= j.fields.Keys
    ensures r.Some? ==>
      && r.value.videoUrl == j.fields["video_url"].s && r.value.topicSummary == j.fields["topic_summary"].s
      && r.value.overallSentiment == j.fields["overall_sentiment"].s
      && r.value.claims == ValidateEach(j.fields["claims"].items, ValidateClaim).value
    ensures r.Some? ==> j.fields["claims"].JArr? && j.fields["counter_arguments"].JArr?
    ensures r.Some? ==> |r.value.counterArguments| == |j.fields["counter_arguments"].items|
    ensures r.Some? ==> forall i :: 0 <= i < |r.value.counterArguments| ==>
                          ValidateArgument(j.fields["counter_arguments"].items[i]) == Some(r.value.counterArguments[i])
  {
    if !j.JObj? then None
    else
      var m := j.fields;
      var url :- ReqStr(m, "video_url");
      var summary :- ReqStr(m, "topic_summary");
      var sentiment :- ReqStr(m, "overall_sentiment");
      var claimItems :- ListItems(m, "claims", false);
      var claims :- ValidateEach(claimItems, ValidateClaim);
      var argumentItems :- ListItems(m, "counter_arguments", false);
      var arguments :- ValidateEach(argumentItems, ValidateArgument);
      Some(AnalysisResult(url, summary, sentiment, claims, arguments))
  }

  /** A claim with no `opinions` key is accepted, with no opinions: the list is defaulted, not required. */
  lemma ClaimOpinionsDefault(m: map<string, Json>)
    requires ReqStr(m, "text").Some? && ReqStr(m, "sentiment").Some? && ReqReal(m, "confidence_score").Some?
    requires "opinions" !in m
    ensures ValidateClaim(JObj(m)) == Some(ExtractedClaim(m["text"].s, m["sentiment"].s, ReqReal(m, "confidence_score").value, []))
  {
  }

  /** An argument with no `suggested_videos` key is accepted, with no videos: the list is defaulted, not required. */
  lemma ArgumentVideosDefault(m: map<string, Json>)
    requires ReqStr(m, "type").Some? && ReqStr(m, "title").Some? && ReqStr(m, "content").Some?
    requires ReqStr(m, "youtube_query").Some?
    requires "suggested_videos" !in m && "source_reference" !in m && "semantic_contrast_score" !in m
    ensures ValidateArgument(JObj(m)) ==
              Some(CounterArgument(m["type"].s, m["title"].s, m["content"].s, None, m["youtube_query"].s, [], None))
  {
  }

  /** A video with only its two required keys is accepted, every optional field None. */
  lemma VideoOptionalsDefault(m: map<string, Json>)
    requires ReqStr(m, "title").Some? && ReqStr(m, "url").Some?
    requires m.Keys == {"title", "url"}
    ensures ValidateVideo(JObj(m)) == Some(VideoSuggestion(m["title"].s, m["url"].s, None, None, None, None, None, None))
  {
  }

  /** A key VideoSuggestion does not declare has no effect on validation. */
  lemma VideoIgnoresUndeclaredKey(m: map<string, Json>, k: string, v: Json)
    requires k !in VideoFields
    ensures ValidateVideo(JObj(m[k := v])) == ValidateVideo(JObj(m))
  {
    var m' := m[k := v];
    assert forall f :: f in VideoFields ==> (f in m' <==> f in m) && (f in m ==> m'[f] == m[f]);
  }

  /** A key CounterArgument does not declare (the model's `academic_insight`, say) has no effect on validation. */
  lemma ArgumentIgnoresUndeclaredKey(m: map<string, Json>, k: string, v: Json)
    requires k !in ArgumentFields
    ensures ValidateArgument(JObj(m[k := v])) == ValidateArgument(JObj(m))
  {
    var m' := m[k := v];
    assert forall f :: f in ArgumentFields ==> (f in m' <==> f in m) && (f in m ==> m'[f] == m[f]);
  }

  /** AnalysisResult has no `video_metadata` field: that key, or any other undeclared one, is ignored. */
  lemma ResultIgnoresUndeclaredKey(m: map<string, Json>, k: string, v: Json)
    requires k !in ResultFields
    ensures ValidateResult(JObj(m[k := v])) == ValidateResult(JObj(m))
  {
    var m' := m[k := v];
    assert forall f :: f in ResultFields ==> (f in m' <==> f in m) && (f in m ==> m'[f] == m[f]);
  }

  /** A result needs all five of its fields: dropping any one of them makes validation fail. */
  lemma ResultNeedsEveryField(m: map<string, Json>, k: string)
    requires k in ResultFields
    ensures ValidateResult(JObj(m - {k})).None?
  {
  }
}
