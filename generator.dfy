/**
  services/reasoning/generator.py: how `ReasoningEngine` normalises the
  language model's JSON.  `verify_relevance` fills in missing verdict fields
  and degrades every failure to a neutral accept; `generate_analysis` injects
  the caller's URL, repairs missing or blank search queries and validates the
  result against AnalysisResult.

  The model's replies are parameters: a failed call (or unparsable reply) with
  its error text, or the value `json.loads` produced.
*/
module Reasoning {
  import opened Wrappers
  import opened PyJson
  import opened Text
  import opened Models

  /** The outcome of `ollama.chat` followed by `json.loads`. */
  datatype LlmReply = LlmFailed(message: string) | LlmReplied(parsed: Json)

  /** The relevance scorer, as a function of the argument's content, the video's title and the description shown to it. */
  type Scorer = (string, string, string) -> LlmReply

  // ---------------------------------------------------------------------------
  // verify_relevance  (generator.py:221-292)
  // ---------------------------------------------------------------------------

  const DefaultScore: real := 0.5
  const AcceptScore: real := 0.7
  const NeutralScore: real := 0.65
  const DefaultReason: string := "Automated verification"
  const ErrorPrefix: string := "Verification error: "

  /** Stands for the text of a TypeError raised inside verify_relevance; Python's exact wording is not modelled. */
  const TypeErrorText: string := "TypeError"

  /** The prompt shows at most 300 characters of the description, or "N/A" when there is none. */
  function PromptDescription(description: string): (s: string)
    ensures description == [] ==> s == "N/A"
    ensures description != [] ==> |s| <= 300 && |s| <= |description| && s == description[..|s|]
    ensures 0 < |description| <= 300 ==> s == description
  {
    if description == [] then "N/A" else if |description| <= 300 then description else description[..300]
  }

  /** The fixed result returned when anything in verify_relevance raises. */
  function NeutralVerdict(message: string): Json
  {
    JObj(map["score" := JReal(NeutralScore), "reason" := JStr(ErrorPrefix + message), "verdict" := JStr("accept")])
  }

  /**
    What verify_relevance returns for a reply.  For a dict: each missing key is
    filled in; a missing verdict is derived from the score, and a score Python
    cannot compare with 0.7 raises.  For a string or list, `key not in result`
    is a substring or element test and any assignment raises, so the value
    comes back unchanged only when all three keys are "in" it.
  */
  function Verdict(reply: LlmReply): Json
  {
    match reply
    case LlmFailed(message) => NeutralVerdict(message)
    case LlmReplied(JObj(m)) =>
      var withScore := if "score" in m then m else m["score" := JReal(DefaultScore)];
      if "verdict" !in withScore && AsNumber(withScore["score"]).None? then NeutralVerdict(TypeErrorText)
      else
        var withVerdict :=
          if "verdict" in withScore then withScore
          else withScore["verdict" := JStr(if AsNumber(withScore["score"]).value >= AcceptScore then "accept" else "reject")];
        JObj(if "reason" in withVerdict then withVerdict else withVerdict["reason" := JStr(DefaultReason)])
    case LlmReplied(j) =>
      if PyIn("score", j) == Some(true) && PyIn("verdict", j) == Some(true) && PyIn("reason", j) == Some(true)
      then j
      else NeutralVerdict(TypeErrorText)
  }

  /** A failed call or parse always yields score 0.65, verdict 'accept' and a reason carrying the error. */
  lemma VerdictOnFailure(message: string)
    ensures var v := Verdict(LlmFailed(message));
            && v.JObj? && v.fields.Keys == {"score", "verdict", "reason"}
            && v.fields["score"] == JReal(0.65) && v.fields["verdict"] == JStr("accept")
            && v.fields["reason"] == JStr(ErrorPrefix + message)
  {
  }

  /**
    The defaulting rules on a dict reply:  the neutral fallback is taken exactly
    when the verdict is missing and the score is present but not a number;
    otherwise every key already present is returned unchanged (so the score is
    not clamped), a missing score becomes 0.5, a missing verdict is 'accept'
    exactly when the score is at least 0.7, and a missing reason is
    'Automated verification'.
  */
  lemma VerdictDefaults(m: map<string, Json>)
    ensures var v := Verdict(LlmReplied(JObj(m)));
            var fallback := "verdict" !in m && "score" in m && AsNumber(m["score"]).None?;
            && v.JObj?
            && (fallback ==> v == NeutralVerdict(TypeErrorText))
            && (!fallback ==>
                  && v.fields.Keys == m.Keys + {"score", "verdict", "reason"}
                  && (forall k :: k in m ==> v.fields[k] == m[k])
                  && ("score" !in m ==> v.fields["score"] == JReal(0.5))
                  && ("verdict" !in m ==>
                        (v.fields["verdict"] == JStr("accept") <==> AsNumber(v.fields["score"]).value >= 0.7)
                        && (v.fields["verdict"] == JStr("accept") || v.fields["verdict"] == JStr("reject")))
                  && ("reason" !in m ==> v.fields["reason"] == JStr("Automated verification")))
  {
  }

  /** A reply that is neither a dict, a string nor a list makes verify_relevance fall back. */
  lemma VerdictOnScalar(j: Json)
    requires j.JNull? || j.JBool? || j.JInt? || j.JReal?
    ensures Verdict(LlmReplied(j)) == NeutralVerdict(TypeErrorText)
  {
  }

  /** `verify_relevance`: ask the scorer, then fill in the missing keys one after the other. */
  method VerifyRelevance(scorer: Scorer, content: string, title: string, description: string)
    returns (result: Json)
    ensures result == Verdict(scorer(content, title, PromptDescription(description)))
  {
    var reply := scorer(content, title, PromptDescription(description));
    if reply.LlmFailed? {
      return NeutralVerdict(reply.message);
    }
    result := reply.parsed;
    if !result.JObj? {
      // `'score' not in result` and the assignments that follow
      if PyIn("score", result) == Some(true) && PyIn("verdict", result) == Some(true)
         && PyIn("reason", result) == Some(true) {
        return;
      }
      return NeutralVerdict(TypeErrorText);
    }
    var fields := result.fields;
    if "score" !in fields {
      fields := fields["score" := JReal(DefaultScore)];
    }
    if "verdict" !in fields {
      var score := AsNumber(fields["score"]);
      if score.None? {
        return NeutralVerdict(TypeErrorText);
      }
      fields := fields["verdict" := JStr(if score.value >= AcceptScore then "accept" else "reject")];
    }
    if "reason" !in fields {
      fields := fields["reason" := JStr(DefaultReason)];
    }
    result := JObj(fields);
  }

  // ---------------------------------------------------------------------------
  // The youtube_query repair of generate_analysis  (generator.py:157-180)
  // ---------------------------------------------------------------------------

  const QuerySuffix: string := " perspective research analysis"

  /** `title.split()[:4]` */
  function TitleKeywords(title: string): (ws: seq<string>)
    ensures |ws| <= 4
    ensures forall k :: 0 <= k < |ws| ==> IsWord(ws[k])
    ensures Words(title) != [] ==> ws != []
  {
    var ws := Words(title);
    if |ws| <= 4 then ws else ws[..4]
  }

  /** `f"{title_keywords} {arg_type} perspective research analysis".strip()` */
  function DefaultQuery(title: string, kind: string): string
  {
    StripSpace(Join(TitleKeywords(title), " ") + " " + kind + QuerySuffix)
  }

  /** The repaired query is never blank, so the second default at generator.py:178-179 is never used. */
  lemma DefaultQueryNotBlank(title: string, kind: string)
    ensures !IsBlank(DefaultQuery(title, kind))
    ensures DefaultQuery(title, kind) != []
  {
    var s := Join(TitleKeywords(title), " ") + " " + kind + QuerySuffix;
    var p := |Join(TitleKeywords(title), " ")| + 1 + |kind| + 1;
    assert s[p] == 'p';
    StripEmptyIff(s, IsSpace);
  }

  /** When the title has a word, the strip changes nothing: the query is the keywords, the type and the suffix. */
  lemma DefaultQueryWithKeywords(title: string, kind: string)
    requires Words(title) != []
    ensures DefaultQuery(title, kind) == Join(TitleKeywords(title), " ") + " " + kind + QuerySuffix
  {
    var ws := TitleKeywords(title);
    assert ws != [];
    JoinStartsWithWord(ws);
    KeptEnds(Join(ws, " "), kind);
  }

  lemma JoinStartsWithWord(ws: seq<string>)
    requires ws != [] && IsWord(ws[0])
    ensures Join(ws, " ") != [] && !IsSpace(Join(ws, " ")[0])
  {
    var j := Join(ws, " ");
    assert j[..|ws[0]|] == ws[0];
    assert j[0] == ws[0][0];
  }

  /** A string that starts and ends with non-whitespace is left alone by strip. */
  lemma KeptEnds(j: string, kind: string)
    requires j != [] && !IsSpace(j[0])
    ensures StripSpace(j + " " + kind + QuerySuffix) == j + " " + kind + QuerySuffix
  {
    var s := j + " " + kind + QuerySuffix;
    assert s[0] == j[0];
    assert s[|s| - 1] == 's';
    StripNoOp(s, IsSpace);
  }

  /** Generated queries end with the fixed suffix's words, whatever the title and type. */
  lemma DefaultQueryEndsWithSuffix(title: string, kind: string)
    ensures var q := DefaultQuery(title, kind);
            |q| >= |QuerySuffix| - 1 && q[|q| - (|QuerySuffix| - 1)..] == QuerySuffix[1..]
  {
    QuerySuffixEnds();
    SuffixSurvivesStrip(Join(TitleKeywords(title), " ") + " " + kind, QuerySuffix);
  }

  /** The suffix's second and last characters are letters. */
  lemma QuerySuffixEnds()
    ensures |QuerySuffix| >= 2 && !IsSpace(QuerySuffix[1]) && !IsSpace(QuerySuffix[|QuerySuffix| - 1])
  {
    assert QuerySuffix[1] == 'p' && QuerySuffix[|QuerySuffix| - 1] == 's';
  }

  /** Strip cannot reach into a tail whose second and last characters are not whitespace. */
  lemma SuffixSurvivesStrip(prefix: string, suffix: string)
    requires |suffix| >= 2 && !IsSpace(suffix[1]) && !IsSpace(suffix[|suffix| - 1])
    ensures var q := StripSpace(prefix + suffix);
            |q| >= |suffix| - 1 && q[|q| - (|suffix| - 1)..] == suffix[1..]
  {
    var s := prefix + suffix;
    var l := LStrip(s, IsSpace);
    var n := |suffix| - 1;
    StripIsLeftStrip(s, prefix, suffix);
    LStripKeepsTail(prefix, suffix);
    LStripTail(s, n);
    ConcatTail(prefix, suffix);
    assert l[|l| - n..] == suffix[1..];
  }

  /** Such a tail also means only the left strip cuts anything. */
  lemma StripIsLeftStrip(s: string, prefix: string, suffix: string)
    requires s == prefix + suffix
    requires |suffix| >= 2 && !IsSpace(suffix[1]) && !IsSpace(suffix[|suffix| - 1])
    ensures StripSpace(s) == LStrip(s, IsSpace)
  {
    LStripKeepsTail(prefix, suffix);
    assert s[|s| - 1] == suffix[|suffix| - 1];
    var l := LStrip(s, IsSpace);
    assert l[|l| - 1] == s[|s| - 1];
    StripNoOp(l, IsSpace);
  }

  /** Left strip stops at the tail's second character at the latest. */
  lemma LStripKeepsTail(prefix: string, suffix: string)
    requires |suffix| >= 2 && !IsSpace(suffix[1])
    ensures |LStrip(prefix + suffix, IsSpace)| >= |suffix| - 1
  {
    var s := prefix + suffix;
    assert s[|s| - (|suffix| - 1)] == suffix[1];
  }

  lemma LStripTail(s: string, n: nat)
    requires n <= |LStrip(s, IsSpace)|
    ensures var l := LStrip(s, IsSpace); l[|l| - n..] == s[|s| - n..]
  {
  }

  lemma ConcatTail(prefix: string, suffix: string)
    requires |suffix| >= 1
    ensures var s := prefix + suffix; s[|s| - (|suffix| - 1)..] == suffix[1..]
  {
  }

  /** `needs_fix`: the key is absent, the value is None, or it is a string that is blank after strip. */
  predicate NeedsQueryFix(ca: map<string, Json>)
  {
    || "youtube_query" !in ca
    || ca["youtube_query"].JNull?
    || (ca["youtube_query"].JStr? && IsBlank(ca["youtube_query"].s))
  }

  /** `ca.get("title", "")`, read only as far as `title.split()` if it is truthy. */
  function TitleForQuery(ca: map<string, Json>): Result<string>
  {
    if "title" !in ca then Ok("")
    else
      match ca["title"]
      case JStr(s) => Ok(s)
      case other => if Truthy(other) then Raised("AttributeError") else Ok("")
  }

  /** `ca.get("type", "")`; a non-string type is refused here (CounterArgument.type must be a string anyway). */
  function TypeForQuery(ca: map<string, Json>): Result<string>
  {
    if "type" !in ca then Ok("")
    else if ca["type"].JStr? then Ok(ca["type"].s)
    else Raised("type is not a string")
  }

  /** One iteration of the repair loop on one element of `counter_arguments`. */
  function RepairArgument(ca: Json): Result<Json>
  {
    if !ca.JObj? then Raised("AttributeError")      // ca.get on a non-dict
    else if !NeedsQueryFix(ca.fields) then Ok(ca)
    else if TitleForQuery(ca.fields).Raised? then Raised(TitleForQuery(ca.fields).message)
    else if TypeForQuery(ca.fields).Raised? then Raised(TypeForQuery(ca.fields).message)
    else Ok(WithQuery(ca.fields, DefaultQuery(TitleForQuery(ca.fields).value, TypeForQuery(ca.fields).value)))
  }

  /** `ca["youtube_query"] = query` */
  function WithQuery(ca: map<string, Json>, query: string): (r: Json)
  {
    JObj(ca["youtube_query" := JStr(query)])
  }

  /** What the loop leaves behind for every argument: a query that is present, not None and, if a string, not blank. */
  predicate HasUsableQuery(ca: Json)
  {
    && ca.JObj? && "youtube_query" in ca.fields
    && !ca.fields["youtube_query"].JNull?
    && (ca.fields["youtube_query"].JStr? ==> !IsBlank(ca.fields["youtube_query"].s))
  }

  /** A repaired argument has a usable query and every other key as before; one that needs no fix is untouched, and one
      that does gets the default query built from its title and type. */
  lemma RepairArgumentProperties(ca: Json)
    requires RepairArgument(ca).Ok?
    ensures var r := RepairArgument(ca).value;
            && HasUsableQuery(r)
            && r.fields.Keys == ca.fields.Keys + {"youtube_query"}
            && (forall k :: k in ca.fields && k != "youtube_query" ==> r.fields[k] == ca.fields[k])
            && (!NeedsQueryFix(ca.fields) ==> r == ca)
            && (NeedsQueryFix(ca.fields) ==>
                  r.fields["youtube_query"] == JStr(DefaultQuery(TitleForQuery(ca.fields).value, TypeForQuery(ca.fields).value)))
  {
    if NeedsQueryFix(ca.fields) {
      var title, kind := TitleForQuery(ca.fields).value, TypeForQuery(ca.fields).value;
      DefaultQueryNotBlank(title, kind);
      WithQueryProperties(ca.fields, DefaultQuery(title, kind));
    }
  }

  lemma WithQueryProperties(ca: map<string, Json>, query: string)
    requires !IsBlank(query)
    ensures var r := WithQuery(ca, query);
            && HasUsableQuery(r)
            && r.fields.Keys == ca.Keys + {"youtube_query"}
            && (forall k :: k in ca && k != "youtube_query" ==> r.fields[k] == ca[k])
  {
  }

  /** The whole loop: every argument repaired in order, or the first exception. */
  function RepairAll(cas: seq<Json>): Result<seq<Json>>
  {
    if cas == [] then Ok([])
    else
      match (RepairAll(cas[..|cas| - 1]), RepairArgument(cas[|cas| - 1]))
      case (Ok(init), Ok(last)) => Ok(init + [last])
      case (Raised(m), _) => Raised(m)
      case (_, Raised(m)) => Raised(m)
  }

  lemma {:induction false} RepairAllProperties(cas: seq<Json>)
    requires RepairAll(cas).Ok?
    ensures |RepairAll(cas).value| == |cas|
    ensures forall i :: 0 <= i < |cas| ==> RepairArgument(cas[i]) == Ok(RepairAll(cas).value[i])
  {
    if cas != [] {
      RepairAllProperties(cas[..|cas| - 1]);
    }
  }

  /** The parsed reply after generate_analysis has injected the URL and repaired the arguments. */
  function Prepared(parsed: Json, videoUrl: string): Result<Json>
  {
    if !parsed.JObj? then Raised("TypeError")            // data['video_url'] = ... on a non-dict
    else
      var data := parsed.fields["video_url" := JStr(videoUrl)];
      if "counter_arguments" !in data then Ok(JObj(data))
      else if !data["counter_arguments"].JArr? then Raised("TypeError")
      else
        match RepairAll(data["counter_arguments"].items)
        case Raised(m) => Raised(m)
        case Ok(cas) => Ok(JObj(data["counter_arguments" := JArr(cas)]))
  }

  /** What generate_analysis returns, or the exception it re-raises. */
  function Analysis(reply: LlmReply, videoUrl: string): Result<AnalysisResult>
  {
    match reply
    case LlmFailed(m) => Raised(m)
    case LlmReplied(parsed) =>
      match Prepared(parsed, videoUrl)
      case Raised(m) => Raised(m)
      case Ok(data) =>
        match ValidateResult(data)
        case None => Raised("ValidationError")
        case Some(result) => Ok(result)
  }

  /** `generate_analysis` after the model has replied: inject the URL, repair each argument in place, validate. */
  method GenerateAnalysis(reply: LlmReply, videoUrl: string) returns (r: Result<AnalysisResult>)
    ensures r == Analysis(reply, videoUrl)
  {
    if reply.LlmFailed? {
      return Raised(reply.message);
    }
    if !reply.parsed.JObj? {
      return Raised("TypeError");
    }
    var data := reply.parsed.fields["video_url" := JStr(videoUrl)];
    if "counter_arguments" in data {
      if !data["counter_arguments"].JArr? {
        return Raised("TypeError");
      }
      var cas := data["counter_arguments"].items;
      var repaired: seq<Json> := [];
      var i := 0;
      while i < |cas|
        invariant 0 <= i <= |cas|
        invariant RepairAll(cas[..i]) == Ok(repaired)
      {
        assert cas[..i + 1][..i] == cas[..i];
        var fixedArgument := RepairArgument(cas[i]);
        if fixedArgument.Raised? {
          RepairAllRaises(cas, i + 1);
          return Raised(fixedArgument.message);
        }
        repaired := repaired + [fixedArgument.value];
        i := i + 1;
      }
      assert cas[..i] == cas;
      data := data["counter_arguments" := JArr(repaired)];
    }
    var validated := ValidateResult(JObj(data));
    if validated.None? {
      return Raised("ValidationError");
    }
    r := Ok(validated.value);
  }

  /** An exception in the loop is the outcome of the whole loop. */
  lemma {:induction false} RepairAllRaises(cas: seq<Json>, i: nat)
    requires 0 < i <= |cas| && RepairAll(cas[..i]).Raised?
    ensures RepairAll(cas) == RepairAll(cas[..i])
    decreases |cas| - i
  {
    if i < |cas| {
      assert cas[..i + 1][..i] == cas[..i];
      RepairAllRaises(cas, i + 1);
    } else {
      assert cas[..i] == cas;
    }
  }

  /** The URL in the result is always the caller's, whatever the model wrote there. */
  lemma AnalysisKeepsCallerUrl(reply: LlmReply, videoUrl: string)
    requires Analysis(reply, videoUrl).Ok?
    ensures Analysis(reply, videoUrl).value.videoUrl == videoUrl
  {
  }

  /** Every counter-argument of a successful analysis has a search query that is not blank. */
  lemma AnalysisQueriesNotBlank(reply: LlmReply, videoUrl: string)
    requires Analysis(reply, videoUrl).Ok?
    ensures forall i :: 0 <= i < |Analysis(reply, videoUrl).value.counterArguments| ==>
              !IsBlank(Analysis(reply, videoUrl).value.counterArguments[i].youtubeQuery)
  {
    var data := Prepared(reply.parsed, videoUrl).value;
    var result := Analysis(reply, videoUrl).value;
    var cas := reply.parsed.fields["video_url" := JStr(videoUrl)]["counter_arguments"].items;
    RepairAllProperties(cas);
    var repaired := RepairAll(cas).value;
    assert data.fields["counter_arguments"].items == repaired;
    forall i | 0 <= i < |result.counterArguments|
      ensures !IsBlank(result.counterArguments[i].youtubeQuery)
    {
      RepairArgumentProperties(cas[i]);
      assert ValidateArgument(repaired[i]) == Some(result.counterArguments[i]);
    }
  }
}
