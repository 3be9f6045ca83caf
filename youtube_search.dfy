/**
  services/search/youtube_search.py: the clickbait filter, the authority score
  and `SearchService.search_videos`, which asks the provider for twice as many
  entries as it needs and keeps the first `limit` that pass the filter.

  The yt-dlp provider is a parameter: given the cleaned query and the number
  of entries asked for, it either fails or returns its entries.  An entry is a
  dictionary whose keys may be absent, present with null, or present with a value.
*/
module YouTubeSearch {
  import opened Wrappers
  import opened PyJson
  import opened Text
  import opened Models

  // ---------------------------------------------------------------------------
  // Provider data
  // ---------------------------------------------------------------------------

  /** The keys of a yt-dlp entry that search_videos reads. */
  datatype RawEntry = RawEntry(
    title: Field<string>,
    url: Field<string>,
    webpageUrl: Field<string>,
    thumbnail: Field<string>,
    duration: Field<int>,
    uploader: Field<string>,
    channel: Field<string>,
    viewCount: Field<int>,
    description: Field<string>,
    categories: Field<seq<string>>)

  /** An element of `entries`: a falsy one (None or an empty dict) or a dictionary. */
  datatype Entry = NoEntry | Entry(raw: RawEntry)

  /** What `extract_info` gives back: an error (caught by search_videos) or the `entries` list. */
  datatype SearchReply = ProviderFailed(message: string) | Entries(entries: seq<Entry>)

  /** The provider, as a function of the query and the number of entries asked for. */
  type Provider = (string, int) -> SearchReply

  // ---------------------------------------------------------------------------
  // _is_quality_title  (youtube_search.py:11-33)
  // ---------------------------------------------------------------------------

  const ClickbaitTerms: seq<string> := ["SHOCKING", "YOU WON'T BELIEVE", "MUST WATCH", "GONE WRONG"]

  /** Code points above this one count as emoji. */
  const EmojiFloor: int := 0x1F300

  const MaxEmoji: nat := 3

  /** The caps rule applies to titles longer than this. */
  const CapsMinLength: nat := 10

  const CapsRatioLimit: real := 0.7

  /** `sum(1 for c in s if ord(c) > 0x1F300)` */
  function EmojiCount(s: string): (n: nat)
    ensures n <= |s|
  {
    if s == [] then 0 else (if s[0] as int > EmojiFloor then 1 else 0) + EmojiCount(s[1..])
  }

  /** `sum(1 for c in s if c.isupper())` */
  function UpperCount(s: string): (n: nat)
    ensures n <= |s|
  {
    if s == [] then 0 else (if IsAsciiUpper(s[0]) then 1 else 0) + UpperCount(s[1..])
  }

  predicate HasClickbait(title: string)
  {
    exists k :: 0 <= k < |ClickbaitTerms| && Contains(Upper(title), ClickbaitTerms[k])
  }

  /** `caps_ratio > 0.7 and len(title) > 10`, the ratio taken over `max(len(title), 1)`. */
  predicate TooManyCaps(title: string)
  {
    var ratio := UpperCount(title) as real / (if |title| > 1 then |title| else 1) as real;
    ratio > CapsRatioLimit && |title| > CapsMinLength
  }

  /** `_is_quality_title`; a None title is handled by the caller (EntryStep). */
  predicate IsQualityTitle(title: string)
  {
    && title != []
    && !HasClickbait(title)
    && EmojiCount(title) <= MaxEmoji
    && !TooManyCaps(title)
  }

  lemma RatioAbove(u: real, n: real)
    requires n > 0.0
    ensures u / n > 0.7 <==> 10.0 * u > 7.0 * n
  {
    var q := u / n;
    assert u == q * n;
    if q > 0.7 {
      assert (q - 0.7) * n > 0.0;
    } else {
      assert (0.7 - q) * n >= 0.0;
    }
  }

  /** On titles longer than ten characters the caps rule is exactly "more than 7 in 10 characters are upper case". */
  lemma CapsRule(title: string)
    ensures |title| <= CapsMinLength ==> !TooManyCaps(title)
    ensures |title| > CapsMinLength ==> (TooManyCaps(title) <==> 10 * UpperCount(title) > 7 * |title|)
  {
    if |title| > CapsMinLength {
      RatioAbove(UpperCount(title) as real, |title| as real);
    }
  }

  /** The four rejection rules of `_is_quality_title`. */
  lemma QualityTitleRules(title: string)
    ensures title == [] ==> !IsQualityTitle(title)
    ensures (exists k :: 0 <= k < |ClickbaitTerms| && Contains(Upper(title), ClickbaitTerms[k])) ==> !IsQualityTitle(title)
    ensures EmojiCount(title) > MaxEmoji ==> !IsQualityTitle(title)
    ensures |title| > CapsMinLength && 10 * UpperCount(title) > 7 * |title| ==> !IsQualityTitle(title)
  {
    CapsRule(title);
  }

  /** A title that passes has an upper-case ratio of at most 7/10, or is at most ten characters long. */
  lemma QualityTitleCapsBound(title: string)
    requires IsQualityTitle(title)
    ensures |title| <= CapsMinLength || 10 * UpperCount(title) <= 7 * |title|
  {
    CapsRule(title);
  }

  // ---------------------------------------------------------------------------
  // _calculate_authority_score  (youtube_search.py:35-50)
  // ---------------------------------------------------------------------------

  const AuthorityCategories: seq<string> := ["News", "Education", "Documentary", "Science & Technology"]
  const AuthorityKeywords: seq<string> := ["university", "institute", "news", "academy", "research"]
  const BaseAuthority: real := 0.5
  const CategoryBoost: real := 0.3
  const ChannelBoost: real := 0.2

  /** `categories = entry.get('categories', [])`, then `if categories: any(cat in [...] ...)`. */
  predicate HasAuthorityCategory(e: RawEntry)
  {
    match e.categories
    case Has(cs) => exists i :: 0 <= i < |cs| && cs[i] in AuthorityCategories
    case _ => false
  }

  /** `entry.get('uploader') or entry.get('channel') or ''` */
  function ChannelText(e: RawEntry): string
  {
    if e.uploader.Has? && e.uploader.v != [] then e.uploader.v
    else if e.channel.Has? && e.channel.v != [] then e.channel.v
    else ""
  }

  predicate HasAuthorityKeyword(e: RawEntry)
  {
    var name := Lower(ChannelText(e));
    exists k :: 0 <= k < |AuthorityKeywords| && Contains(name, AuthorityKeywords[k])
  }

  function AuthorityScore(e: RawEntry): (s: real)
    ensures BaseAuthority <= s <= 1.0
  {
    var score := BaseAuthority
      + (if HasAuthorityCategory(e) then CategoryBoost else 0.0)
      + (if HasAuthorityKeyword(e) then ChannelBoost else 0.0);
    if score < 1.0 then score else 1.0
  }

  /** The four values the score takes, each exactly when its combination of boosts applies. */
  lemma AuthorityScoreCases(e: RawEntry)
    ensures AuthorityScore(e) == 1.0 <==> HasAuthorityCategory(e) && HasAuthorityKeyword(e)
    ensures AuthorityScore(e) == 0.8 <==> HasAuthorityCategory(e) && !HasAuthorityKeyword(e)
    ensures AuthorityScore(e) == 0.7 <==> !HasAuthorityCategory(e) && HasAuthorityKeyword(e)
    ensures AuthorityScore(e) == 0.5 <==> !HasAuthorityCategory(e) && !HasAuthorityKeyword(e)
  {
  }

  // ---------------------------------------------------------------------------
  // search_videos  (youtube_search.py:52-129)
  // ---------------------------------------------------------------------------

  /** The characters `query.strip("'\"\\ ")` removes. */
  predicate IsQueryQuote(c: char)
  {
    c == '\'' || c == '"' || c == '\\' || c == ' '
  }

  function CleanQuery(query: string): string
  {
    Strip(query, IsQueryQuote)
  }

  /** How many quoting characters the strip cuts from the front. */
  function LeadingQuotes(query: string): nat
  {
    |query| - |LStrip(query, IsQueryQuote)|
  }

  /** The cleaned query is the original with quoting characters cut from both ends, and cleaning twice changes nothing. */
  lemma CleanQueryProperties(query: string)
    ensures CleanQuery(query) != [] ==>
              !IsQueryQuote(CleanQuery(query)[0]) && !IsQueryQuote(CleanQuery(query)[|CleanQuery(query)| - 1])
    ensures LeadingQuotes(query) + |CleanQuery(query)| <= |query|
    ensures CleanQuery(query) == query[LeadingQuotes(query)..LeadingQuotes(query) + |CleanQuery(query)|]
    ensures CleanQuery(CleanQuery(query)) == CleanQuery(query)
  {
    CleanQueryEnds(query);
    CleanQueryInfix(query);
    CleanQueryIdempotent(query);
  }

  lemma CleanQueryEnds(query: string)
    ensures CleanQuery(query) != [] ==>
              !IsQueryQuote(CleanQuery(query)[0]) && !IsQueryQuote(CleanQuery(query)[|CleanQuery(query)| - 1])
  {
    var l := LStrip(query, IsQueryQuote);
    var q := RStrip(l, IsQueryQuote);
    if q != [] {
      assert q[0] == l[0];
    }
  }

  lemma CleanQueryInfix(query: string)
    ensures LeadingQuotes(query) + |CleanQuery(query)| <= |query|
    ensures CleanQuery(query) == query[LeadingQuotes(query)..LeadingQuotes(query) + |CleanQuery(query)|]
  {
    StripIsInfix(query, IsQueryQuote);
    assert LeadingQuotes(query) == |query| - |LStrip(query, IsQueryQuote)|;
    assert CleanQuery(query) == Strip(query, IsQueryQuote);
  }

  lemma CleanQueryIdempotent(query: string)
    ensures CleanQuery(CleanQuery(query)) == CleanQuery(query)
  {
    var q := CleanQuery(query);
    StripIsInfix(query, IsQueryQuote);
    if q != [] {
      StripNoOp(q, IsQueryQuote);
    } else {
      assert LStrip(q, IsQueryQuote) == [];
    }
  }

  /** The number of entries requested from the provider: `ytsearch{limit * 2}`. */
  function RequestedCount(limit: int): int
  {
    limit * 2
  }

  const DescriptionLimit: nat := 500

  /** `description[:500]` */
  function Truncate(s: string, n: nat): (r: string)
    ensures |r| <= n && |r| <= |s| && r == s[..|r|]
    ensures |s| <= n ==> r == s
  {
    if |s| <= n then s else s[..n]
  }

  /** `entry.get('url') or entry.get('webpage_url', '')`; None when Pydantic would refuse it for `url: str`. */
  function UrlOf(e: RawEntry): Option<string>
  {
    if e.url.Has? && e.url.v != [] then Some(e.url.v)
    else
      match e.webpageUrl
      case Absent => Some("")
      case Null => None
      case Has(w) => Some(w)
  }

  /** `entry.get('uploader') or entry.get('channel')` */
  function ChannelName(e: RawEntry): Option<string>
  {
    if e.uploader.Has? && e.uploader.v != [] then Some(e.uploader.v) else e.channel.AsOption()
  }

  /** `entry.get('title', 'Unknown Title')`: None stands for an explicit null. */
  function TitleOf(e: RawEntry): Option<string>
  {
    match e.title
    case Absent => Some("Unknown Title")
    case Null => None
    case Has(t) => Some(t)
  }

  /** What the loop body does with one entry. */
  datatype Step = Skip | Keep(video: VideoSuggestion) | Raise

  function EntryStep(entry: Entry): (s: Step)
    ensures s.Keep? ==> entry.Entry? && TitleOf(entry.raw).Some? && s.video.title == TitleOf(entry.raw).value
  {
    match entry
    case NoEntry => Skip
    case Entry(e) =>
      var title := TitleOf(e);
      if title.None? || !IsQualityTitle(title.value) then Skip
      else if e.description.Null? then Raise      // None[:500] raises TypeError
      else
        match UrlOf(e)
        case None => Raise                         // VideoSuggestion(url=None) fails validation
        case Some(url) =>
          var description := if e.description.Has? then e.description.v else "";
          var views := match e.viewCount { case Absent => Some(0) case Null => None case Has(v) => Some(v) };
          Keep(VideoSuggestion(
            title.value, url, e.thumbnail.AsOption(), e.duration.AsOption(), ChannelName(e), views,
            Some(AuthorityScore(e)), Some(Truncate(description, DescriptionLimit))))
  }

  /** A kept entry passes the title filter, is scored by its authority and has a description of at most 500 characters. */
  predicate WellFormedCandidate(v: VideoSuggestion)
  {
    && IsQualityTitle(v.title)
    && v.relevanceScore.Some? && BaseAuthority <= v.relevanceScore.value <= 1.0
    && v.description.Some? && |v.description.value| <= DescriptionLimit
  }

  lemma EntryStepKeeps(entry: Entry)
    requires EntryStep(entry).Keep?
    ensures WellFormedCandidate(EntryStep(entry).video)
    ensures EntryStep(entry).video.relevanceScore == Some(AuthorityScore(entry.raw))
  {
  }

  /** After an append, `if len(results) >= limit: break`. */
  predicate Stopped(results: seq<VideoSuggestion>, limit: int)
  {
    |results| > 0 && |results| >= limit
  }

  /** The loop over a prefix of the entries: the results so far, or the exception it raised. */
  function Scan(entries: seq<Entry>, limit: int): Result<seq<VideoSuggestion>>
  {
    if entries == [] then Ok([])
    else
      match Scan(entries[..|entries| - 1], limit)
      case Raised(m) => Raised(m)
      case Ok(rs) =>
        if Stopped(rs, limit) then Ok(rs)
        else
          match EntryStep(entries[|entries| - 1])
          case Skip => Ok(rs)
          case Raise => Raised("TypeError")
          case Keep(v) => Ok(rs + [v])
  }

  /** Every candidate the provider's entries yield, in provider order, with no limit. */
  function Candidates(entries: seq<Entry>): seq<VideoSuggestion>
  {
    if entries == [] then []
    else
      var init := Candidates(entries[..|entries| - 1]);
      match EntryStep(entries[|entries| - 1])
      case Keep(v) => init + [v]
      case _ => init
  }

  /** The most the loop keeps: `limit`, but one even when `limit` is zero or negative, as the break follows the append. */
  function Cap(limit: int): nat
  {
    if limit >= 1 then limit else 1
  }

  /** The loop either ran out of entries or stopped at the cap; either way it kept the first candidates in order. */
  lemma {:induction false} ScanKeepsFirstCandidates(entries: seq<Entry>, limit: int)
    requires Scan(entries, limit).Ok?
    ensures var rs := Scan(entries, limit).value;
            && |rs| <= Cap(limit)
            && |rs| <= |Candidates(entries)|
            && rs == Candidates(entries)[..|rs|]
            && (Stopped(rs, limit) ==> |rs| == Cap(limit))
            && (!Stopped(rs, limit) ==> rs == Candidates(entries))
  {
    if entries != [] {
      var init := entries[..|entries| - 1];
      ScanKeepsFirstCandidates(init, limit);
      var rs0 := Scan(init, limit).value;
      var c0 := Candidates(init);
      if !Stopped(rs0, limit) {
        match EntryStep(entries[|entries| - 1])
        case Keep(v) =>
          assert Candidates(entries) == c0 + [v];
          assert (rs0 + [v]) == Candidates(entries)[..|rs0| + 1];
        case Skip =>
        case Raise =>
      } else {
        CandidatesGrow(entries);
        assert Candidates(entries)[..|rs0|] == c0[..|rs0|];
      }
    }
  }

  lemma CandidatesGrow(entries: seq<Entry>)
    requires entries != []
    ensures var c0 := Candidates(entries[..|entries| - 1]);
            |c0| <= |Candidates(entries)| && Candidates(entries)[..|c0|] == c0
  {
  }

  /** `v` is what the loop body makes of one of the entries. */
  predicate FromEntries(v: VideoSuggestion, entries: seq<Entry>)
  {
    exists j :: 0 <= j < |entries| && EntryStep(entries[j]) == Keep(v)
  }

  lemma {:induction false} CandidatesWellFormed(entries: seq<Entry>)
    ensures forall k :: 0 <= k < |Candidates(entries)| ==> WellFormedCandidate(Candidates(entries)[k])
    ensures forall k :: 0 <= k < |Candidates(entries)| ==> FromEntries(Candidates(entries)[k], entries)
  {
    if entries != [] {
      var init := entries[..|entries| - 1];
      CandidatesWellFormed(init);
      var last := entries[|entries| - 1];
      if EntryStep(last).Keep? {
        EntryStepKeeps(last);
      }
      forall k | 0 <= k < |Candidates(entries)|
        ensures FromEntries(Candidates(entries)[k], entries)
      {
        if k < |Candidates(init)| {
          var j :| 0 <= j < |init| && EntryStep(init[j]) == Keep(Candidates(init)[k]);
          assert entries[j] == init[j];
        } else {
          assert EntryStep(entries[|entries| - 1]) == Keep(Candidates(entries)[k]);
        }
      }
    }
  }

  /** Every candidate carries the authority score of the entry it came from. */
  lemma CandidateScored(entries: seq<Entry>, k: nat)
    requires k < |Candidates(entries)|
    ensures exists j :: 0 <= j < |entries| && entries[j].Entry?
                        && Candidates(entries)[k].relevanceScore == Some(AuthorityScore(entries[j].raw))
  {
    CandidatesWellFormed(entries);
    var j :| 0 <= j < |entries| && EntryStep(entries[j]) == Keep(Candidates(entries)[k]);
    EntryStepKeeps(entries[j]);
  }

  /** An exception in the loop or at the provider is caught and turned into an empty list. */
  function SearchResults(query: string, limit: int, provider: Provider): seq<VideoSuggestion>
  {
    match provider(CleanQuery(query), RequestedCount(limit))
    case ProviderFailed(_) => []
    case Entries(entries) =>
      match Scan(entries, limit)
      case Raised(_) => []
      case Ok(rs) => rs
  }

  /** A prefix of the candidates, each scored by the authority of the entry it came from. */
  predicate DrawnFrom(rs: seq<VideoSuggestion>, entries: seq<Entry>)
  {
    && |rs| <= |Candidates(entries)| && rs == Candidates(entries)[..|rs|]
    && forall k :: 0 <= k < |rs| ==>
         exists j :: 0 <= j < |entries| && entries[j].Entry?
                     && rs[k].relevanceScore == Some(AuthorityScore(entries[j].raw))
  }

  /**
    What search_videos promises: at most `limit` results (at least one is allowed
    for `limit <= 0`), each a well-formed candidate drawn from the provider's
    entries, scored by that entry's authority, in provider order.
  */
  lemma SearchResultsProperties(query: string, limit: int, provider: Provider)
    ensures |SearchResults(query, limit, provider)| <= Cap(limit)
    ensures limit >= 1 ==> |SearchResults(query, limit, provider)| <= limit
    ensures forall k :: 0 <= k < |SearchResults(query, limit, provider)| ==> WellFormedCandidate(SearchResults(query, limit, provider)[k])
    ensures provider(CleanQuery(query), RequestedCount(limit)).Entries? ==>
              DrawnFrom(SearchResults(query, limit, provider), provider(CleanQuery(query), RequestedCount(limit)).entries)
  {
    match provider(CleanQuery(query), RequestedCount(limit))
    case ProviderFailed(_) =>
    case Entries(entries) =>
      CandidatesWellFormed(entries);
      if Scan(entries, limit).Ok? {
        ScanKeepsFirstCandidates(entries, limit);
        var rs := Scan(entries, limit).value;
        forall k | 0 <= k < |rs|
          ensures WellFormedCandidate(rs[k])
          ensures exists j :: 0 <= j < |entries| && entries[j].Entry?
                              && rs[k].relevanceScore == Some(AuthorityScore(entries[j].raw))
        {
          assert rs[k] == Candidates(entries)[k];
          CandidateScored(entries, k);
        }
      }
  }

  /** Entry `i` raises while the loop is still running. */
  predicate RaisesAt(entries: seq<Entry>, i: nat, limit: int)
  {
    && i < |entries| && Scan(entries[..i], limit).Ok?
    && !Stopped(Scan(entries[..i], limit).value, limit) && EntryStep(entries[i]) == Raise
  }

  /** One turn of the loop, from the results over the first `i` entries. */
  lemma ScanStep(entries: seq<Entry>, i: nat, limit: int)
    requires i < |entries| && Scan(entries[..i], limit).Ok? && !Stopped(Scan(entries[..i], limit).value, limit)
    ensures EntryStep(entries[i]).Skip? ==> Scan(entries[..i + 1], limit) == Scan(entries[..i], limit)
    ensures EntryStep(entries[i]).Raise? ==> Scan(entries[..i + 1], limit) == Raised("TypeError")
    ensures EntryStep(entries[i]).Keep? ==>
              Scan(entries[..i + 1], limit) == Ok(Scan(entries[..i], limit).value + [EntryStep(entries[i]).video])
  {
    assert entries[..i + 1][..i] == entries[..i];
    assert entries[..i + 1][i] == entries[i];
  }

  /** An entry that raises while the loop runs makes the whole loop raise. */
  lemma RaiseSettles(entries: seq<Entry>, i: nat, limit: int)
    requires RaisesAt(entries, i, limit)
    ensures Scan(entries, limit).Raised?
  {
    ScanStep(entries, i, limit);
    ScanSettled(entries, i + 1, limit);
  }

  /** A failing provider, or an entry that raises before the loop stops, leaves the caller with no candidates. */
  lemma SearchFailuresGiveEmpty(query: string, limit: int, provider: Provider, i: nat)
    requires provider(CleanQuery(query), RequestedCount(limit)).ProviderFailed?
             || RaisesAt(provider(CleanQuery(query), RequestedCount(limit)).entries, i, limit)
    ensures SearchResults(query, limit, provider) == []
  {
    var reply := provider(CleanQuery(query), RequestedCount(limit));
    if reply.Entries? {
      RaiseSettles(reply.entries, i, limit);
    }
  }

  /** Once the loop has raised or broken out, the remaining entries change nothing. */
  lemma {:induction false} ScanSettled(entries: seq<Entry>, i: nat, limit: int)
    requires i <= |entries|
    requires Scan(entries[..i], limit).Raised? || Stopped(Scan(entries[..i], limit).value, limit)
    ensures Scan(entries, limit) == Scan(entries[..i], limit)
    decreases |entries| - i
  {
    if i < |entries| {
      assert entries[..i + 1][..i] == entries[..i];
      ScanSettled(entries, i + 1, limit);
    } else {
      assert entries[..i] == entries;
    }
  }

  /** The loop of `search_videos` over the provider's entries, with its `continue` and `break`. */
  method ScanEntries(entries: seq<Entry>, limit: int) returns (r: Result<seq<VideoSuggestion>>)
    ensures r == Scan(entries, limit)
  {
    var results := [];
    var i := 0;
    while i < |entries|
      invariant 0 <= i <= |entries|
      invariant Scan(entries[..i], limit) == Ok(results)
      invariant !Stopped(results, limit)
    {
      ScanStep(entries, i, limit);
      match EntryStep(entries[i]) {
        case Skip =>
        case Raise =>
          ScanSettled(entries, i + 1, limit);
          return Raised("TypeError");
        case Keep(v) =>
          results := results + [v];
          if |results| >= limit {
            ScanSettled(entries, i + 1, limit);
            return Ok(results);
          }
      }
      i := i + 1;
    }
    assert entries[..i] == entries;
    r := Ok(results);
  }

  /** `search_videos`: fetch `limit * 2` entries, run the loop, and turn any exception into an empty list. */
  method SearchVideos(query: string, limit: int, provider: Provider) returns (results: seq<VideoSuggestion>)
    ensures results == SearchResults(query, limit, provider)
  {
    var cleaned := CleanQuery(query);
    var reply := provider(cleaned, RequestedCount(limit));
    if reply.ProviderFailed? {
      return [];
    }
    var scanned := ScanEntries(reply.entries, limit);
    if scanned.Raised? {
      return [];
    }
    results := scanned.value;
  }
}
