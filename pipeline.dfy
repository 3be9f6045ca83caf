/**
  api/main.py, step 4 of `/analyze`: for every counter-argument, search for
  videos, keep those the relevance check lets through, fall back to the top
  search result when none is kept, sort by relevance and attach the best two.
  A failure inside one argument's task is swallowed and leaves that argument
  as it was.
*/
module Pipeline {
  import opened Wrappers
  import opened PyJson
  import opened Text
  import opened Models
  import Search = YouTubeSearch
  import opened Reasoning

  const SearchLimit: int := 3
  const KeepScore: real := 0.6
  const FallbackScore: real := 0.5
  const MaxSuggestions: nat := 2

  // ---------------------------------------------------------------------------
  // The keep rule  (main.py:97-103)
  // ---------------------------------------------------------------------------

  /** What happens to one search result after its relevance check. */
  datatype Decision = Keep(score: Option<real>) | Drop | Fail

  /**
    `verification.get('score', 0.5)`, `verification.get('verdict', 'reject')`
    and `verdict == 'accept' or score >= 0.6`.  `.get` on a non-dict and the
    comparison of a non-number with 0.6 raise.  An accepted score is stored as
    is; only a number or None is kept here (see README).
  */
  function Decide(verification: Json): (d: Decision)
    ensures d.Keep? ==> verification.JObj?
    ensures (d.Keep? && verification.JObj? && Get(verification.fields, "verdict", JStr("reject")) != JStr("accept"))
            ==> d.score.Some? && d.score.value >= KeepScore
    ensures d.Drop? ==> verification.JObj? && Get(verification.fields, "verdict", JStr("reject")) != JStr("accept")
  {
    if !verification.JObj? then Fail
    else
      var score := Get(verification.fields, "score", JReal(DefaultScore));
      if Get(verification.fields, "verdict", JStr("reject")) == JStr("accept") then
        if score.JNull? then Keep(None)
        else if AsNumber(score).Some? then Keep(AsNumber(score))
        else Fail
      else if AsNumber(score).None? then Fail
      else if AsNumber(score).value >= KeepScore then Keep(AsNumber(score))
      else Drop
  }

  /**
    For a numeric score (or none, read as 0.5) a result is kept exactly when the
    verdict is 'accept' or the score is at least 0.6, and it is kept with that
    score; with neither key it is dropped.
  */
  lemma KeepRule(m: map<string, Json>)
    requires "score" !in m || AsNumber(m["score"]).Some?
    ensures var d := Decide(JObj(m));
            var s := if "score" in m then AsNumber(m["score"]).value else 0.5;
            && !d.Fail?
            && (d.Keep? <==> (Get(m, "verdict", JStr("reject")) == JStr("accept") || s >= 0.6))
            && (d.Keep? ==> d.score == Some(s))
            && ("score" !in m && "verdict" !in m ==> d == Drop)
  {
  }

  /** The neutral result of a failed relevance check is always kept, with score 0.65. */
  lemma NeutralVerdictKept(message: string)
    ensures Decide(NeutralVerdict(message)) == Keep(Some(0.65))
  {
  }

  /**
    When the verifier leaves out the verdict, verify_relevance derives one with
    the 0.7 threshold, but main keeps the result from 0.6 on whatever that
    verdict is: the effective threshold is 0.6.
  */
  lemma MissingVerdictKeptFromKeepScore(m: map<string, Json>)
    requires "verdict" !in m
    requires "score" !in m || AsNumber(m["score"]).Some?
    ensures var s := if "score" in m then AsNumber(m["score"]).value else 0.5;
            Decide(Verdict(LlmReplied(JObj(m)))) == (if s >= 0.6 then Keep(Some(s)) else Drop)
  {
    VerdictDefaults(m);
  }

  // ---------------------------------------------------------------------------
  // The relevance loop  (main.py:88-103)
  // ---------------------------------------------------------------------------

  /** The relevance check of one search result for an argument. */
  function Verification(scorer: Scorer, content: string, v: VideoSuggestion): Json
  {
    Verdict(scorer(content, v.title, PromptDescription(v.description.GetOr(""))))
  }

  function DecisionFor(scorer: Scorer, content: string, v: VideoSuggestion): Decision
  {
    Decide(Verification(scorer, content, v))
  }

  /** The decision for every search result of one argument. */
  function Check(scorer: Scorer, content: string): VideoSuggestion -> Decision
  {
    v => DecisionFor(scorer, content, v)
  }

  /** The kept results, rescored and in search order, or the exception that ends the task. */
  function Screen(check: VideoSuggestion -> Decision, raw: seq<VideoSuggestion>): (r: Result<seq<VideoSuggestion>>)
    ensures r.Ok? ==> |r.value| <= |raw|
  {
    if raw == [] then Ok([])
    else
      var init := Screen(check, raw[..|raw| - 1]);
      var v := raw[|raw| - 1];
      if init.Raised? then init
      else
        match check(v)
        case Fail => Raised("TypeError")
        case Drop => init
        case Keep(s) => Ok(init.value + [v.(relevanceScore := s)])
  }

  /** `v` is one of `raw`, kept with the score its relevance check gave it. */
  predicate KeptFrom(v: VideoSuggestion, raw: seq<VideoSuggestion>, check: VideoSuggestion -> Decision)
  {
    exists j :: 0 <= j < |raw| && check(raw[j]) == Keep(v.relevanceScore)
                && v == raw[j].(relevanceScore := v.relevanceScore)
  }

  /** The loop completes exactly when no relevance check leads to an exception. */
  lemma {:induction false} ScreenOkIff(check: VideoSuggestion -> Decision, raw: seq<VideoSuggestion>)
    ensures Screen(check, raw).Ok? <==>
            forall j :: 0 <= j < |raw| ==> !check(raw[j]).Fail?
  {
    if raw != [] {
      var init := raw[..|raw| - 1];
      ScreenOkIff(check, init);
      assert forall j :: 0 <= j < |init| ==> init[j] == raw[j];
    }
  }

  /** Every kept result is a search result with only its score changed, to the one its check gave it. */
  lemma {:induction false} ScreenKeptFrom(check: VideoSuggestion -> Decision, raw: seq<VideoSuggestion>)
    requires Screen(check, raw).Ok?
    ensures var kept := Screen(check, raw).value;
            |kept| <= |raw| && forall k :: 0 <= k < |kept| ==> KeptFrom(kept[k], raw, check)
  {
    if raw != [] {
      var init := raw[..|raw| - 1];
      ScreenKeptFrom(check, init);
      var kept := Screen(check, raw).value;
      var keptInit := Screen(check, init).value;
      forall k | 0 <= k < |kept| ensures KeptFrom(kept[k], raw, check) {
        if k < |keptInit| {
          assert kept[k] == keptInit[k];
          var j :| 0 <= j < |init| && check(init[j]) == Keep(kept[k].relevanceScore)
                   && kept[k] == init[j].(relevanceScore := kept[k].relevanceScore);
          assert init[j] == raw[j];
        } else {
          assert raw[|raw| - 1].(relevanceScore := kept[k].relevanceScore) == kept[k];
        }
      }
    }
  }

  /** The positions of the results whose check keeps them, in search order. */
  function KeptIndices(check: VideoSuggestion -> Decision, raw: seq<VideoSuggestion>): seq<int>
  {
    if raw == [] then []
    else KeptIndices(check, raw[..|raw| - 1]) + (if check(raw[|raw| - 1]).Keep? then [|raw| - 1] else [])
  }

  /** `idx` lists, in increasing order, exactly the positions of `raw` whose check keeps the result. */
  predicate KeptPositions(idx: seq<int>, raw: seq<VideoSuggestion>, check: VideoSuggestion -> Decision)
  {
    && (forall k :: 0 <= k < |idx| ==> 0 <= idx[k] < |raw| && check(raw[idx[k]]).Keep?)
    && (forall k, l :: 0 <= k < l < |idx| ==> idx[k] < idx[l])
    && (forall j :: 0 <= j < |raw| && check(raw[j]).Keep? ==> j in idx)
  }

  /** Kept video k is result idx[k] with the score its check gave. */
  predicate RescoredAt(kept: seq<VideoSuggestion>, raw: seq<VideoSuggestion>, check: VideoSuggestion -> Decision, idx: seq<int>)
  {
    && |idx| == |kept|
    && forall k :: 0 <= k < |idx| ==>
         0 <= idx[k] < |raw| && check(raw[idx[k]]).Keep?
         && kept[k] == raw[idx[k]].(relevanceScore := check(raw[idx[k]]).score)
  }

  /** `kept` is `raw` filtered by the checks, in search order, and rescored. */
  predicate SelectedBy(kept: seq<VideoSuggestion>, raw: seq<VideoSuggestion>, check: VideoSuggestion -> Decision, idx: seq<int>)
  {
    KeptPositions(idx, raw, check) && RescoredAt(kept, raw, check, idx)
  }

  lemma {:induction false} KeptIndicesPositions(check: VideoSuggestion -> Decision, raw: seq<VideoSuggestion>)
    ensures KeptPositions(KeptIndices(check, raw), raw, check)
  {
    if raw != [] {
      var n := |raw| - 1;
      var init := raw[..n];
      KeptIndicesPositions(check, init);
      var idx0 := KeptIndices(check, init);
      var idx := KeptIndices(check, raw);
      assert forall j :: 0 <= j < n ==> init[j] == raw[j];
      if check(raw[n]).Keep? {
        assert idx == idx0 + [n];
        assert forall k :: 0 <= k < |idx0| ==> idx[k] == idx0[k];
        assert idx[|idx0|] == n;
      } else {
        assert idx == idx0 + [] == idx0;
      }
    }
  }

  lemma {:induction false} ScreenRescoredAt(check: VideoSuggestion -> Decision, raw: seq<VideoSuggestion>)
    requires Screen(check, raw).Ok?
    ensures RescoredAt(Screen(check, raw).value, raw, check, KeptIndices(check, raw))
  {
    if raw != [] {
      var n := |raw| - 1;
      var init := raw[..n];
      var v := raw[n];
      assert Screen(check, init).Ok?;
      ScreenRescoredAt(check, init);
      var kept0 := Screen(check, init).value;
      var idx0 := KeptIndices(check, init);
      var kept := Screen(check, raw).value;
      var idx := KeptIndices(check, raw);
      var tail := if check(v).Keep? then [v.(relevanceScore := check(v).score)] else [];
      assert idx == idx0 + (if check(v).Keep? then [n] else []);
      assert kept == kept0 + tail;
      forall k | 0 <= k < |idx0|
        ensures 0 <= idx[k] < |raw| && check(raw[idx[k]]).Keep?
        ensures kept[k] == raw[idx[k]].(relevanceScore := check(raw[idx[k]]).score)
      {
        assert idx[k] == idx0[k] && kept[k] == kept0[k];
        assert raw[idx0[k]] == init[idx0[k]];
      }
    }
  }

  /** A completed loop keeps exactly the results its checks keep, in search order, each with its new score. */
  lemma ScreenSelects(check: VideoSuggestion -> Decision, raw: seq<VideoSuggestion>)
    requires Screen(check, raw).Ok?
    ensures SelectedBy(Screen(check, raw).value, raw, check, KeptIndices(check, raw))
  {
    KeptIndicesPositions(check, raw);
    ScreenRescoredAt(check, raw);
  }

  /** When every check keeps its result, all results are kept in order with their new scores. */
  lemma {:induction false} ScreenKeepsAll(check: VideoSuggestion -> Decision, raw: seq<VideoSuggestion>)
    requires forall j :: 0 <= j < |raw| ==> check(raw[j]).Keep?
    ensures Screen(check, raw).Ok?
    ensures var kept := Screen(check, raw).value;
            |kept| == |raw|
            && forall j :: 0 <= j < |raw| ==>
                 kept[j] == raw[j].(relevanceScore := check(raw[j]).score)
  {
    if raw != [] {
      var init := raw[..|raw| - 1];
      assert forall j :: 0 <= j < |init| ==> init[j] == raw[j];
      ScreenKeepsAll(check, init);
    }
  }

  /** A scorer that always fails lets every search result through with score 0.65. */
  lemma FailingScorerKeepsAll(scorer: Scorer, content: string, raw: seq<VideoSuggestion>)
    requires forall j :: 0 <= j < |raw| ==>
               scorer(content, raw[j].title, PromptDescription(raw[j].description.GetOr(""))).LlmFailed?
    ensures Screen(Check(scorer, content), raw).Ok?
    ensures var kept := Screen(Check(scorer, content), raw).value;
            |kept| == |raw| && forall j :: 0 <= j < |raw| ==> kept[j] == raw[j].(relevanceScore := Some(0.65))
  {
    forall j | 0 <= j < |raw| ensures Check(scorer, content)(raw[j]) == Keep(Some(0.65)) {
      NeutralVerdictKept(scorer(content, raw[j].title, PromptDescription(raw[j].description.GetOr(""))).message);
    }
    ScreenKeepsAll(Check(scorer, content), raw);
  }

  /** An exception part-way through is the outcome of the whole loop. */
  lemma {:induction false} ScreenSettled(check: VideoSuggestion -> Decision, raw: seq<VideoSuggestion>, i: nat)
    requires 0 < i <= |raw| && Screen(check, raw[..i]).Raised?
    ensures Screen(check, raw) == Screen(check, raw[..i])
    decreases |raw| - i
  {
    if i < |raw| {
      assert raw[..i + 1][..i] == raw[..i];
      ScreenSettled(check, raw, i + 1);
    } else {
      assert raw[..i] == raw;
    }
  }

  // ---------------------------------------------------------------------------
  // Fallback, sort and truncation  (main.py:108-116)
  // ---------------------------------------------------------------------------

  /** The kept results, or the top search result with the neutral score 0.5 when none was kept. */
  function Pool(kept: seq<VideoSuggestion>, raw: seq<VideoSuggestion>): (pool: seq<VideoSuggestion>)
    ensures kept != [] ==> pool == kept
    ensures pool == [] <==> kept == [] && raw == []
    ensures |pool| <= |kept| + 1
  {
    if kept == [] && raw != [] then [raw[0].(relevanceScore := Some(FallbackScore))] else kept
  }

  /** `v.relevance_score or 0` */
  function Key(v: VideoSuggestion): real
  {
    v.relevanceScore.GetOr(0.0)
  }

  predicate SortedDesc(s: seq<VideoSuggestion>)
  {
    forall i, j :: 0 <= i < j < |s| ==> Key(s[i]) >= Key(s[j])
  }

  /** The elements of `s` whose key is `k`, in order: what a stable sort must not reorder. */
  function WithKey(s: seq<VideoSuggestion>, k: real): seq<VideoSuggestion>
  {
    if s == [] then [] else (if Key(s[0]) == k then [s[0]] else []) + WithKey(s[1..], k)
  }

  /** Insert `x` before the first element whose key is not above its own. */
  function InsertByKey(x: VideoSuggestion, t: seq<VideoSuggestion>): (r: seq<VideoSuggestion>)
    ensures |r| == |t| + 1
  {
    if t == [] || Key(t[0]) <= Key(x) then [x] + t else [t[0]] + InsertByKey(x, t[1..])
  }

  /** `list.sort(key=lambda v: v.relevance_score or 0, reverse=True)`, which is stable. */
  function SortDesc(s: seq<VideoSuggestion>): (r: seq<VideoSuggestion>)
    ensures |r| == |s|
  {
    if s == [] then [] else InsertByKey(s[0], SortDesc(s[1..]))
  }

  lemma {:induction false} InsertByKeyMultiset(x: VideoSuggestion, t: seq<VideoSuggestion>)
    ensures multiset(InsertByKey(x, t)) == multiset{x} + multiset(t)
  {
    if t != [] && Key(t[0]) > Key(x) {
      InsertByKeyMultiset(x, t[1..]);
      assert t == [t[0]] + t[1..];
    }
  }

  lemma SortedTail(t: seq<VideoSuggestion>)
    requires t != [] && SortedDesc(t)
    ensures SortedDesc(t[1..])
    ensures forall j :: 0 <= j < |t[1..]| ==> Key(t[0]) >= Key(t[1..][j])
  {
    forall i, j | 0 <= i < j < |t[1..]| ensures Key(t[1..][i]) >= Key(t[1..][j]) {
      assert t[1..][i] == t[i + 1] && t[1..][j] == t[j + 1];
    }
    forall j | 0 <= j < |t[1..]| ensures Key(t[0]) >= Key(t[1..][j]) {
      assert t[1..][j] == t[j + 1];
    }
  }

  /** Prepending an element whose key is at least every key of a sorted list keeps it sorted. */
  lemma SortedCons(x: VideoSuggestion, t: seq<VideoSuggestion>)
    requires SortedDesc(t)
    requires forall e :: e in multiset(t) ==> Key(x) >= Key(e)
    ensures SortedDesc([x] + t)
  {
    var r := [x] + t;
    forall i, j | 0 <= i < j < |r| ensures Key(r[i]) >= Key(r[j]) {
      assert r[j] == t[j - 1];
      if i > 0 {
        assert r[i] == t[i - 1];
      } else {
        assert t[j - 1] in multiset(t);
      }
    }
  }

  lemma {:induction false} InsertByKeySorted(x: VideoSuggestion, t: seq<VideoSuggestion>)
    requires SortedDesc(t)
    ensures SortedDesc(InsertByKey(x, t))
  {
    if t == [] || Key(t[0]) <= Key(x) {
      forall e | e in multiset(t) ensures Key(x) >= Key(e) {
        var m :| 0 <= m < |t| && t[m] == e;
      }
      SortedCons(x, t);
    } else {
      SortedTail(t);
      InsertByKeySorted(x, t[1..]);
      InsertByKeyMultiset(x, t[1..]);
      var rest := InsertByKey(x, t[1..]);
      forall e | e in multiset(rest) ensures Key(t[0]) >= Key(e) {
        if e != x {
          assert e in multiset(t[1..]);
          var m :| 0 <= m < |t[1..]| && t[1..][m] == e;
        }
      }
      SortedCons(t[0], rest);
    }
  }

  /** Inserting into a sorted list puts `x` ahead of the elements with its key, which is where a stable sort puts the first of them. */
  lemma {:induction false} InsertByKeyStable(x: VideoSuggestion, t: seq<VideoSuggestion>, k: real)
    requires SortedDesc(t)
    ensures WithKey(InsertByKey(x, t), k) == (if Key(x) == k then [x] else []) + WithKey(t, k)
  {
    if t != [] && Key(t[0]) > Key(x) {
      SortedTail(t);
      InsertByKeyStable(x, t[1..], k);
    }
  }

  /** The sort orders by descending key, keeps every element and keeps equal keys in their original order. */
  lemma {:induction false} SortDescProperties(s: seq<VideoSuggestion>)
    ensures var r := SortDesc(s);
            && SortedDesc(r)
            && multiset(r) == multiset(s)
            && |r| == |s|
            && forall k :: WithKey(r, k) == WithKey(s, k)
  {
    if s != [] {
      SortDescProperties(s[1..]);
      InsertByKeySorted(s[0], SortDesc(s[1..]));
      InsertByKeyMultiset(s[0], SortDesc(s[1..]));
      forall k ensures WithKey(SortDesc(s), k) == WithKey(s, k) {
        InsertByKeyStable(s[0], SortDesc(s[1..]), k);
      }
      assert s == [s[0]] + s[1..];
      var r := SortDesc(s);
      assert |r| == |multiset(r)| == |multiset(s)| == |s|;
    }
  }

  predicate IsPrefix(a: seq<VideoSuggestion>, b: seq<VideoSuggestion>)
  {
    |a| <= |b| && a == b[..|a|]
  }

  /** Cutting a list keeps, for every key, a prefix of the elements with that key. */
  lemma {:induction false} WithKeyTake(s: seq<VideoSuggestion>, n: nat, c: real)
    requires n <= |s|
    ensures IsPrefix(WithKey(s[..n], c), WithKey(s, c))
  {
    if n > 0 {
      var t := s[..n];
      assert t[0] == s[0] && t[1..] == s[1..][..n - 1];
      WithKeyTake(s[1..], n - 1, c);
      var h := if Key(s[0]) == c then [s[0]] else [];
      var a, b := WithKey(t[1..], c), WithKey(s[1..], c);
      assert WithKey(t, c) == h + a && WithKey(s, c) == h + b;
      assert (h + b)[..|h + a|] == h + b[..|a|];
    }
  }

  /** `verified_videos[:2]` */
  function Top(s: seq<VideoSuggestion>): (r: seq<VideoSuggestion>)
    ensures |r| == (if |s| <= MaxSuggestions then |s| else MaxSuggestions)
    ensures r == s[..|r|]
  {
    if |s| <= MaxSuggestions then s else s[..MaxSuggestions]
  }

  /** Among videos with equal keys, the two picked come first in the pool's order: the sort is stable and the cut keeps a prefix. */
  lemma TopKeepsTies(pool: seq<VideoSuggestion>)
    ensures forall c :: IsPrefix(WithKey(Top(SortDesc(pool)), c), WithKey(pool, c))
  {
    var sorted := SortDesc(pool);
    SortDescProperties(pool);
    assert Top(sorted) == sorted[..|Top(sorted)|];
    forall c ensures IsPrefix(WithKey(Top(sorted), c), WithKey(pool, c)) {
      WithKeyTake(sorted, |Top(sorted)|, c);
    }
  }

  /** Of a sorted list, the first two are the best: nothing left behind has a higher key. */
  lemma TopIsBest(s: seq<VideoSuggestion>)
    requires SortedDesc(s)
    ensures var top := Top(s);
            && |top| <= 2 && (|top| == 2 || |top| == |s|)
            && SortedDesc(top)
            && multiset(top) <= multiset(s)
            && forall v, w :: v in top && w in multiset(s) - multiset(top) ==> Key(v) >= Key(w)
  {
    var n := |Top(s)|;
    SplitSorted(s, n);
    SplitMultiset(s, n);
  }

  lemma SplitSorted(s: seq<VideoSuggestion>, n: nat)
    requires SortedDesc(s) && n <= |s|
    ensures SortedDesc(s[..n])
    ensures forall v, w :: v in s[..n] && w in s[n..] ==> Key(v) >= Key(w)
  {
    forall i, j | 0 <= i < j < n ensures Key(s[..n][i]) >= Key(s[..n][j]) {
      assert s[..n][i] == s[i] && s[..n][j] == s[j];
    }
    forall v, w | v in s[..n] && w in s[n..] ensures Key(v) >= Key(w) {
      var i :| 0 <= i < n && s[..n][i] == v;
      var j :| 0 <= j < |s| - n && s[n..][j] == w;
      assert s[i] == v && s[n + j] == w;
    }
  }

  lemma SplitMultiset(s: seq<VideoSuggestion>, n: nat)
    requires n <= |s|
    ensures multiset(s[..n]) <= multiset(s)
    ensures multiset(s) - multiset(s[..n]) == multiset(s[n..])
  {
    assert s == s[..n] + s[n..];
  }

  // ---------------------------------------------------------------------------
  // process_counter_argument  (main.py:78-124)
  // ---------------------------------------------------------------------------

  /** How one argument's task ends: an empty query, an exception caught by the task, or the videos attached. */
  datatype Outcome = Skipped | TaskFailed | Suggested(videos: seq<VideoSuggestion>)

  /** What the task for `arg` ends with; the search and the scorer are parameters. */
  function Suggestions(provider: Search.Provider, scorer: Scorer, arg: CounterArgument): (o: Outcome)
    ensures o.Skipped? <==> arg.youtubeQuery == []
  {
    if arg.youtubeQuery == [] then Skipped
    else
      var raw := Search.SearchResults(arg.youtubeQuery, SearchLimit, provider);
      match Screen(Check(scorer, arg.content), raw)
      case Raised(_) => TaskFailed
      case Ok(kept) => Suggested(Top(SortDesc(Pool(kept, raw))))
  }

  /** `argument.suggested_videos = ...` happens only when the task gets that far. */
  function Attach(arg: CounterArgument, o: Outcome): CounterArgument
  {
    if o.Suggested? then arg.(suggestedVideos := o.videos) else arg
  }

  /** The two best of a pool, sorted: none outranked by an element left out. */
  lemma BestTwo(pool: seq<VideoSuggestion>)
    ensures var videos := Top(SortDesc(pool));
            && |videos| <= 2
            && (videos != [] <==> pool != [])
            && SortedDesc(videos)
            && multiset(videos) <= multiset(pool)
            && (forall v, w :: v in videos && w in multiset(pool) - multiset(videos) ==> Key(v) >= Key(w))
  {
    SortDescProperties(pool);
    TopIsBest(SortDesc(pool));
  }

  /**
    The pick from screened results: at most two videos, sorted by relevance,
    none outranked by a video left out; at least one exactly when there were
    results; each a result rescored by the check or, when the check kept
    nothing, the first result with score 0.5.
  */
  lemma PickProperties(check: VideoSuggestion -> Decision, raw: seq<VideoSuggestion>)
    requires Screen(check, raw).Ok?
    ensures var kept := Screen(check, raw).value;
            var pool := Pool(kept, raw);
            var videos := Top(SortDesc(pool));
            && |videos| <= 2
            && (videos != [] <==> raw != [])
            && SortedDesc(videos)
            && multiset(videos) <= multiset(pool)
            && (forall v, w :: v in videos && w in multiset(pool) - multiset(videos) ==> Key(v) >= Key(w))
            && (kept != [] ==> forall k :: 0 <= k < |videos| ==> KeptFrom(videos[k], raw, check))
            && (kept == [] ==> raw == [] || videos == [raw[0].(relevanceScore := Some(0.5))])
    ensures SelectedBy(Screen(check, raw).value, raw, check, KeptIndices(check, raw))
    ensures forall c :: IsPrefix(WithKey(Top(SortDesc(Pool(Screen(check, raw).value, raw))), c),
                                 WithKey(Pool(Screen(check, raw).value, raw), c))
  {
    var kept := Screen(check, raw).value;
    var pool := Pool(kept, raw);
    var videos := Top(SortDesc(pool));
    ScreenKeptFrom(check, raw);
    ScreenSelects(check, raw);
    BestTwo(pool);
    TopKeepsTies(pool);
    if kept != [] {
      forall k | 0 <= k < |videos| ensures KeptFrom(videos[k], raw, check) {
        assert videos[k] in multiset(pool);
      }
    }
  }

  /**
    What a completed task attaches: the pick above, from at most three search
    results; outranked by nothing left out; each a search result rescored by
    its check or, when no check kept anything, the top search result with
    score 0.5.
  */
  lemma SuggestionsProperties(provider: Search.Provider, scorer: Scorer, arg: CounterArgument)
    requires Suggestions(provider, scorer, arg).Suggested?
    ensures var raw := Search.SearchResults(arg.youtubeQuery, SearchLimit, provider);
            var kept := Screen(Check(scorer, arg.content), raw).value;
            var pool := Pool(kept, raw);
            var videos := Suggestions(provider, scorer, arg).videos;
            && Screen(Check(scorer, arg.content), raw).Ok?
            && |videos| <= 2 && |raw| <= 3
            && (videos != [] <==> raw != [])
            && SortedDesc(videos)
            && multiset(videos) <= multiset(pool)
            && (forall v, w :: v in videos && w in multiset(pool) - multiset(videos) ==> Key(v) >= Key(w))
            && (kept != [] ==> forall k :: 0 <= k < |videos| ==> KeptFrom(videos[k], raw, Check(scorer, arg.content)))
            && (kept == [] ==> raw == [] || videos == [raw[0].(relevanceScore := Some(0.5))])
  {
    var raw := Search.SearchResults(arg.youtubeQuery, SearchLimit, provider);
    Search.SearchResultsProperties(arg.youtubeQuery, SearchLimit, provider);
    PickProperties(Check(scorer, arg.content), raw);
  }

  /** One more result on a loop that has not raised. */
  lemma ScreenStep(check: VideoSuggestion -> Decision, raw: seq<VideoSuggestion>, i: nat)
    requires i < |raw| && Screen(check, raw[..i]).Ok?
    ensures check(raw[i]).Fail? ==> Screen(check, raw[..i + 1]) == Raised("TypeError")
    ensures check(raw[i]).Drop? ==> Screen(check, raw[..i + 1]) == Screen(check, raw[..i])
    ensures check(raw[i]).Keep? ==>
              Screen(check, raw[..i + 1]) == Ok(Screen(check, raw[..i]).value + [raw[i].(relevanceScore := check(raw[i]).score)])
  {
    assert raw[..i + 1][..i] == raw[..i];
    assert raw[..i + 1][i] == raw[i];
  }

  /** The relevance loop of `process_counter_argument` over the search results. */
  method ScreenResults(scorer: Scorer, content: string, raw: seq<VideoSuggestion>)
    returns (r: Result<seq<VideoSuggestion>>)
    ensures r == Screen(Check(scorer, content), raw)
  {
    var verified: seq<VideoSuggestion> := [];
    var i := 0;
    while i < |raw|
      invariant 0 <= i <= |raw|
      invariant Screen(Check(scorer, content), raw[..i]) == Ok(verified)
    {
      ScreenStep(Check(scorer, content), raw, i);
      var video := raw[i];
      var verification := VerifyRelevance(scorer, content, video.title, video.description.GetOr(""));
      assert Decide(verification) == Check(scorer, content)(video);
      match Decide(verification) {
        case Fail =>
          ScreenSettled(Check(scorer, content), raw, i + 1);
          return Raised("TypeError");
        case Drop =>
        case Keep(score) =>
          verified := verified + [video.(relevanceScore := score)];
      }
      i := i + 1;
    }
    assert raw[..i] == raw;
    r := Ok(verified);
  }

  /** `process_counter_argument`: search, check each result, fall back, sort and cut to two. */
  method ProcessCounterArgument(provider: Search.Provider, scorer: Scorer, arg: CounterArgument)
    returns (o: Outcome)
    ensures o == Suggestions(provider, scorer, arg)
  {
    var query := arg.youtubeQuery;
    if query == [] {
      return Skipped;
    }
    var raw := Search.SearchVideos(query, SearchLimit, provider);
    var screened := ScreenResults(scorer, arg.content, raw);
    if screened.Raised? {
      return TaskFailed;
    }
    var verified := screened.value;
    if verified == [] && raw != [] {
      verified := [raw[0].(relevanceScore := Some(FallbackScore))];
    }
    o := Suggested(Top(SortDesc(verified)));
  }

  /** The arguments after every task has run: each one with its own outcome attached. */
  function AttachAll(provider: Search.Provider, scorer: Scorer, args: seq<CounterArgument>): (updated: seq<CounterArgument>)
    ensures |updated| == |args|
  {
    if args == [] then []
    else
      var last := args[|args| - 1];
      AttachAll(provider, scorer, args[..|args| - 1]) + [Attach(last, Suggestions(provider, scorer, last))]
  }

  /** Argument i of the result depends on argument i alone. */
  lemma {:induction false} AttachAllPointwise(provider: Search.Provider, scorer: Scorer, args: seq<CounterArgument>)
    ensures forall i :: 0 <= i < |args| ==>
              AttachAll(provider, scorer, args)[i] == Attach(args[i], Suggestions(provider, scorer, args[i]))
  {
    if args != [] {
      var init := args[..|args| - 1];
      AttachAllPointwise(provider, scorer, init);
      assert forall i :: 0 <= i < |init| ==> init[i] == args[i];
    }
  }

  /** The `asyncio.gather` over all arguments, run one task after another. */
  method AttachSuggestions(provider: Search.Provider, scorer: Scorer, args: seq<CounterArgument>)
    returns (updated: seq<CounterArgument>)
    ensures updated == AttachAll(provider, scorer, args)
  {
    updated := [];
    var i := 0;
    while i < |args|
      invariant 0 <= i <= |args|
      invariant updated == AttachAll(provider, scorer, args[..i])
    {
      var o := ProcessCounterArgument(provider, scorer, args[i]);
      assert args[..i + 1][..i] == args[..i];
      updated := updated + [Attach(args[i], o)];
      i := i + 1;
    }
    assert args[..i] == args;
  }

  /**
    Failure isolation: an argument whose query is empty or whose task raised
    comes back unchanged; any other comes back with only its suggested videos
    replaced, by at most two.
  */
  lemma AttachIsolated(provider: Search.Provider, scorer: Scorer, arg: CounterArgument)
    ensures var o := Suggestions(provider, scorer, arg);
            var a := Attach(arg, o);
            && (!o.Suggested? ==> a == arg)
            && a.(suggestedVideos := arg.suggestedVideos) == arg
            && (o.Suggested? ==> |a.suggestedVideos| <= 2)
  {
    if Suggestions(provider, scorer, arg).Suggested? {
      SuggestionsProperties(provider, scorer, arg);
    }
  }

  /** Arguments produced by generate_analysis always have a query, so no task is skipped. */
  lemma GeneratedArgumentsAreSearched(reply: LlmReply, videoUrl: string, provider: Search.Provider, scorer: Scorer)
    requires Analysis(reply, videoUrl).Ok?
    ensures var args := Analysis(reply, videoUrl).value.counterArguments;
            forall i :: 0 <= i < |args| ==> !Suggestions(provider, scorer, args[i]).Skipped?
  {
    AnalysisQueriesNotBlank(reply, videoUrl);
  }
}
