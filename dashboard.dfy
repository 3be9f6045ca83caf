/**
  app.py: the dashboard's computed values — the number of suggested videos,
  the sentiment histogram of the claims, the numbered list of at most 15
  claims and the assignment of videos to grid columns.  Like the results page
  it reads the JSON of the API's response.
*/
module Dashboard {
  import opened Wrappers
  import opened PyJson
  import opened Models
  import Pipeline
  import YouTubeSearch
  import Reasoning

  // ---------------------------------------------------------------------------
  // Total videos  (app.py:379)
  // ---------------------------------------------------------------------------

  /** The number of videos one argument contributes: an absent list counts 0, and `len(None)` raises. */
  function VideoCount(suggested: Field<seq<VideoSuggestion>>): Result<nat>
  {
    match suggested
    case Absent => Ok(0)
    case Null => Raised("TypeError")
    case Has(vs) => Ok(|vs|)
  }

  /** `sum(len(c.get('suggested_videos', [])) for c in counter_arguments)` */
  function TotalVideos(lists: seq<Field<seq<VideoSuggestion>>>): Result<nat>
  {
    if lists == [] then Ok(0)
    else
      match (TotalVideos(lists[..|lists| - 1]), VideoCount(lists[|lists| - 1]))
      case (Ok(total), Ok(n)) => Ok(total + n)
      case (Raised(m), _) => Raised(m)
      case (_, Raised(m)) => Raised(m)
  }

  /** The length of a present list; an absent list, and a null one, contribute nothing. */
  function ListLength(suggested: Field<seq<VideoSuggestion>>): nat
  {
    match suggested
    case Has(vs) => |vs|
    case _ => 0
  }

  /** The reference total: the sum of the present lists' lengths. */
  function LengthSum(lists: seq<Field<seq<VideoSuggestion>>>): nat
  {
    if lists == [] then 0 else ListLength(lists[0]) + LengthSum(lists[1..])
  }

  lemma {:induction false} LengthSumSnoc(lists: seq<Field<seq<VideoSuggestion>>>)
    requires lists != []
    ensures LengthSum(lists) == LengthSum(lists[..|lists| - 1]) + ListLength(lists[|lists| - 1])
    decreases |lists|
  {
    if |lists| > 1 {
      var tail := lists[1..];
      assert tail[..|tail| - 1] == lists[..|lists| - 1][1..];
      assert tail[|tail| - 1] == lists[|lists| - 1];
      LengthSumSnoc(tail);
    }
  }

  /** The total raises exactly when some argument's list is null; otherwise an absent list counts 0 and a present one its length. */
  lemma {:induction false} TotalVideosDefaults(lists: seq<Field<seq<VideoSuggestion>>>)
    ensures TotalVideos(lists).Ok? <==> forall i :: 0 <= i < |lists| ==> !lists[i].Null?
    ensures TotalVideos(lists).Ok? ==> TotalVideos(lists).value == LengthSum(lists)
  {
    if lists != [] {
      var init := lists[..|lists| - 1];
      var last := lists[|lists| - 1];
      TotalVideosDefaults(init);
      LengthSumSnoc(lists);
      assert forall i :: 0 <= i < |init| ==> init[i] == lists[i];
    }
  }

  /** Sum of the list lengths of the arguments. */
  function SuggestedTotal(args: seq<CounterArgument>): nat
  {
    if args == [] then 0 else SuggestedTotal(args[..|args| - 1]) + |args[|args| - 1].suggestedVideos|
  }

  function Lists(args: seq<CounterArgument>): (ls: seq<Field<seq<VideoSuggestion>>>)
    ensures |ls| == |args| && forall i :: 0 <= i < |args| ==> ls[i] == Has(args[i].suggestedVideos)
  {
    seq(|args|, i requires 0 <= i < |args| => Has(args[i].suggestedVideos))
  }

  /** The total splits over any division of the arguments into two runs. */
  lemma {:induction false} TotalVideosAdditive(a: seq<Field<seq<VideoSuggestion>>>, b: seq<Field<seq<VideoSuggestion>>>)
    requires TotalVideos(a).Ok? && TotalVideos(b).Ok?
    ensures TotalVideos(a + b) == Ok(TotalVideos(a).value + TotalVideos(b).value)
    decreases |b|
  {
    if b == [] {
      assert a + b == a;
    } else {
      var b0 := b[..|b| - 1];
      assert (a + b)[..|a + b| - 1] == a + b0;
      assert (a + b)[|a + b| - 1] == b[|b| - 1];
      TotalVideosAdditive(a, b0);
    }
  }

  /** For the response's arguments, where every list is present, the total is the sum of their lengths. */
  lemma {:induction false} TotalOfResponse(args: seq<CounterArgument>)
    ensures TotalVideos(Lists(args)) == Ok(SuggestedTotal(args))
  {
    if args != [] {
      var init := args[..|args| - 1];
      TotalOfResponse(init);
      assert Lists(args)[..|args| - 1] == Lists(init);
    }
  }

  /** After the pipeline has attached suggestions to every argument, there are at most two videos per argument. */
  lemma {:induction false} TotalAfterPipeline(provider: YouTubeSearch.Provider, scorer: Reasoning.Scorer, args: seq<CounterArgument>)
    requires forall i :: 0 <= i < |args| ==> Pipeline.Suggestions(provider, scorer, args[i]).Suggested?
    ensures SuggestedTotal(Pipeline.AttachAll(provider, scorer, args)) <= 2 * |args|
  {
    if args != [] {
      var init := args[..|args| - 1];
      TotalAfterPipeline(provider, scorer, init);
      assert Pipeline.AttachAll(provider, scorer, args)[..|args| - 1] == Pipeline.AttachAll(provider, scorer, init);
      Pipeline.AttachIsolated(provider, scorer, args[|args| - 1]);
    }
  }

  // ---------------------------------------------------------------------------
  // Sentiment histogram  (app.py:388-394)
  // ---------------------------------------------------------------------------

  /** `claim.get('sentiment', 'neutral')`: the default applies to an absent key; a null is counted under None. */
  function SentimentKey(sentiment: Field<string>): Option<string>
  {
    match sentiment
    case Absent => Some("neutral")
    case Null => None
    case Has(s) => Some(s)
  }

  function Keys(sentiments: seq<Field<string>>): (ks: seq<Option<string>>)
    ensures |ks| == |sentiments| && forall i :: 0 <= i < |ks| ==> ks[i] == SentimentKey(sentiments[i])
  {
    seq(|sentiments|, i requires 0 <= i < |sentiments| => SentimentKey(sentiments[i]))
  }

  function Occurrences<K(==)>(ks: seq<K>, k: K): nat
  {
    if ks == [] then 0 else Occurrences(ks[..|ks| - 1], k) + (if ks[|ks| - 1] == k then 1 else 0)
  }

  /** A sentiment is counted under its own value, a missing one under "neutral" as well, and a null one under None. */
  lemma {:induction false} SentimentKeyCounts(sentiments: seq<Field<string>>, s: string)
    ensures Occurrences(Keys(sentiments), Some(s))
            == Occurrences(sentiments, Has(s)) + (if s == "neutral" then Occurrences(sentiments, Absent) else 0)
    ensures Occurrences(Keys(sentiments), None) == Occurrences(sentiments, Null)
  {
    if sentiments != [] {
      var n := |sentiments| - 1;
      SentimentKeyCounts(sentiments[..n], s);
      assert Keys(sentiments)[..n] == Keys(sentiments[..n]);
    }
  }

  /** The distinct keys in order of first occurrence: the order of a dict's keys. */
  function FirstOccurrences<K(==)>(ks: seq<K>): seq<K>
  {
    if ks == [] then []
    else
      var init := FirstOccurrences(ks[..|ks| - 1]);
      if ks[|ks| - 1] in init then init else init + [ks[|ks| - 1]]
  }

  predicate NoDuplicates<K(==)>(ks: seq<K>)
  {
    forall i, j :: 0 <= i < j < |ks| ==> ks[i] != ks[j]
  }

  /** The first occurrences are exactly the keys that occur, each once. */
  lemma {:induction false} FirstOccurrencesProperties<K>(ks: seq<K>)
    ensures NoDuplicates(FirstOccurrences(ks))
    ensures forall k :: k in FirstOccurrences(ks) <==> k in ks
  {
    if ks != [] {
      var init := ks[..|ks| - 1];
      FirstOccurrencesProperties(init);
      assert ks == init + [ks[|ks| - 1]];
      var f := FirstOccurrences(ks);
      var f0 := FirstOccurrences(init);
      if ks[|ks| - 1] !in f0 {
        forall i, j | 0 <= i < j < |f| ensures f[i] != f[j] {
          if j == |f0| {
            assert f[i] == f0[i];
          } else {
            assert f[i] == f0[i] && f[j] == f0[j];
          }
        }
      }
    }
  }

  /** The dict the tally loop builds, one increment per key. */
  function Tally<K(==)>(ks: seq<K>): map<K, nat>
  {
    if ks == [] then map[]
    else
      var m := Tally(ks[..|ks| - 1]);
      var k := ks[|ks| - 1];
      m[k := (if k in m then m[k] else 0) + 1]
  }

  /** The sum of the counts, over the dict's keys. */
  function Total<K(==)>(keys: seq<K>, counts: map<K, nat>): nat
    requires forall k :: k in keys ==> k in counts
  {
    if keys == [] then 0 else Total(keys[..|keys| - 1], counts) + counts[keys[|keys| - 1]]
  }

  lemma {:induction false} TotalIncrement<K>(keys: seq<K>, counts: map<K, nat>, k: K)
    requires forall x :: x in keys ==> x in counts
    requires NoDuplicates(keys) && k in keys
    ensures Total(keys, counts[k := counts[k] + 1]) == Total(keys, counts) + 1
  {
    var init := keys[..|keys| - 1];
    var last := keys[|keys| - 1];
    assert forall i :: 0 <= i < |init| ==> init[i] == keys[i];
    assert forall x :: x in init ==> x in keys;
    if last == k {
      assert k !in init;
      TotalUnchanged(init, counts, k, counts[k] + 1);
    } else {
      assert k in init;
      TotalIncrement(init, counts, k);
    }
  }

  lemma {:induction false} TotalUnchanged<K>(keys: seq<K>, counts: map<K, nat>, k: K, c: nat)
    requires forall x :: x in keys ==> x in counts
    requires k !in keys
    ensures Total(keys, counts[k := c]) == Total(keys, counts)
  {
    if keys != [] {
      var init := keys[..|keys| - 1];
      assert forall x :: x in init ==> x in keys;
      TotalUnchanged(init, counts, k, c);
    }
  }

  /**
    The tally holds a key exactly when it occurs, counts its occurrences, and
    its counts, summed over the keys in first-occurrence order, add up to the
    number of items.
  */
  lemma {:induction false} TallyProperties<K>(ks: seq<K>)
    ensures forall k :: k in Tally(ks) <==> k in ks
    ensures forall k :: k in Tally(ks) ==> Tally(ks)[k] == Occurrences(ks, k) && Tally(ks)[k] > 0
    ensures forall k :: k in FirstOccurrences(ks) ==> k in Tally(ks)
    ensures Total(FirstOccurrences(ks), Tally(ks)) == |ks|
  {
    FirstOccurrencesProperties(ks);
    if ks != [] {
      var init := ks[..|ks| - 1];
      var k := ks[|ks| - 1];
      TallyProperties(init);
      FirstOccurrencesProperties(init);
      assert ks == init + [k];
      var m := Tally(init);
      var f := FirstOccurrences(init);
      forall x | x in Tally(ks) ensures Tally(ks)[x] == Occurrences(ks, x) && Tally(ks)[x] > 0 {
        if x == k {
          OccurrencesPositive(init, x);
        }
      }
      if k in m {
        TotalIncrement(f, m, k);
      } else {
        TotalUnchanged(f, m, k, 1);
        assert (f + [k])[..|f|] == f;
      }
    }
  }

  /** One more key: it is appended to the keys if new, and its count goes up by one. */
  lemma TallyStep<K>(ks: seq<K>, i: nat)
    requires i < |ks|
    ensures FirstOccurrences(ks[..i + 1])
            == if ks[i] in FirstOccurrences(ks[..i]) then FirstOccurrences(ks[..i]) else FirstOccurrences(ks[..i]) + [ks[i]]
    ensures Tally(ks[..i + 1]) == Tally(ks[..i])[ks[i] := (if ks[i] in Tally(ks[..i]) then Tally(ks[..i])[ks[i]] else 0) + 1]
  {
    assert ks[..i + 1][..i] == ks[..i];
    assert ks[..i + 1][i] == ks[i];
  }

  /**
    The tally loop: `sentiment_counts[sent] = sentiment_counts.get(sent, 0) + 1`.
    The dict is its keys in insertion order and their counts.
  */
  method SentimentCounts(sentiments: seq<Field<string>>) returns (keys: seq<Option<string>>, counts: map<Option<string>, nat>)
    ensures keys == FirstOccurrences(Keys(sentiments)) && counts == Tally(Keys(sentiments))
    ensures NoDuplicates(keys)
    ensures forall k :: k in counts <==> k in Keys(sentiments)
    ensures forall k :: k in counts ==> counts[k] == Occurrences(Keys(sentiments), k) && counts[k] > 0
    ensures forall k :: k in keys ==> k in counts
    ensures Total(keys, counts) == |sentiments|
  {
    ghost var ks := Keys(sentiments);
    keys, counts := [], map[];
    var i := 0;
    while i < |sentiments|
      invariant 0 <= i <= |sentiments|
      invariant keys == FirstOccurrences(ks[..i]) && counts == Tally(ks[..i])
    {
      var sent := SentimentKey(sentiments[i]);
      TallyStep(ks, i);
      if sent !in keys {
        keys := keys + [sent];
      }
      counts := counts[sent := (if sent in counts then counts[sent] else 0) + 1];
      i := i + 1;
    }
    assert ks[..i] == ks;
    TallyProperties(ks);
    FirstOccurrencesProperties(ks);
  }

  /** A key has a positive count exactly when it occurs. */
  lemma {:induction false} OccurrencesPositive<K>(ks: seq<K>, k: K)
    ensures Occurrences(ks, k) > 0 <==> k in ks
  {
    if ks != [] {
      var init := ks[..|ks| - 1];
      OccurrencesPositive(init, k);
      assert ks == init + [ks[|ks| - 1]];
    }
  }

  /** The claims of a response all carry a sentiment string, so no slice of the chart is keyed by None. */
  lemma ResponseHasNoNullSlice(claims: seq<ExtractedClaim>)
    ensures var ks := Keys(seq(|claims|, i requires 0 <= i < |claims| => Has(claims[i].sentiment)));
            None !in ks && forall i :: 0 <= i < |claims| ==> ks[i] == Some(claims[i].sentiment)
  {
  }

  // ---------------------------------------------------------------------------
  // The claims list and the video grid  (app.py:425, 469-471)
  // ---------------------------------------------------------------------------

  const ListedClaims: nat := 15
  const GridColumns: nat := 3

  /** `enumerate(claims[:15], 1)` */
  function Numbered<T>(claims: seq<T>): (r: seq<(nat, T)>)
    ensures |r| <= 15 && |r| == (if |claims| < 15 then |claims| else 15)
    ensures forall i :: 0 <= i < |r| ==> r[i] == (i + 1, claims[i])
  {
    var n := if |claims| < ListedClaims then |claims| else ListedClaims;
    seq(n, i requires 0 <= i < n => (i + 1, claims[i]))
  }

  /** `st.columns(min(len(suggested_videos), 3))` */
  function ColumnCount(videos: nat): nat
  {
    if videos < GridColumns then videos else GridColumns
  }

  /** `cols[idx % 3]` */
  function ColumnOf(idx: nat): nat
  {
    idx % GridColumns
  }

  /** Every video's column exists, and every column gets a video. */
  lemma ColumnsFit(videos: nat)
    ensures forall idx :: 0 <= idx < videos ==> ColumnOf(idx) < ColumnCount(videos)
    ensures forall c :: 0 <= c < ColumnCount(videos) ==> ColumnOf(c) == c && c < videos
  {
    forall idx | 0 <= idx < videos ensures ColumnOf(idx) < ColumnCount(videos) {
      assert 0 <= idx % GridColumns < GridColumns;
      if videos < GridColumns {
        assert idx % GridColumns == idx;
      }
    }
    forall c | 0 <= c < ColumnCount(videos) ensures ColumnOf(c) == c && c < videos {
      assert c < GridColumns && c < videos;
      assert c % GridColumns == c;
    }
  }
}
