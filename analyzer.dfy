/**
  services/language/analyzer.py: `SemanticAnalyzer.analyze_sentiment_and_opinions`
  cuts a transcript into chunks of 5000 characters, sends each chunk to the
  sentiment service with opinion mining, skips chunks the service reports as
  errors, and turns every sentence with an opinion or a non-neutral sentiment
  into an ExtractedClaim.

  The service is a parameter: a function from one chunk to its document result.
*/
module Language {
  import opened Wrappers
  import opened Models

  const MaxChunkSize: nat := 5000

  /** One assessment of a mined opinion. */
  datatype Assessment = Assessment(text: string, sentiment: string)

  /** A mined opinion: its target and its assessments, in the service's order. */
  datatype DocOpinion = DocOpinion(target: string, assessments: seq<Assessment>)

  /** The sentence-level confidence scores, one per label. */
  datatype ConfidenceScores = ConfidenceScores(positive: real, neutral: real, negative: real)

  datatype DocSentence = DocSentence(
    text: string,
    sentiment: string,
    confidenceScores: ConfidenceScores,
    minedOpinions: seq<DocOpinion>)

  /** The result for the one document sent: an error, or its sentences. */
  datatype DocResult = DocError(code: string, message: string) | DocOk(sentences: seq<DocSentence>)

  type Client = string -> DocResult

  // ---------------------------------------------------------------------------
  // Chunking  (analyzer.py:28-29)
  // ---------------------------------------------------------------------------

  function Concat(ss: seq<string>): string
  {
    if ss == [] then [] else Concat(ss[..|ss| - 1]) + ss[|ss| - 1]
  }

  /** `[text[i:i+size] for i in range(0, len(text), size)]`; a step of 0 would make `range` raise. */
  function Chunks(text: string, size: nat): (cs: seq<string>)
    requires size > 0
    decreases |text|
  {
    if text == [] then []
    else if |text| <= size then [text]
    else [text[..size]] + Chunks(text[size..], size)
  }

  lemma ConcatCons(s: string, ss: seq<string>)
    ensures Concat([s] + ss) == s + Concat(ss)
    decreases |ss|
  {
    if ss != [] {
      var init := ss[..|ss| - 1];
      assert ([s] + ss)[..|ss|] == [s] + init;
      ConcatCons(s, init);
    }
  }

  /** The chunks put back together are the text. */
  lemma {:induction false} ChunksConcat(text: string, size: nat)
    requires size > 0
    ensures Concat(Chunks(text, size)) == text
    decreases |text|
  {
    if text != [] && |text| <= size {
      assert Concat([text]) == Concat([]) + text;
    } else if text != [] {
      ChunksConcat(text[size..], size);
      ConcatCons(text[..size], Chunks(text[size..], size));
      assert text[..size] + text[size..] == text;
    }
  }

  /** Every chunk is non-empty and at most `size` long; all but the last are exactly `size`. */
  lemma {:induction false} ChunksSizes(text: string, size: nat)
    requires size > 0
    ensures forall k :: 0 <= k < |Chunks(text, size)| ==> 0 < |Chunks(text, size)[k]| <= size
    ensures forall k :: 0 <= k < |Chunks(text, size)| - 1 ==> |Chunks(text, size)[k]| == size
    decreases |text|
  {
    if |text| > size {
      var cs, rest := Chunks(text, size), Chunks(text[size..], size);
      ChunksSizes(text[size..], size);
      assert cs == [text[..size]] + rest;
      forall k | 0 <= k < |cs| ensures 0 < |cs[k]| <= size && (k < |cs| - 1 ==> |cs[k]| == size) {
        if k > 0 {
          assert cs[k] == rest[k - 1];
        }
      }
    }
  }

  /** With the analyzer's chunk size there are ceil(len / 5000) chunks. */
  lemma {:induction false} ChunksCount(text: string)
    ensures |Chunks(text, MaxChunkSize)| == (|text| + 4999) / 5000
    decreases |text|
  {
    if |text| > MaxChunkSize {
      ChunksCount(text[MaxChunkSize..]);
    }
  }

  // ---------------------------------------------------------------------------
  // Claims  (analyzer.py:31-68)
  // ---------------------------------------------------------------------------

  /** A mined opinion without assessments becomes ("N/A", "neutral"). */
  function OpinionOf(o: DocOpinion): (m: MinedOpinion)
    ensures m.target == o.target
    ensures o.assessments == [] ==> m.assessment == "N/A" && m.sentiment == "neutral"
    ensures o.assessments != [] ==> m.assessment == o.assessments[0].text && m.sentiment == o.assessments[0].sentiment
  {
    if o.assessments == [] then MinedOpinion(o.target, "N/A", "neutral")
    else MinedOpinion(o.target, o.assessments[0].text, o.assessments[0].sentiment)
  }

  /** `sentence.confidence_scores[label]`, which raises KeyError for any other label. */
  function Confidence(scores: ConfidenceScores, sentiment: string): Option<real>
  {
    if sentiment == "positive" then Some(scores.positive)
    else if sentiment == "neutral" then Some(scores.neutral)
    else if sentiment == "negative" then Some(scores.negative)
    else None
  }

  /** A sentence "seems like a claim" when it has opinions or is not neutral. */
  predicate IsClaim(s: DocSentence)
  {
    s.minedOpinions != [] || s.sentiment != "neutral"
  }

  function Opinions(os: seq<DocOpinion>): (ms: seq<MinedOpinion>)
    ensures |ms| == |os| && forall k :: 0 <= k < |os| ==> ms[k] == OpinionOf(os[k])
  {
    if os == [] then [] else Opinions(os[..|os| - 1]) + [OpinionOf(os[|os| - 1])]
  }

  /** The claims of a run of sentences, in order, or the KeyError of the first claim with an unknown label. */
  function ClaimsFrom(ss: seq<DocSentence>): Result<seq<ExtractedClaim>>
  {
    if ss == [] then Ok([])
    else
      match ClaimsFrom(ss[..|ss| - 1])
      case Raised(m) => Raised(m)
      case Ok(claims) =>
        var s := ss[|ss| - 1];
        if !IsClaim(s) then Ok(claims)
        else if Confidence(s.confidenceScores, s.sentiment).None? then Raised("KeyError")
        else Ok(claims + [ExtractedClaim(s.text, s.sentiment, Confidence(s.confidenceScores, s.sentiment).value,
                                         Opinions(s.minedOpinions))])
  }

  /** The sentences of the documents the service analysed; documents reported as errors contribute none. */
  function AllSentences(rs: seq<DocResult>): seq<DocSentence>
  {
    if rs == [] then []
    else AllSentences(rs[..|rs| - 1]) + DocSentences(rs[|rs| - 1])
  }

  /** `continue` skips a document reported as an error. */
  function DocSentences(r: DocResult): seq<DocSentence>
  {
    match r
    case DocOk(ss) => ss
    case DocError(_, _) => []
  }

  function Responses(chunks: seq<string>, client: Client): (rs: seq<DocResult>)
    ensures |rs| == |chunks| && forall k :: 0 <= k < |chunks| ==> rs[k] == client(chunks[k])
  {
    seq(|chunks|, k requires 0 <= k < |chunks| => client(chunks[k]))
  }

  /** What `analyze_sentiment_and_opinions` returns for `text`, or the exception it raises. */
  function Analysis(text: string, client: Client): Result<seq<ExtractedClaim>>
  {
    if text == [] then Ok([]) else ClaimsFrom(AllSentences(Responses(Chunks(text, MaxChunkSize), client)))
  }

  // The reference: filter the claim sentences, then map each to its claim.

  function ClaimSentences(ss: seq<DocSentence>): (r: seq<DocSentence>)
    ensures forall k :: 0 <= k < |r| ==> IsClaim(r[k])
  {
    if ss == [] then []
    else ClaimSentences(ss[..|ss| - 1]) + (if IsClaim(ss[|ss| - 1]) then [ss[|ss| - 1]] else [])
  }

  predicate KnownLabel(s: DocSentence)
  {
    Confidence(s.confidenceScores, s.sentiment).Some?
  }

  function ClaimOf(s: DocSentence): ExtractedClaim
    requires KnownLabel(s)
  {
    ExtractedClaim(s.text, s.sentiment, Confidence(s.confidenceScores, s.sentiment).value, Opinions(s.minedOpinions))
  }

  predicate AllKnown(f: seq<DocSentence>)
  {
    forall k :: 0 <= k < |f| ==> KnownLabel(f[k])
  }

  /**
    The loop raises exactly when some claim sentence has a label other than
    positive, neutral or negative; otherwise its claims are the claim sentences
    in order, each with the confidence of its own label and its opinions.
  */
  lemma {:induction false} ClaimsFromIsFilterMap(ss: seq<DocSentence>)
    ensures ClaimsFrom(ss).Ok? <==> AllKnown(ClaimSentences(ss))
    ensures ClaimsFrom(ss).Ok? ==>
              |ClaimsFrom(ss).value| == |ClaimSentences(ss)| &&
              forall k :: 0 <= k < |ClaimSentences(ss)| ==> ClaimsFrom(ss).value[k] == ClaimOf(ClaimSentences(ss)[k])
  {
    if ss != [] {
      var init := ss[..|ss| - 1];
      ClaimsFromIsFilterMap(init);
      var f0 := ClaimSentences(init);
      var f := ClaimSentences(ss);
      var last := ss[|ss| - 1];
      if IsClaim(last) {
        assert f == f0 + [last];
        assert forall k :: 0 <= k < |f0| ==> f[k] == f0[k];
        match ClaimsFrom(init)
        case Raised(_) =>
          var k :| 0 <= k < |f0| && !KnownLabel(f0[k]);
          assert k < |f| && !KnownLabel(f[k]);
          assert ClaimsFrom(ss).Raised?;
        case Ok(claims) =>
          if KnownLabel(last) {
            assert ClaimsFrom(ss) == Ok(claims + [ClaimOf(last)]);
          } else {
            assert ClaimsFrom(ss).Raised? && !KnownLabel(f[|f0|]);
          }
      } else {
        assert f == f0 + [] == f0;
        assert ClaimsFrom(ss) == ClaimsFrom(init);
      }
    }
  }

  lemma {:induction false} AllSentencesAppend(rs: seq<DocResult>, i: nat)
    requires i < |rs|
    ensures AllSentences(rs[..i + 1]) == AllSentences(rs[..i]) + DocSentences(rs[i])
  {
    assert rs[..i + 1][..i] == rs[..i];
  }

  lemma {:induction false} AllSentencesConcat(a: seq<DocResult>, b: seq<DocResult>)
    ensures AllSentences(a + b) == AllSentences(a) + AllSentences(b)
    decreases |b|
  {
    if b != [] {
      var b0 := b[..|b| - 1];
      assert (a + b)[..|a + b| - 1] == a + b0;
      assert (a + b)[|a + b| - 1] == b[|b| - 1];
      AllSentencesConcat(a, b0);
      calc {
        AllSentences(a + b);
        AllSentences(a + b0) + DocSentences(b[|b| - 1]);
        AllSentences(a) + AllSentences(b0) + DocSentences(b[|b| - 1]);
        AllSentences(a) + AllSentences(b);
      }
    } else {
      assert a + b == a;
    }
  }

  /** Once the claims of a prefix raise, so do the claims of anything it prefixes. */
  lemma {:induction false} ClaimsFromRaisedPrefix(a: seq<DocSentence>, b: seq<DocSentence>)
    requires ClaimsFrom(a).Raised?
    ensures ClaimsFrom(a + b) == ClaimsFrom(a)
    decreases |b|
  {
    if b == [] {
      assert a + b == a;
    } else {
      var b0 := b[..|b| - 1];
      assert (a + b)[..|a + b| - 1] == a + b0;
      ClaimsFromRaisedPrefix(a, b0);
    }
  }

  /** Empty text returns [] early; chunking it would give no chunks and the same result. */
  lemma EmptyTextHasNoClaims(client: Client)
    ensures Analysis([], client) == Ok([])
    ensures ClaimsFrom(AllSentences(Responses(Chunks([], MaxChunkSize), client))) == Ok([])
  {
  }

  /** The inner loop over a sentence's mined opinions. */
  method MineOpinions(mined: seq<DocOpinion>) returns (opinions: seq<MinedOpinion>)
    ensures opinions == Opinions(mined)
  {
    opinions := [];
    var k := 0;
    while k < |mined|
      invariant 0 <= k <= |mined|
      invariant opinions == Opinions(mined[..k])
    {
      assert mined[..k + 1][..k] == mined[..k];
      var opinion := if mined[k].assessments != [] then MinedOpinion(mined[k].target, mined[k].assessments[0].text, mined[k].assessments[0].sentiment)
                     else MinedOpinion(mined[k].target, "N/A", "neutral");
      opinions := opinions + [opinion];
      k := k + 1;
    }
    assert mined[..k] == mined;
  }

  /** The loop over one document's sentences, continuing the claims found in the sentences before them. */
  method AppendClaims(ghost before: seq<DocSentence>, claims: seq<ExtractedClaim>, sentences: seq<DocSentence>)
    returns (r: Result<seq<ExtractedClaim>>)
    requires ClaimsFrom(before) == Ok(claims)
    ensures r == ClaimsFrom(before + sentences)
  {
    var found := claims;
    var j := 0;
    assert before + sentences[..0] == before;
    while j < |sentences|
      invariant 0 <= j <= |sentences|
      invariant ClaimsFrom(before + sentences[..j]) == Ok(found)
    {
      var sentence := sentences[j];
      var opinions := MineOpinions(sentence.minedOpinions);
      ghost var next := before + sentences[..j + 1];
      assert next[..|next| - 1] == before + sentences[..j] && next[|next| - 1] == sentence;
      if opinions != [] || sentence.sentiment != "neutral" {
        var confidence := Confidence(sentence.confidenceScores, sentence.sentiment);
        if confidence.None? {
          ClaimsFromRaisedPrefix(next, sentences[j + 1..]);
          assert next + sentences[j + 1..] == before + sentences;
          return Raised("KeyError");
        }
        found := found + [ExtractedClaim(sentence.text, sentence.sentiment, confidence.value, opinions)];
        assert ClaimsFrom(next) == Ok(found);
      } else {
        assert ClaimsFrom(next) == Ok(found);
      }
      j := j + 1;
    }
    assert sentences[..j] == sentences;
    r := Ok(found);
  }

  /** `analyze_sentiment_and_opinions`: one request per chunk, skipping chunks reported as errors. */
  method AnalyzeSentimentAndOpinions(text: string, client: Client) returns (r: Result<seq<ExtractedClaim>>)
    ensures r == Analysis(text, client)
  {
    if text == [] {
      return Ok([]);
    }
    var chunks := Chunks(text, MaxChunkSize);
    ghost var rs := Responses(chunks, client);
    var claims: seq<ExtractedClaim> := [];
    var i := 0;
    while i < |chunks|
      invariant 0 <= i <= |chunks|
      invariant ClaimsFrom(AllSentences(rs[..i])) == Ok(claims)
    {
      var doc := client(chunks[i]);
      assert rs[i] == doc;
      AllSentencesAppend(rs, i);
      if doc.DocError? {
        assert AllSentences(rs[..i]) + [] == AllSentences(rs[..i]);
        i := i + 1;
        continue;
      }
      var next := AppendClaims(AllSentences(rs[..i]), claims, doc.sentences);
      if next.Raised? {
        ClaimsFromRaisedPrefix(AllSentences(rs[..i + 1]), AllSentences(rs[i + 1..]));
        AllSentencesConcat(rs[..i + 1], rs[i + 1..]);
        assert rs[..i + 1] + rs[i + 1..] == rs;
        return next;
      }
      claims := next.value;
      i := i + 1;
    }
    assert rs[..i] == rs;
    r := Ok(claims);
  }
}
