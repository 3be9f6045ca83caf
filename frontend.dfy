/**
  frontend/app.py: the values the results page computes before rendering a
  video — its duration as h:mm:ss or m:ss, its upload date as YYYY-MM-DD, its
  relevance badge and the suffix of its view count.  The page reads the JSON
  of the API's response, in which every field of a VideoSuggestion is present
  and a missing value is an explicit null.
*/
module Frontend {
  import opened Wrappers
  import opened Text
  import opened PyJson
  import opened Models
  import YouTubeSearch

  /** How a field of a pydantic model reaches the page: a None is serialised as null. */
  function Serialized<T>(o: Option<T>): (f: Field<T>)
    ensures f.AsOption() == o && !f.Absent?
  {
    match o
    case None => Null
    case Some(v) => Has(v)
  }

  // ---------------------------------------------------------------------------
  // Duration  (frontend/app.py:522-528, 620-626)
  // ---------------------------------------------------------------------------

  /** `mins, secs = divmod(duration, 60); hours, mins = divmod(mins, 60)`; Python floors, as Dafny does for a positive divisor. */
  function DurationParts(duration: int): (p: (int, nat, nat))
    ensures p.0 * 3600 + p.1 * 60 + p.2 == duration
    ensures p.1 < 60 && p.2 < 60
  {
    var mins, secs := duration / 60, duration % 60;
    (mins / 60, mins % 60, secs)
  }

  /** A clock reading always holds a colon, so it is never the "N/A" placeholder. */
  lemma ClockIsNotPlaceholder(front: string, back: string)
    ensures front + ":" + back != "N/A"
  {
    var t := front + ":" + back;
    assert t[|front|] == ':';
  }

  /** h:mm:ss when there are hours, m:ss otherwise. */
  function ClockText(hours: int, mins: nat, secs: nat): (r: string)
    ensures r != "N/A"
  {
    if hours > 0 then
      ClockIsNotPlaceholder(NatToString(hours), Pad2(mins) + ":" + Pad2(secs));
      NatToString(hours) + ":" + Pad2(mins) + ":" + Pad2(secs)
    else
      ClockIsNotPlaceholder(NatToString(mins), Pad2(secs));
      NatToString(mins) + ":" + Pad2(secs)
  }

  /** The rendered duration: "N/A" for None or 0, otherwise the clock reading. */
  function DurationText(duration: Option<int>): (r: string)
    ensures r == "N/A" <==> duration.None? || duration.value == 0
  {
    if duration.None? || duration.value == 0 then "N/A"
    else
      var (hours, mins, secs) := DurationParts(duration.value);
      ClockText(hours, mins, secs)
  }

  /** Python `s.split(":")`. */
  function SplitColon(s: string): (parts: seq<string>)
    ensures |parts| >= 1
  {
    if s == [] then [[]]
    else if s[0] == ':' then [[]] + SplitColon(s[1..])
    else
      var rest := SplitColon(s[1..]);
      [[s[0]] + rest[0]] + rest[1..]
  }

  /** Reads back "m:ss" or "h:mm:ss" as a number of seconds. */
  function ParseClock(t: string): Option<int>
  {
    var p := SplitColon(t);
    if |p| == 2 && ParseNat(p[0]).Some? && ParseNat(p[1]).Some? then
      Some(ParseNat(p[0]).value * 60 + ParseNat(p[1]).value)
    else if |p| == 3 && ParseNat(p[0]).Some? && ParseNat(p[1]).Some? && ParseNat(p[2]).Some? then
      Some(ParseNat(p[0]).value * 3600 + ParseNat(p[1]).value * 60 + ParseNat(p[2]).value)
    else None
  }

  lemma {:induction false} SplitDigits(a: string)
    requires forall i :: 0 <= i < |a| ==> '0' <= a[i] <= '9'
    ensures SplitColon(a) == [a]
  {
    if a != [] {
      SplitDigits(a[1..]);
      assert [a[0]] + a[1..] == a;
    }
  }

  lemma {:induction false} SplitAfterDigits(a: string, b: string)
    requires forall i :: 0 <= i < |a| ==> '0' <= a[i] <= '9'
    ensures SplitColon(a + ":" + b) == [a] + SplitColon(b)
  {
    var s := a + ":" + b;
    if a == [] {
      assert s == ":" + b && s[1..] == b;
    } else {
      assert s[0] == a[0];
      assert s[1..] == a[1..] + ":" + b;
      SplitAfterDigits(a[1..], b);
      assert [a[0]] + a[1..] == a;
    }
  }

  lemma SplitThree(h: string, m: string, s: string)
    requires forall i :: 0 <= i < |h| ==> '0' <= h[i] <= '9'
    requires forall i :: 0 <= i < |m| ==> '0' <= m[i] <= '9'
    requires forall i :: 0 <= i < |s| ==> '0' <= s[i] <= '9'
    ensures SplitColon(h + ":" + m + ":" + s) == [h, m, s]
  {
    SplitDigits(s);
    assert h + ":" + m + ":" + s == h + ":" + (m + ":" + s);
    SplitAfterDigits(h, m + ":" + s);
    SplitAfterDigits(m, s);
  }

  lemma ParseTwoParts(t: string, a: string, b: string, x: nat, y: nat)
    requires SplitColon(t) == [a, b] && ParseNat(a) == Some(x) && ParseNat(b) == Some(y)
    ensures ParseClock(t) == Some(x * 60 + y)
  {
    var p := SplitColon(t);
    assert |p| == 2 && p[0] == a && p[1] == b;
  }

  lemma ParseThreeParts(t: string, a: string, b: string, c: string, x: nat, y: nat, z: nat)
    requires SplitColon(t) == [a, b, c] && ParseNat(a) == Some(x) && ParseNat(b) == Some(y) && ParseNat(c) == Some(z)
    ensures ParseClock(t) == Some(x * 3600 + y * 60 + z)
  {
    var p := SplitColon(t);
    assert |p| == 3 && p[0] == a && p[1] == b && p[2] == c;
  }

  lemma HoursRoundTrip(hours: nat, mins: nat, secs: nat)
    ensures ParseClock(NatToString(hours) + ":" + Pad2(mins) + ":" + Pad2(secs)) == Some(hours * 3600 + mins * 60 + secs)
  {
    var h, m, s := NatToString(hours), Pad2(mins), Pad2(secs);
    ParseNatToString(hours);
    ParsePad2(mins);
    ParsePad2(secs);
    SplitThree(h, m, s);
    ParseThreeParts(h + ":" + m + ":" + s, h, m, s, hours, mins, secs);
  }

  lemma MinutesRoundTrip(mins: nat, secs: nat)
    ensures ParseClock(NatToString(mins) + ":" + Pad2(secs)) == Some(mins * 60 + secs)
  {
    var m, s := NatToString(mins), Pad2(secs);
    ParseNatToString(mins);
    ParsePad2(secs);
    SplitDigits(s);
    SplitAfterDigits(m, s);
    assert SplitColon(m + ":" + s) == [m] + [s];
    ParseTwoParts(m + ":" + s, m, s, mins, secs);
  }

  /** Reading the rendered duration back gives the number of seconds for every positive duration. */
  lemma DurationRoundTrip(duration: int)
    requires duration > 0
    ensures ParseClock(DurationText(Some(duration))) == Some(duration)
  {
    var (hours, mins, secs) := DurationParts(duration);
    assert hours * 3600 + mins * 60 + secs == duration;
    var t := DurationText(Some(duration));
    assert t == ClockText(hours, mins, secs);
    if hours > 0 {
      assert t == NatToString(hours) + ":" + Pad2(mins) + ":" + Pad2(secs);
      HoursRoundTrip(hours, mins, secs);
      assert ParseClock(t) == Some(hours * 3600 + mins * 60 + secs);
    } else {
      assert hours == 0 && t == NatToString(mins) + ":" + Pad2(secs);
      MinutesRoundTrip(mins, secs);
      assert ParseClock(t) == Some(mins * 60 + secs);
    }
  }

  /** The h:mm:ss form appears exactly when the duration is at least an hour. */
  lemma DurationShape(duration: int)
    requires duration > 0
    ensures |SplitColon(DurationText(Some(duration)))| == (if duration >= 3600 then 3 else 2)
  {
    var (hours, mins, secs) := DurationParts(duration);
    assert DurationText(Some(duration)) == ClockText(hours, mins, secs);
    if hours > 0 {
      SplitThree(NatToString(hours), Pad2(mins), Pad2(secs));
    } else {
      SplitDigits(Pad2(secs));
      SplitAfterDigits(NatToString(mins), Pad2(secs));
    }
  }

  // ---------------------------------------------------------------------------
  // Upload date  (frontend/app.py:540-544)
  // ---------------------------------------------------------------------------

  /** `metadata.get('upload_date', '')`, reformatted when it has exactly eight characters. */
  function DateText(uploadDate: Field<string>): (r: string)
    ensures uploadDate.Has? && |uploadDate.v| == 8 ==>
              |r| == 10 && r[4] == '-' && r[7] == '-' && r[..4] + r[5..7] + r[8..] == uploadDate.v
    ensures !(uploadDate.Has? && |uploadDate.v| == 8) ==> r == "N/A"
  {
    match uploadDate
    case Has(u) =>
      if |u| == 8 then DashesRemovable(u); u[0..4] + "-" + u[4..6] + "-" + u[6..8] else "N/A"
    case _ => "N/A"
  }

  lemma DashesRemovable(u: string)
    requires |u| == 8
    ensures var r := u[0..4] + "-" + u[4..6] + "-" + u[6..8];
            |r| == 10 && r[4] == '-' && r[7] == '-' && r[..4] + r[5..7] + r[8..] == u
  {
    var r := u[0..4] + "-" + u[4..6] + "-" + u[6..8];
    assert r[..4] == u[0..4] && r[5..7] == u[4..6] && r[8..] == u[6..8];
    assert u[0..4] + u[4..6] + u[6..8] == u;
  }

  // ---------------------------------------------------------------------------
  // Relevance badge  (frontend/app.py:610-617)
  // ---------------------------------------------------------------------------

  datatype Badge = High | Good | Moderate

  const HighFrom: real := 0.85
  const GoodFrom: real := 0.7

  function BadgeFor(relevance: real): Badge
  {
    if relevance >= HighFrom then High else if relevance >= GoodFrom then Good else Moderate
  }

  function Rank(b: Badge): nat
  {
    match b
    case Moderate => 0
    case Good => 1
    case High => 2
  }

  /** The tiers partition the scores at 0.85 and 0.7. */
  lemma BadgeTiers(relevance: real)
    ensures BadgeFor(relevance) == High <==> relevance >= 0.85
    ensures BadgeFor(relevance) == Good <==> 0.7 <= relevance < 0.85
    ensures BadgeFor(relevance) == Moderate <==> relevance < 0.7
  {
  }

  /** A higher score never gets a lower badge. */
  lemma BadgeMonotone(a: real, b: real)
    requires a <= b
    ensures Rank(BadgeFor(a)) <= Rank(BadgeFor(b))
  {
  }

  /**
    `video.get('relevance_score', 0.5)`: the default applies only to an absent
    key; a null reaches `>= 0.85` and raises TypeError.
  */
  function BadgeOf(relevance: Field<real>): (r: Result<Badge>)
    ensures relevance.Absent? ==> r == Ok(Moderate)
    ensures relevance.Null? <==> r.Raised?
    ensures relevance.Has? ==> r == Ok(BadgeFor(relevance.v))
  {
    match relevance
    case Absent => Ok(BadgeFor(0.5))
    case Null => Raised("TypeError")
    case Has(x) => Ok(BadgeFor(x))
  }

  /** The scores the pipeline assigns on its own — the fallback's 0.5 and a failed check's 0.65 — both show as moderate. */
  lemma PipelineDefaultsAreModerate()
    ensures BadgeFor(0.5) == Moderate && BadgeFor(0.65) == Moderate
  {
  }

  // ---------------------------------------------------------------------------
  // View count  (frontend/app.py:530-537, 628-635)
  // ---------------------------------------------------------------------------

  /** The suffix choice; the one-decimal rendering of millions and thousands is not modelled. */
  datatype ViewsLabel = Millions(views: int) | Thousands(views: int) | Plain(text: string)

  function ViewsLabelFor(views: int): (l: ViewsLabel)
    ensures l.Millions? <==> views >= 1000000
    ensures l.Thousands? <==> 1000 <= views < 1000000
    ensures l.Plain? <==> views < 1000
    ensures !l.Plain? ==> l.views == views
    ensures l.Plain? ==> l.text == IntToString(views)
  {
    if views >= 1000000 then Millions(views)
    else if views >= 1000 then Thousands(views)
    else Plain(IntToString(views))
  }

  /**
    As written: `video.get('view_count', 0)` defaults only an absent key, and
    a null view count reaches `views >= 1000000`, which raises TypeError.
  */
  function ViewsAsWritten(viewCount: Field<int>): Result<ViewsLabel>
  {
    match viewCount
    case Absent => Ok(ViewsLabelFor(0))
    case Null => Raised("TypeError")
    case Has(n) => Ok(ViewsLabelFor(n))
  }

  /** The card of any video whose view count is unknown fails to render. */
  lemma UnknownViewCountRaises(video: VideoSuggestion)
    requires video.viewCount.None?
    ensures ViewsAsWritten(Serialized(video.viewCount)).Raised?
  {
  }

  /** Such a video comes straight from the search: an entry whose view count is an explicit null keeps it as None. */
  lemma NullViewCountReachesPage(e: YouTubeSearch.RawEntry)
    requires YouTubeSearch.EntryStep(YouTubeSearch.Entry(e)).Keep? && e.viewCount.Null?
    ensures ViewsAsWritten(Serialized(YouTubeSearch.EntryStep(YouTubeSearch.Entry(e)).video.viewCount)).Raised?
  {
  }

  /** Corrected: an unknown view count is shown as 0, as the default of 0 intends. */
  function Views(viewCount: Field<int>): (l: ViewsLabel)
    ensures viewCount.Has? ==> l == ViewsLabelFor(viewCount.v)
    ensures !viewCount.Has? ==> l == Plain("0")
    ensures ViewsAsWritten(viewCount).Ok? ==> ViewsAsWritten(viewCount).value == l
  {
    ViewsLabelFor(match viewCount case Has(n) => n case _ => 0)
  }

  /** Every video card now renders a view label, whatever the video. */
  lemma ViewsAlwaysRender(video: VideoSuggestion)
    ensures Views(Serialized(video.viewCount)) == ViewsLabelFor(video.viewCount.GetOr(0))
  {
  }
}
