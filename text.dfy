/**
  The Python string operations the core relies on: `str.isspace`, ASCII case
  mapping, substring search, `strip`, `split()`, `join` and the decimal
  rendering of integers by `str` and f-strings.
*/
module Text {
  import opened Wrappers

  /** Python's `str.isspace` for one character (the whitespace table of CPython). */
  predicate IsSpace(c: char)
  {
    var n := c as int;
    || 0x09 <= n <= 0x0D || 0x1C <= n <= 0x20 || n == 0x85 || n == 0xA0 || n == 0x1680
    || 0x2000 <= n <= 0x200A || n == 0x2028 || n == 0x2029 || n == 0x202F || n == 0x205F || n == 0x3000
  }

  predicate IsAsciiUpper(c: char) { 'A' <= c <= 'Z' }

  predicate IsAsciiLower(c: char) { 'a' <= c <= 'z' }

  function UpperChar(c: char): (d: char)
    ensures IsAsciiLower(c) ==> IsAsciiUpper(d)
    ensures !IsAsciiLower(c) ==> d == c
  {
    if IsAsciiLower(c) then (c as int - 32) as char else c
  }

  function LowerChar(c: char): (d: char)
    ensures IsAsciiUpper(c) ==> IsAsciiLower(d)
    ensures !IsAsciiUpper(c) ==> d == c
  {
    if IsAsciiUpper(c) then (c as int + 32) as char else c
  }

  /** `s.upper()` restricted to the ASCII letters. */
  function Upper(s: string): (r: string)
    ensures |r| == |s|
    ensures forall i :: 0 <= i < |s| ==> r[i] == UpperChar(s[i])
  {
    seq(|s|, i requires 0 <= i < |s| => UpperChar(s[i]))
  }

  /** `s.lower()` restricted to the ASCII letters. */
  function Lower(s: string): (r: string)
    ensures |r| == |s|
    ensures forall i :: 0 <= i < |s| ==> r[i] == LowerChar(s[i])
  {
    seq(|s|, i requires 0 <= i < |s| => LowerChar(s[i]))
  }

  /** Python's `needle in hay` for two strings. */
  predicate Contains(hay: string, needle: string)
    decreases |hay|
  {
    |needle| <= |hay| && (hay[..|needle|] == needle || Contains(hay[1..], needle))
  }

  /** Drops the leading characters that satisfy `drop` (Python `lstrip(chars)`). */
  function LStrip(s: string, drop: char -> bool): (r: string)
    ensures |r| <= |s| && r == s[|s| - |r|..]
    ensures r != [] ==> !drop(r[0])
    ensures forall i :: 0 <= i < |s| - |r| ==> drop(s[i])
    decreases |s|
  {
    if s != [] && drop(s[0]) then LStrip(s[1..], drop) else s
  }

  /** Drops the trailing characters that satisfy `drop` (Python `rstrip(chars)`). */
  function RStrip(s: string, drop: char -> bool): (r: string)
    ensures |r| <= |s| && r == s[..|r|]
    ensures r != [] ==> !drop(r[|r| - 1])
    ensures forall i :: |r| <= i < |s| ==> drop(s[i])
    decreases |s|
  {
    if s != [] && drop(s[|s| - 1]) then RStrip(s[..|s| - 1], drop) else s
  }

  /** Python `strip(chars)`: both ends, keeping the contiguous middle. */
  function Strip(s: string, drop: char -> bool): string
  {
    RStrip(LStrip(s, drop), drop)
  }

  /** Where Strip cuts: it keeps the infix of `s` that starts after the dropped prefix. */
  lemma StripIsInfix(s: string, drop: char -> bool)
    ensures var a, r := |s| - |LStrip(s, drop)|, Strip(s, drop);
            0 <= a && a + |r| <= |s| && r == s[a..a + |r|]
            && (r != [] ==> !drop(r[0]) && !drop(r[|r| - 1]))
  {
    var l := LStrip(s, drop);
    var r := RStrip(l, drop);
    var a := |s| - |l|;
    calc {
      r;
      l[..|r|];
      s[a..][..|r|];
      s[a..a + |r|];
    }
  }

  /** Strip cuts off only dropped characters. */
  lemma StripCutsDropped(s: string, drop: char -> bool, i: int)
    requires 0 <= i < |s|
    requires var a := |s| - |LStrip(s, drop)|; i < a || a + |Strip(s, drop)| <= i
    ensures drop(s[i])
  {
    var l := LStrip(s, drop);
    var a := |s| - |l|;
    if a <= i {
      assert s[i] == l[i - a];
    }
  }

  /** Strip leaves nothing exactly when every character is dropped. */
  lemma StripEmptyIff(s: string, drop: char -> bool)
    ensures Strip(s, drop) == [] <==> forall i :: 0 <= i < |s| ==> drop(s[i])
  {
    if Strip(s, drop) == [] {
      forall i | 0 <= i < |s| ensures drop(s[i]) {
        StripCutsDropped(s, drop, i);
      }
    } else {
      StripIsInfix(s, drop);
      var a := |s| - |LStrip(s, drop)|;
      assert s[a] == Strip(s, drop)[0];
    }
  }

  /** Stripping a string that already starts and ends with kept characters changes nothing. */
  lemma StripNoOp(s: string, drop: char -> bool)
    requires s != [] && !drop(s[0]) && !drop(s[|s| - 1])
    ensures Strip(s, drop) == s
  {
  }

  /** Python `str.strip()` with no argument. */
  function StripSpace(s: string): string
  {
    Strip(s, IsSpace)
  }

  /** Python `not s.strip()`: the string is empty or entirely whitespace. */
  predicate IsBlank(s: string)
  {
    StripSpace(s) == []
  }

  lemma BlankIff(s: string)
    ensures IsBlank(s) <==> forall i :: 0 <= i < |s| ==> IsSpace(s[i])
  {
    StripEmptyIff(s, IsSpace);
  }

  /** The longest prefix of `s` without whitespace. */
  function TakeWord(s: string): (w: string)
    ensures |w| <= |s| && w == s[..|w|]
    ensures forall i :: 0 <= i < |w| ==> !IsSpace(w[i])
    ensures |w| < |s| ==> IsSpace(s[|w|])
    decreases |s|
  {
    if s == [] || IsSpace(s[0]) then [] else [s[0]] + TakeWord(s[1..])
  }

  predicate IsWord(w: string)
  {
    w != [] && forall i :: 0 <= i < |w| ==> !IsSpace(w[i])
  }

  /** Python `s.split()`: the maximal runs of non-whitespace characters, in order. */
  function Words(s: string): (ws: seq<string>)
    ensures forall k :: 0 <= k < |ws| ==> IsWord(ws[k])
    decreases |s|
  {
    var t := LStrip(s, IsSpace);
    if t == [] then []
    else
      var w := TakeWord(t);
      [w] + Words(t[|w|..])
  }

  /** A string with a non-whitespace character has at least one word; a blank one has none. */
  lemma {:induction false} WordsEmptyIff(s: string)
    ensures Words(s) == [] <==> IsBlank(s)
  {
    BlankIff(s);
    var t := LStrip(s, IsSpace);
    if t == [] {
      forall i | 0 <= i < |s| ensures IsSpace(s[i]) { }
    } else {
      assert !IsSpace(s[|s| - |t|]);
    }
  }

  /** Python `sep.join(ws)`. */
  function Join(ws: seq<string>, sep: string): (r: string)
    ensures ws == [] ==> r == []
    ensures |ws| == 1 ==> r == ws[0]
    ensures ws != [] ==> |r| >= |ws[0]| && r[..|ws[0]|] == ws[0]
  {
    if ws == [] then []
    else if |ws| == 1 then ws[0]
    else ws[0] + sep + Join(ws[1..], sep)
  }

  function DigitChar(d: nat): (c: char)
    requires d < 10
    ensures '0' <= c <= '9'
  {
    ('0' as int + d) as char
  }

  /** Python `str(n)` for a non-negative integer. */
  function NatToString(n: nat): (s: string)
    ensures s != []
    ensures forall i :: 0 <= i < |s| ==> '0' <= s[i] <= '9'
    ensures n < 10 <==> |s| == 1
  {
    if n < 10 then [DigitChar(n)] else NatToString(n / 10) + [DigitChar(n % 10)]
  }

  /** Python `str(i)` for any integer. */
  function IntToString(i: int): (s: string)
    ensures s != []
  {
    if i < 0 then "-" + NatToString(-i) else NatToString(i)
  }

  /** Python `f"{n:02d}"` for a non-negative integer: zero-padded to width two. */
  function Pad2(n: nat): (s: string)
    ensures |s| >= 2
    ensures forall i :: 0 <= i < |s| ==> '0' <= s[i] <= '9'
  {
    if n < 10 then "0" + NatToString(n) else NatToString(n)
  }

  predicate IsDigits(s: string)
  {
    s != [] && forall i :: 0 <= i < |s| ==> '0' <= s[i] <= '9'
  }

  /** Python `int(s)` for a string of ASCII digits; None for anything else. */
  function ParseNat(s: string): (r: Option<nat>)
    ensures r.Some? <==> IsDigits(s)
  {
    if !IsDigits(s) then None
    else if |s| == 1 then Some(s[0] as int - '0' as int)
    else
      var init := ParseNat(s[..|s| - 1]);
      assert s[..|s| - 1][0] == s[0];
      Some(init.value * 10 + (s[|s| - 1] as int - '0' as int))
  }

  /** Reading back a rendered natural number recovers it. */
  lemma {:induction false} ParseNatToString(n: nat)
    ensures ParseNat(NatToString(n)) == Some(n)
  {
    if n >= 10 {
      var s := NatToString(n);
      ParseNatToString(n / 10);
      assert s[..|s| - 1] == NatToString(n / 10);
    }
  }

  /** Reading back a zero-padded number recovers it. */
  lemma ParsePad2(n: nat)
    ensures ParseNat(Pad2(n)) == Some(n)
  {
    ParseNatToString(n);
    if n < 10 {
      var s := Pad2(n);
      assert s[..|s| - 1] == "0";
    }
  }
}
