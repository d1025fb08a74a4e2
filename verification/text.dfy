/**
  The few Foundation string operations the onboarding and profile code relies
  on: trimming whitespace, splitting on a comma, parsing an `Int`, and
  case-insensitive comparison. Strings are sequences of Unicode scalar values;
  grapheme clustering is not modelled.
*/
module Text {
  import opened Wrappers

  // ---------------------------------------------------------------------------
  // Whitespace and trimming
  // ---------------------------------------------------------------------------

  /**
    `CharacterSet.whitespacesAndNewlines`: the Unicode separators (categories
    Zs, Zl, Zp) plus tab, line feed, vertical tab, form feed, carriage return
    and next-line.
  */
  const WhitespaceChars: set<char> := {
    '\t', '\n', '\U{000B}', '\U{000C}', '\r', ' ', '\U{0085}', '\U{00A0}', '\U{1680}',
    '\U{2000}', '\U{2001}', '\U{2002}', '\U{2003}', '\U{2004}', '\U{2005}',
    '\U{2006}', '\U{2007}', '\U{2008}', '\U{2009}', '\U{200A}',
    '\U{2028}', '\U{2029}', '\U{202F}', '\U{205F}', '\U{3000}'
  }

  predicate IsWhitespace(c: char) {
    c in WhitespaceChars
  }

  predicate AllWhitespace(s: string) {
    forall i :: 0 <= i < |s| ==> IsWhitespace(s[i])
  }

  /** No whitespace at either end. */
  predicate IsTrimmed(s: string) {
    |s| == 0 || (!IsWhitespace(s[0]) && !IsWhitespace(s[|s| - 1]))
  }

  /** `s` with its leading whitespace removed. */
  function TrimStart(s: string): (r: string)
    ensures |r| <= |s| && r == s[|s| - |r|..]
    ensures AllWhitespace(s[..|s| - |r|])
    ensures |r| > 0 ==> !IsWhitespace(r[0])
  {
    if |s| > 0 && IsWhitespace(s[0]) then
      var r := TrimStart(s[1..]);
      assert r == s[|s| - |r|..] by {
        assert s[1..][|s| - 1 - |r|..] == s[|s| - |r|..];
      }
      WhitespacePrefixGrows(s, |s| - |r|);
      r
    else s
  }

  /** `s` with its trailing whitespace removed. */
  function TrimEnd(s: string): (r: string)
    ensures |r| <= |s| && r == s[..|r|]
    ensures AllWhitespace(s[|r|..])
    ensures |r| > 0 ==> !IsWhitespace(r[|r| - 1])
  {
    if |s| > 0 && IsWhitespace(s[|s| - 1]) then
      var r := TrimEnd(s[..|s| - 1]);
      assert r == s[..|r|] by {
        assert s[..|s| - 1][..|r|] == s[..|r|];
      }
      WhitespaceSuffixGrows(s, |r|);
      r
    else s
  }

  /** A whitespace first character in front of a whitespace run gives a longer run. */
  lemma WhitespacePrefixGrows(s: string, n: int)
    requires 1 <= n <= |s| && IsWhitespace(s[0]) && AllWhitespace(s[1..][..n - 1])
    ensures AllWhitespace(s[..n])
  {
    forall i | 1 <= i < n ensures IsWhitespace(s[i]) {
      assert s[i] == s[1..][..n - 1][i - 1];
    }
  }

  /** A whitespace last character after a whitespace run gives a longer run. */
  lemma WhitespaceSuffixGrows(s: string, n: int)
    requires 0 <= n < |s| && IsWhitespace(s[|s| - 1]) && AllWhitespace(s[..|s| - 1][n..])
    ensures AllWhitespace(s[n..])
  {
    forall i | n <= i < |s| - 1 ensures IsWhitespace(s[i]) {
      assert s[i] == s[..|s| - 1][n..][i - n];
    }
  }

  /**
    `trimmingCharacters(in: .whitespacesAndNewlines)`: the slice of `s` left
    after dropping whitespace at both ends.
  */
  function Trim(s: string): (r: string)
    ensures IsTrimmed(r)
    ensures exists a :: IsTrimSlice(s, r, a)
  {
    TrimSlice(s);
    TrimEnd(TrimStart(s))
  }

  lemma TrimSlice(s: string)
    ensures IsTrimmed(TrimEnd(TrimStart(s)))
    ensures IsTrimSlice(s, TrimEnd(TrimStart(s)), |s| - |TrimStart(s)|)
  {
    var t := TrimStart(s);
    var r := TrimEnd(t);
    TrimSliceParts(s, t, r);
  }

  /** Dropping a whitespace prefix and then a whitespace suffix leaves a trimmed slice. */
  lemma TrimSliceParts(s: string, t: string, r: string)
    requires |t| <= |s| && t == s[|s| - |t|..] && AllWhitespace(s[..|s| - |t|])
    requires |t| > 0 ==> !IsWhitespace(t[0])
    requires |r| <= |t| && r == t[..|r|] && AllWhitespace(t[|r|..])
    requires |r| > 0 ==> !IsWhitespace(r[|r| - 1])
    ensures IsTrimmed(r)
    ensures IsTrimSlice(s, r, |s| - |t|)
  {
    var a := |s| - |t|;
    if |r| > 0 {
      assert r[0] == t[0];
    }
    forall i | 0 <= i < |r| ensures r[i] == s[a + i] {
      assert r[i] == t[i] && t[i] == s[a + i];
    }
    assert r == s[a..a + |r|];
    var tail := s[a + |r|..];
    forall i | 0 <= i < |tail| ensures IsWhitespace(tail[i]) {
      assert tail[i] == t[|r|..][i];
    }
  }

  /** `r` sits at offset `a` of `s` with only whitespace before and after it. */
  predicate IsTrimSlice(s: string, r: string, a: int) {
    && 0 <= a && a + |r| <= |s| && r == s[a..a + |r|]
    && AllWhitespace(s[..a]) && AllWhitespace(s[a + |r|..])
  }

  /** Trimming an already trimmed string changes nothing, so trimming is idempotent. */
  lemma TrimOfTrimmed(s: string)
    requires IsTrimmed(s)
    ensures Trim(s) == s
  {
  }

  lemma TrimIdempotent(s: string)
    ensures Trim(Trim(s)) == Trim(s)
  {
    TrimOfTrimmed(Trim(s));
  }

  /** Trimming yields the empty string exactly for all-whitespace input. */
  lemma {:induction false} TrimEmptyIffAllWhitespace(s: string)
    ensures Trim(s) == [] <==> AllWhitespace(s)
  {
    var r := Trim(s);
    if r == [] {
      var a :| IsTrimSlice(s, r, a);
      forall i | 0 <= i < |s| ensures IsWhitespace(s[i]) {
        if i < a { assert s[i] == s[..a][i]; } else { assert s[i] == s[a..][i - a]; }
      }
    } else {
      var a :| IsTrimSlice(s, r, a);
      assert s[a] == r[0];
    }
  }

  // ---------------------------------------------------------------------------
  // Splitting on a separator
  // ---------------------------------------------------------------------------

  const Comma: char := ','

  predicate CommaFree(s: string) {
    forall i :: 0 <= i < |s| ==> s[i] != Comma
  }

  /** Length of the longest comma-free prefix of `s`. */
  function RunLength(s: string): (n: nat)
    ensures n <= |s| && CommaFree(s[..n])
    ensures n < |s| ==> s[n] == Comma
  {
    if |s| == 0 || s[0] == Comma then 0
    else
      var n := 1 + RunLength(s[1..]);
      assert s[..n] == [s[0]] + s[1..][..n - 1];
      n
  }

  /**
    `s.split(separator: ",")` with Swift's defaults: the maximal comma-free
    runs of `s`, in order; empty pieces are omitted.
  */
  function Split(s: string): (pieces: seq<string>)
    ensures forall k :: 0 <= k < |pieces| ==> |pieces[k]| > 0 && CommaFree(pieces[k])
    decreases |s|
  {
    if |s| == 0 then []
    else if s[0] == Comma then Split(s[1..])
    else
      var n := RunLength(s);
      [s[..n]] + Split(s[n..])
  }

  /** Pieces joined by single commas: the inverse of `Split` on well-formed pieces. */
  function JoinWithCommas(pieces: seq<string>): string {
    if |pieces| == 0 then ""
    else if |pieces| == 1 then pieces[0]
    else pieces[0] + [Comma] + JoinWithCommas(pieces[1..])
  }

  lemma RunLengthOfCommaFreePrefix(p: string, rest: string)
    requires CommaFree(p)
    requires |rest| == 0 || rest[0] == Comma
    ensures RunLength(p + rest) == |p|
  {
    if |p| > 0 {
      assert (p + rest)[1..] == p[1..] + rest;
      RunLengthOfCommaFreePrefix(p[1..], rest);
    }
  }

  /** Splitting comma-joined non-empty, comma-free pieces gives the pieces back. */
  lemma {:induction false} SplitJoinRoundTrip(pieces: seq<string>)
    requires forall k :: 0 <= k < |pieces| ==> |pieces[k]| > 0 && CommaFree(pieces[k])
    ensures Split(JoinWithCommas(pieces)) == pieces
    decreases |pieces|
  {
    if |pieces| == 1 {
      var p := pieces[0];
      RunLengthOfCommaFreePrefix(p, "");
      assert p + "" == p;
      assert p[|p|..] == "";
    } else if |pieces| > 1 {
      var p := pieces[0];
      var tail := JoinWithCommas(pieces[1..]);
      var s := p + [Comma] + tail;
      RunLengthOfCommaFreePrefix(p, [Comma] + tail);
      assert s == p + ([Comma] + tail);
      assert s[..|p|] == p;
      assert s[|p|..] == [Comma] + tail;
      assert s[|p|..][1..] == tail;
      SplitJoinRoundTrip(pieces[1..]);
      assert pieces == [p] + pieces[1..];
    }
  }

  /** A single non-empty comma-free piece splits to itself. */
  lemma SplitRun(w: string)
    requires |w| > 0 && CommaFree(w)
    ensures Split(w) == [w]
  {
    RunLengthOfCommaFreePrefix(w, "");
    assert w + "" == w;
    assert w[|w|..] == "";
  }

  /**
    Splitting at a comma splits each side separately: with `SplitRun` and
    `Split("") == []` this determines `Split` on every string.
  */
  lemma {:induction false} SplitAtComma(s: string, t: string)
    ensures Split(s + [Comma] + t) == Split(s) + Split(t)
    decreases |s|
  {
    var u := s + [Comma] + t;
    if |s| == 0 {
      assert u == [Comma] + t;
      assert u[1..] == t;
    } else if s[0] == Comma {
      assert u[1..] == s[1..] + [Comma] + t;
      SplitAtComma(s[1..], t);
    } else {
      SplitAtComma(s[RunLength(s)..], t);
      SplitAtCommaAfterRun(s, t);
    }
  }

  /** The step of `SplitAtComma` for a string that starts with a comma-free run. */
  lemma SplitAtCommaAfterRun(s: string, t: string)
    requires |s| > 0 && s[0] != Comma
    requires Split(s[RunLength(s)..] + [Comma] + t) == Split(s[RunLength(s)..]) + Split(t)
    ensures Split(s + [Comma] + t) == Split(s) + Split(t)
  {
    var n := RunLength(s);
    var u := s + [Comma] + t;
    var rest := s[n..] + [Comma] + t;
    RunOfJoined(s, t);
    assert u[0] == s[0];
    SplitOfRun(u);
    SplitOfRun(s);
    calc {
      Split(u);
      [s[..n]] + Split(rest);
      [s[..n]] + (Split(s[n..]) + Split(t));
      ([s[..n]] + Split(s[n..])) + Split(t);
    }
  }

  lemma SplitOfRun(s: string)
    requires |s| > 0 && s[0] != Comma
    ensures Split(s) == [s[..RunLength(s)]] + Split(s[RunLength(s)..])
  {
  }

  /** The first run of `s + "," + t` is the first run of `s`, and the remainder follows it. */
  lemma RunOfJoined(s: string, t: string)
    ensures RunLength(s + [Comma] + t) == RunLength(s)
    ensures (s + [Comma] + t)[..RunLength(s)] == s[..RunLength(s)]
    ensures (s + [Comma] + t)[RunLength(s)..] == s[RunLength(s)..] + [Comma] + t
  {
    var n := RunLength(s);
    var rest := s[n..] + [Comma] + t;
    assert s + [Comma] + t == s[..n] + rest by {
      assert s == s[..n] + s[n..];
    }
    RunLengthOfCommaFreePrefix(s[..n], rest);
  }

  // ---------------------------------------------------------------------------
  // Integer parsing: Swift's `Int(_ description: String)`
  // ---------------------------------------------------------------------------

  /** `Int.max` and `Int.min` on a 64-bit platform. */
  const IntMax: int := 0x7fff_ffff_ffff_ffff
  const IntMin: int := -0x8000_0000_0000_0000

  predicate IsDigit(c: char) { '0' <= c <= '9' }

  predicate AllDigits(s: string) {
    forall i :: 0 <= i < |s| ==> IsDigit(s[i])
  }

  function DigitValue(c: char): (d: nat)
    requires IsDigit(c)
    ensures d < 10
  {
    (c as int) - ('0' as int)
  }

  function DigitChar(d: nat): (c: char)
    requires d < 10
    ensures IsDigit(c) && DigitValue(c) == d
  {
    (('0' as int) + d) as char
  }

  /** Value of a string of decimal digits, most significant first. */
  function DigitsValue(s: string): nat
    requires AllDigits(s)
  {
    if |s| == 0 then 0
    else DigitsValue(s[..|s| - 1]) * 10 + DigitValue(s[|s| - 1])
  }

  /** An optional `+` or `-` followed by one or more ASCII digits. */
  predicate IsDecimal(s: string) {
    if |s| > 0 && (s[0] == '+' || s[0] == '-') then |s| > 1 && AllDigits(s[1..])
    else |s| > 0 && AllDigits(s)
  }

  /** The value a decimal string denotes. */
  function DecimalValue(s: string): int
    requires IsDecimal(s)
  {
    if s[0] == '-' then -(DigitsValue(s[1..]) as int)
    else if s[0] == '+' then DigitsValue(s[1..])
    else DigitsValue(s)
  }

  /**
    `Int(s)`: an optional `+` or `-` sign followed by one or more ASCII
    digits, whose value fits in 64 bits; anything else is `nil`.
  */
  function ParseInt(s: string): (r: Option<int>)
    ensures r.Some? <==> IsDecimal(s) && IntMin <= DecimalValue(s) <= IntMax
    ensures r.Some? ==> r.value == DecimalValue(s)
    ensures |s| == 0 ==> r.None?
    ensures r.Some? && r.value > 0 ==> |s| > 0 && s[0] != '-'
  {
    var negative := |s| > 0 && s[0] == '-';
    var digits := if |s| > 0 && (s[0] == '+' || s[0] == '-') then s[1..] else s;
    if |digits| == 0 || !AllDigits(digits) then None
    else
      var magnitude := DigitsValue(digits);
      var value: int := if negative then 0 - magnitude else magnitude;
      if IntMin <= value <= IntMax then Some(value) else None
  }

  /** A `+` sign changes nothing and a `-` sign negates. */
  lemma ParseIntSigns(d: string)
    requires |d| > 0 && AllDigits(d) && DigitsValue(d) <= IntMax
    ensures ParseInt(d) == Some(DigitsValue(d))
    ensures ParseInt("+" + d) == ParseInt(d)
    ensures ParseInt("-" + d) == Some(-(DigitsValue(d) as int))
  {
    ParseIntSigned(d, '+');
    ParseIntSigned(d, '-');
  }

  lemma ParseIntSigned(d: string, sign: char)
    requires |d| > 0 && AllDigits(d) && DigitsValue(d) <= IntMax
    requires sign == '+' || sign == '-'
    ensures IsDecimal([sign] + d) && ([sign] + d)[1..] == d
    ensures DecimalValue([sign] + d) == if sign == '+' then DigitsValue(d) else -(DigitsValue(d) as int)
  {
    assert ([sign] + d)[1..] == d;
  }

  lemma {:induction false} DigitsValueLeadingZero(d: string)
    requires AllDigits(d)
    ensures AllDigits("0" + d) && DigitsValue("0" + d) == DigitsValue(d)
    decreases |d|
  {
    var z := "0" + d;
    if |d| == 0 {
      assert z[..0] == "";
    } else {
      assert z[..|z| - 1] == "0" + d[..|d| - 1];
      assert z[|z| - 1] == d[|d| - 1];
      DigitsValueLeadingZero(d[..|d| - 1]);
    }
  }

  /** Leading zeros do not change the value. */
  lemma ParseIntLeadingZero(d: string)
    requires |d| > 0 && AllDigits(d)
    ensures ParseInt("0" + d) == ParseInt(d)
  {
    DigitsValueLeadingZero(d);
  }

  /** Padding, a letter O for a zero, and a decimal point are all refused. */
  lemma ParseIntRejects()
    ensures ParseInt(" 30") == None
    ensures ParseInt("3O") == None
    ensures ParseInt("1.5") == None
  {
    assert !IsDigit(' ');
    assert !IsDigit("3O"[1]);
    assert !IsDigit("1.5"[1]);
  }

  /** "030" and "+30" both read as 30. */
  lemma ParseIntAcceptsZeroAndPlus()
    ensures ParseInt("030") == Some(30)
    ensures ParseInt("+30") == Some(30)
  {
    ThirtyDigits();
    ParseIntLeadingZero("30");
    ParseIntSigns("30");
    assert "0" + "30" == "030";
    assert "+" + "30" == "+30";
  }

  lemma ThirtyDigits()
    ensures AllDigits("30") && DigitsValue("30") == 30
  {
    assert "30"[..1] == "3" && "3"[..0] == "";
  }

  /** Decimal rendering of a natural number, without sign or leading zeros. */
  function ShowNat(n: nat): (s: string)
    ensures |s| > 0 && AllDigits(s)
    decreases n
  {
    if n < 10 then [DigitChar(n)] else ShowNat(n / 10) + [DigitChar(n % 10)]
  }

  lemma {:induction false} DigitsValueShowNat(n: nat)
    ensures DigitsValue(ShowNat(n)) == n
    decreases n
  {
    if n >= 10 {
      var s := ShowNat(n);
      assert s[..|s| - 1] == ShowNat(n / 10);
      DigitsValueShowNat(n / 10);
    }
  }

  /** Parsing the decimal rendering of any `Int`-sized natural gives the number back. */
  lemma ParseShowNat(n: nat)
    requires n <= IntMax
    ensures ParseInt(ShowNat(n)) == Some(n)
  {
    DigitsValueShowNat(n);
  }

  // ---------------------------------------------------------------------------
  // Case-insensitive comparison
  // ---------------------------------------------------------------------------

  /** Case folding of one character; only the ASCII letters are folded. */
  function FoldCase(c: char): (d: char)
    ensures 'A' <= c <= 'Z' ==> 'a' <= d <= 'z'
    ensures !('A' <= c <= 'Z') ==> d == c
  {
    if 'A' <= c <= 'Z' then ((c as int) + 32) as char else c
  }

  function FoldString(s: string): (r: string)
    ensures |r| == |s|
    ensures forall i :: 0 <= i < |s| ==> r[i] == FoldCase(s[i])
  {
    seq(|s|, i requires 0 <= i < |s| => FoldCase(s[i]))
  }

  /** `a.caseInsensitiveCompare(b) == .orderedSame`. */
  predicate SameIgnoringCase(a: string, b: string) {
    FoldString(a) == FoldString(b)
  }
}
