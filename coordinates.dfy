/**
 * Reading a tile's four coordinates out of a query-string literal
 * (`getCoordinateRange` in getAllAreaUrls.js), with `parseFloat` modelled as
 * the exact value of the leading decimal literal of its argument.
 */
module Coordinates {
  import opened Wrappers
  import opened Text

  /** A box as the map service's query string gives it. */
  datatype Box = Box(lat1: real, lat2: real, lng1: real, lng2: real)

  function Pow10(k: nat): (p: nat)
    ensures p >= 1
  {
    if k == 0 then 1 else 10 * Pow10(k - 1)
  }

  /** Length of the run of decimal digits at the start of `s`. */
  function DigitRun(s: string): (n: nat)
    ensures n <= |s| && AllDigits(s[..n])
    ensures n == |s| || !IsDigit(s[n])
  {
    if s != [] && IsDigit(s[0]) then
      var n := 1 + DigitRun(s[1..]);
      assert s[..n] == [s[0]] + s[1..][..n - 1];
      n
    else 0
  }

  /**
   * `parseFloat(s)`: the value of the longest prefix of `s` of the form
   * `[+-]? digits ('.' digits?)?` or `[+-]? '.' digits`, and `None` (NaN) when
   * `s` does not begin with one.
   */
  function ParseFloat(s: string): Option<real>
  {
    if s != [] && (s[0] == '+' || s[0] == '-') then
      var m := ParseUnsigned(s[1..]);
      if m.Some? && s[0] == '-' then Some(-m.value) else m
    else ParseUnsigned(s)
  }

  /** The unsigned part of `parseFloat`: `digits ('.' digits?)?` or `'.' digits`. */
  function ParseUnsigned(body: string): Option<real>
  {
    var n := DigitRun(body);
    var rest := body[n..];
    var frac := if rest != [] && rest[0] == '.' then rest[1..][..DigitRun(rest[1..])] else [];
    if n == 0 && frac == [] then None
    else Some(DecimalValue(body[..n], frac))
  }

  /** The exact value of `whole.fraction`. */
  function DecimalValue(whole: string, fraction: string): real
    requires AllDigits(whole) && AllDigits(fraction)
  {
    DigitsValue(whole) as real + DigitsValue(fraction) as real / Pow10(|fraction|) as real
  }

  /** A decimal literal as a coordinate is written in a query string. */
  datatype Decimal = Decimal(negative: bool, whole: string, fraction: string)
  {
    predicate Valid()
    {
      AllDigits(whole) && AllDigits(fraction) && (whole != [] || fraction != [])
    }

    /** The unsigned text, `whole` then `.fraction` when there is a fraction. */
    function Digits(): string
    {
      if fraction == [] then whole else whole + "." + fraction
    }

    function Text(): string
    {
      if negative then "-" + Digits() else Digits()
    }

    function Value(): real
      requires Valid()
    {
      if negative then -DecimalValue(whole, fraction) else DecimalValue(whole, fraction)
    }
  }

  lemma DigitRunOfDigits(d: string, rest: string)
    requires AllDigits(d)
    requires rest == [] || !IsDigit(rest[0])
    ensures DigitRun(d + rest) == |d|
  {
    if d != [] {
      assert (d + rest)[1..] == d[1..] + rest;
      DigitRunOfDigits(d[1..], rest);
    }
  }

  /** A literal without a fraction is read back as its whole part. */
  lemma ParseWhole(whole: string, rest: string)
    requires AllDigits(whole) && whole != []
    requires rest == [] || (!IsDigit(rest[0]) && rest[0] != '.')
    ensures ParseUnsigned(whole + rest) == Some(DecimalValue(whole, []))
  {
    var body := whole + rest;
    DigitRunOfDigits(whole, rest);
    assert body[..|whole|] == whole;
    assert body[|whole|..] == rest;
  }

  /** A literal with a fraction is read back as whole part plus fraction. */
  lemma ParseFraction(whole: string, fraction: string, rest: string)
    requires AllDigits(whole) && AllDigits(fraction) && fraction != []
    requires rest == [] || (!IsDigit(rest[0]) && rest[0] != '.')
    ensures ParseUnsigned(whole + "." + fraction + rest) == Some(DecimalValue(whole, fraction))
  {
    var after := "." + fraction + rest;
    var body := whole + after;
    assert body == whole + "." + fraction + rest;
    DigitRunOfDigits(whole, after);
    var n := DigitRun(body);
    assert n == |whole|;
    assert body[..n] == whole;
    assert body[n..] == after;
    assert after != [] && after[0] == '.';
    assert after[1..] == fraction + rest;
    DigitRunOfDigits(fraction, rest);
    assert DigitRun(after[1..]) == |fraction|;
    assert after[1..][..|fraction|] == fraction;
  }

  /** The unsigned text of a decimal is read back as its magnitude. */
  lemma ParseMagnitude(d: Decimal, rest: string)
    requires d.Valid()
    requires rest == [] || (!IsDigit(rest[0]) && rest[0] != '.')
    ensures ParseUnsigned(d.Digits() + rest) == Some(DecimalValue(d.whole, d.fraction))
  {
    if d.fraction == [] {
      ParseWhole(d.whole, rest);
    } else {
      ParseFraction(d.whole, d.fraction, rest);
    }
  }

  /** The unsigned text of a decimal starts with a digit or a point, never a sign. */
  lemma DigitsStart(d: Decimal, rest: string)
    requires d.Valid()
    ensures d.Digits() + rest != [] && (d.Digits() + rest)[0] != '+' && (d.Digits() + rest)[0] != '-'
  {
    if d.whole != [] {
      assert (d.Digits() + rest)[0] == d.whole[0];
    } else {
      assert (d.Digits() + rest)[0] == '.';
    }
  }

  /**
   * `parseFloat` reads a decimal literal back exactly, whatever follows it,
   * provided the next character cannot extend the literal.
   */
  lemma ParseFloatOfDecimal(d: Decimal, rest: string)
    requires d.Valid()
    requires rest == [] || (!IsDigit(rest[0]) && rest[0] != '.')
    ensures ParseFloat(d.Text() + rest) == Some(d.Value())
  {
    ParseMagnitude(d, rest);
    if d.negative {
      var s := d.Text() + rest;
      assert s == "-" + (d.Digits() + rest);
      assert s[1..] == d.Digits() + rest;
    } else {
      DigitsStart(d, rest);
    }
  }

  /** Index of the first occurrence of `pat` in `s` at or after `from`. */
  function Find(s: string, pat: string, from: nat): (r: Option<nat>)
    ensures r.Some? ==> from <= r.value && r.value + |pat| <= |s|
    decreases |s| - from
  {
    if from + |pat| > |s| then None
    else if s[from..from + |pat|] == pat then Some(from)
    else Find(s, pat, from + 1)
  }

  /** `Find` stops at the first occurrence at or after `from`. */
  lemma {:induction false} FindFirstAt(s: string, pat: string, from: nat, e: nat)
    requires from <= e && OccursAt(s, e, pat)
    requires forall p :: from <= p < e ==> !OccursAt(s, p, pat)
    ensures Find(s, pat, from) == Some(e)
    decreases e - from
  {
    if from < e {
      assert !OccursAt(s, from, pat);
      FindFirstAt(s, pat, from + 1, e);
    }
  }

  /** The characters ECMAScript's `.` does not match: LF, CR, U+2028 and U+2029. */
  predicate IsLineTerminator(c: char)
  {
    c == '\n' || c == '\r' || c == '\U{2028}' || c == '\U{2029}'
  }

  predicate OnOneLine(t: string)
  {
    forall i :: 0 <= i < |t| ==> !IsLineTerminator(t[i])
  }

  /** The longest prefix of `s` that `.+` can run over: up to the first line terminator. */
  function LineOf(s: string): (l: string)
    ensures |l| <= |s| && l == s[..|l|] && OnOneLine(l)
    ensures |l| == |s| || IsLineTerminator(s[|l|])
  {
    if s != [] && !IsLineTerminator(s[0]) then
      var l := [s[0]] + LineOf(s[1..]);
      assert forall i :: 1 <= i < |l| ==> l[i] == LineOf(s[1..])[i - 1];
      l
    else []
  }

  /**
   * A capture `(.+)` followed by `key`: the non-empty text before the first
   * `key` that leaves it at least one character, and what follows that `key`;
   * `None` when there is no such `key` or the text crosses a line terminator.
   */
  function Capture(s: string, key: string): Option<(string, string)>
  {
    var k := Find(s, key, 1);
    if k.None? || !OnOneLine(s[..k.value]) then None else Some((s[..k.value], s[k.value + |key|..]))
  }

  /**
   * `getCoordinateRange(url)`: the match of
   * `lat1=(.+)&lat2=(.+)&lng1=(.+)&lng2=(.+)` taken at the first `lat1=`, each
   * capture running to the next key, the last one to the end of its line, and
   * `parseFloat` of each capture. `None` when the pattern does not match (the
   * source then throws a TypeError on `match[1]`) or a capture has no numeric
   * prefix (NaN).
   */
  function ParseCoordinateRange(url: string): Option<Box>
  {
    var a := Find(url, "lat1=", 0);
    if a.None? then None else
    var c1 := Capture(url[a.value + 5..], "&lat2=");
    if c1.None? then None else
    var c2 := Capture(c1.value.1, "&lng1=");
    if c2.None? then None else
    var c3 := Capture(c2.value.1, "&lng2=");
    if c3.None? || LineOf(c3.value.1) == [] then None else
    var v1 := ParseFloat(c1.value.0);
    var v2 := ParseFloat(c2.value.0);
    var v3 := ParseFloat(c3.value.0);
    var v4 := ParseFloat(LineOf(c3.value.1));
    BoxOf(v1, v2, v3, v4)
  }

  /** The query-string literal that carries the four decimals, after `prefix` and before `tail`. */
  function QueryText(prefix: string, d1: Decimal, d2: Decimal, d3: Decimal, d4: Decimal, tail: string): string
  {
    prefix + ("lat1=" + (d1.Text() + ("&lat2=" + (d2.Text() + ("&lng1=" + (d3.Text() + ("&lng2=" + (d4.Text() + tail))))))))
  }

  predicate NoAmpersand(t: string)
  {
    forall i :: 0 <= i < |t| ==> t[i] != '&'
  }

  /** Every character is a digit, a point or a minus sign. */
  predicate NumeralChars(t: string)
  {
    forall i :: 0 <= i < |t| ==> IsDigit(t[i]) || t[i] == '.' || t[i] == '-'
  }

  /** A written decimal is non-empty and holds neither `&` nor a line terminator. */
  lemma DecimalText(d: Decimal)
    requires d.Valid()
    ensures |d.Text()| >= 1 && NoAmpersand(d.Text()) && OnOneLine(d.Text())
  {
    var t := d.Text();
    var u := d.Digits();
    assert NumeralChars(u) by {
      if d.fraction != [] {
        assert u == d.whole + ("." + d.fraction);
        forall i | 0 <= i < |u| ensures IsDigit(u[i]) || u[i] == '.' {
          if i < |d.whole| {
            assert u[i] == d.whole[i];
          } else if i > |d.whole| {
            assert u[i] == d.fraction[i - |d.whole| - 1];
          }
        }
      }
    }
    if d.negative {
      assert forall i :: 1 <= i < |t| ==> t[i] == u[i - 1];
    }
    assert NumeralChars(t);
  }

  /** A non-empty capture free of `&` and of line terminators ends at the key that follows it. */
  lemma CaptureBeforeKey(t: string, key: string, y: string)
    requires |t| >= 1 && NoAmpersand(t) && OnOneLine(t) && |key| > 0 && key[0] == '&'
    ensures Capture(t + (key + y), key) == Some((t, y))
  {
    var s := t + (key + y);
    var e := |t|;
    assert s[e..][..|key|] == key;
    assert s[e..e + |key|] == key;
    assert OccursAt(s, e, key);
    forall p | 1 <= p < e ensures !OccursAt(s, p, key) {
      assert s[p] == t[p];
    }
    FindFirstAt(s, key, 1, e);
    assert s[..e] == t;
    assert s[e + |key|..] == y;
  }

  /** A capture that would have to cross a line terminator to reach its key fails. */
  lemma CaptureAcrossLine(t: string, key: string, y: string)
    requires |t| >= 1 && NoAmpersand(t) && !OnOneLine(t) && |key| > 0 && key[0] == '&'
    ensures Capture(t + (key + y), key).None?
  {
    var s := t + (key + y);
    var e := |t|;
    assert s[e..][..|key|] == key;
    assert s[e..e + |key|] == key;
    forall p | 1 <= p < e ensures !OccursAt(s, p, key) {
      assert s[p] == t[p];
    }
    FindFirstAt(s, key, 1, e);
    assert s[..e] == t;
  }

  /**
   * When the text after the first `lat1=` reaches `&lat2=` only across a
   * line break, the pattern has no match there and no box is read.
   */
  lemma LineBreakFails(prefix: string, t1: string, r: string)
    requires |t1| >= 1 && NoAmpersand(t1) && !OnOneLine(t1)
    requires forall p :: 0 <= p < |prefix| ==> !OccursAt(prefix + "lat1=", p, "lat1=")
    ensures ParseCoordinateRange(prefix + ("lat1=" + (t1 + ("&lat2=" + r)))).None?
  {
    var r1 := t1 + ("&lat2=" + r);
    FindFirstOf(prefix, "lat1=", r1);
    CaptureAcrossLine(t1, "&lat2=", r);
  }

  /** The first `key` in `prefix + (key + y)` is the one after `prefix` when `prefix + key` holds no earlier one. */
  lemma FindFirstOf(prefix: string, key: string, y: string)
    requires forall p :: 0 <= p < |prefix| ==> !OccursAt(prefix + key, p, key)
    ensures Find(prefix + (key + y), key, 0) == Some(|prefix|)
    ensures (prefix + (key + y))[|prefix| + |key|..] == y
  {
    var u := prefix + key;
    var s := prefix + (key + y);
    assert s == u + y;
    assert s[|prefix|..|prefix| + |key|] == key;
    assert OccursAt(s, |prefix|, key);
    forall p | 0 <= p < |prefix| ensures !OccursAt(s, p, key) {
      assert !OccursAt(u, p, key);
      assert s[p..p + |key|] == u[p..p + |key|];
    }
    FindFirstAt(s, key, 0, |prefix|);
  }

  /** The box read from four parsed captures, `None` when any of them is NaN. */
  function BoxOf(v1: Option<real>, v2: Option<real>, v3: Option<real>, v4: Option<real>): Option<Box>
  {
    if v1.None? || v2.None? || v3.None? || v4.None? then None
    else Some(Box(v1.value, v2.value, v3.value, v4.value))
  }

  /** The parser's result in terms of the position of `lat1=` and the three captures. */
  lemma ParseOfCaptures(url: string, r1: string, t1: string, r2: string, t2: string, r3: string, t3: string, r4: string)
    requires Find(url, "lat1=", 0).Some? && url[Find(url, "lat1=", 0).value + 5..] == r1
    requires Capture(r1, "&lat2=") == Some((t1, r2))
    requires Capture(r2, "&lng1=") == Some((t2, r3))
    requires Capture(r3, "&lng2=") == Some((t3, r4)) && LineOf(r4) != []
    ensures ParseCoordinateRange(url) == BoxOf(ParseFloat(t1), ParseFloat(t2), ParseFloat(t3), ParseFloat(LineOf(r4)))
  {
  }

  /**
   * The parser's captures in a query string with the keys in order: the
   * text between consecutive keys, and the rest of the line after `lng2=`.
   */
  lemma ParseQueryParts(prefix: string, t1: string, t2: string, t3: string, r4: string)
    requires |t1| >= 1 && |t2| >= 1 && |t3| >= 1 && |r4| >= 1 && !IsLineTerminator(r4[0])
    requires NoAmpersand(t1) && NoAmpersand(t2) && NoAmpersand(t3)
    requires OnOneLine(t1) && OnOneLine(t2) && OnOneLine(t3)
    requires forall p :: 0 <= p < |prefix| ==> !OccursAt(prefix + "lat1=", p, "lat1=")
    ensures ParseCoordinateRange(prefix + ("lat1=" + (t1 + ("&lat2=" + (t2 + ("&lng1=" + (t3 + ("&lng2=" + r4))))))))
         == BoxOf(ParseFloat(t1), ParseFloat(t2), ParseFloat(t3), ParseFloat(LineOf(r4)))
  {
    var r3 := t3 + ("&lng2=" + r4);
    var r2 := t2 + ("&lng1=" + r3);
    var r1 := t1 + ("&lat2=" + r2);
    var url := prefix + ("lat1=" + r1);
    FindFirstOf(prefix, "lat1=", r1);
    CaptureBeforeKey(t1, "&lat2=", r2);
    CaptureBeforeKey(t2, "&lng1=", r3);
    CaptureBeforeKey(t3, "&lng2=", r4);
    ParseOfCaptures(url, r1, t1, r2, t2, r3, t3, r4);
  }

  /** `.+` runs over text without line terminators and on into whatever follows it. */
  lemma {:induction false} LineOfAppend(a: string, b: string)
    requires OnOneLine(a)
    ensures LineOf(a + b) == a + LineOf(b)
  {
    if a != [] {
      assert (a + b)[1..] == a[1..] + b;
      LineOfAppend(a[1..], b);
      assert [a[0]] + (a[1..] + LineOf(b)) == a + LineOf(b);
    } else {
      assert a + b == b;
    }
  }

  /**
   * The parser returns the four numbers written after `lat1=`, `lat2=`,
   * `lng1=` and `lng2=`, provided no earlier `lat1=` appears before the
   * literal; the last capture also holds the line of `tail` (such as
   * `&map_level=6`), of which only the leading decimal is read. The source's
   * greedy captures and its full `parseFloat` read the same four values
   * when, in addition, `tail` repeats none of the keys `&lat2=`, `&lng1=` and
   * `&lng2=` and does not begin with an exponent (`e` or `E`), which
   * `parseFloat` would read into the last value.
   */
  lemma ParseQueryText(prefix: string, d1: Decimal, d2: Decimal, d3: Decimal, d4: Decimal, tail: string)
    requires d1.Valid() && d2.Valid() && d3.Valid() && d4.Valid()
    requires tail == [] || (!IsDigit(tail[0]) && tail[0] != '.')
    requires forall p :: 0 <= p < |prefix| ==> !OccursAt(prefix + "lat1=", p, "lat1=")
    ensures ParseCoordinateRange(QueryText(prefix, d1, d2, d3, d4, tail))
         == Some(Box(d1.Value(), d2.Value(), d3.Value(), d4.Value()))
  {
    DecimalText(d1);
    DecimalText(d2);
    DecimalText(d3);
    DecimalText(d4);
    ParseQueryParts(prefix, d1.Text(), d2.Text(), d3.Text(), d4.Text() + tail);
    LineOfAppend(d4.Text(), tail);
    ParseFloatOfDecimal(d1, []);
    ParseFloatOfDecimal(d2, []);
    ParseFloatOfDecimal(d3, []);
    ParseFloatOfDecimal(d4, LineOf(tail));
    assert d1.Text() + [] == d1.Text() && d2.Text() + [] == d2.Text() && d3.Text() + [] == d3.Text();
  }
}
