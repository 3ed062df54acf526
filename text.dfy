/**
 * The JavaScript string primitives the scrapers rely on, over `seq<char>`
 * (one `char` per Unicode scalar value): `String.prototype.trim`,
 * `startsWith`, a global `replace` of a literal pattern by the empty string,
 * the `length` of a string in UTF-16 code units, and the rendering of a
 * non-negative integer inside a template literal.
 */
module Text {

  /** WhiteSpace and LineTerminator code points as ECMAScript's `trim` strips them. */
  predicate IsSpace(c: char)
  {
    || c == '\t' || c == '\n' || c == '\U{B}' || c == '\U{C}' || c == '\r'
    || c == ' ' || c == '\U{A0}' || c == '\U{1680}'
    || ('\U{2000}' <= c <= '\U{200A}')
    || c == '\U{2028}' || c == '\U{2029}' || c == '\U{202F}' || c == '\U{205F}'
    || c == '\U{3000}' || c == '\U{FEFF}'
  }

  /** `s` neither begins nor ends with a whitespace character. */
  predicate Trimmed(s: string)
  {
    s == [] || (!IsSpace(s[0]) && !IsSpace(s[|s| - 1]))
  }

  predicate AllSpace(s: string)
  {
    forall i :: 0 <= i < |s| ==> IsSpace(s[i])
  }

  /** Drops the leading whitespace: the result is the suffix after a run of spaces. */
  function TrimStart(s: string): (r: string)
    ensures |r| <= |s| && r == s[|s| - |r|..]
    ensures forall i :: 0 <= i < |s| - |r| ==> IsSpace(s[i])
    ensures r == [] || !IsSpace(r[0])
  {
    if s != [] && IsSpace(s[0]) then
      var r := TrimStart(s[1..]);
      assert s[|s| - |r|..] == s[1..][|s| - 1 - |r|..];
      assert forall i :: 1 <= i < |s| ==> s[i] == s[1..][i - 1];
      r
    else s
  }

  /** Drops the trailing whitespace: the result is the prefix before a run of spaces. */
  function TrimEnd(s: string): (r: string)
    ensures |r| <= |s| && r == s[..|r|]
    ensures forall i :: |r| <= i < |s| ==> IsSpace(s[i])
    ensures r == [] || !IsSpace(r[|r| - 1])
  {
    if s != [] && IsSpace(s[|s| - 1]) then
      var r := TrimEnd(s[..|s| - 1]);
      assert s[..|r|] == s[..|s| - 1][..|r|];
      assert forall i :: 0 <= i < |s| - 1 ==> s[i] == s[..|s| - 1][i];
      r
    else s
  }

  /**
   * `String.prototype.trim`: the slice of `s` that is left once the whitespace
   * on both ends is gone.
   */
  function Trim(s: string): (r: string)
    ensures Trimmed(r) && |r| <= |s|
  {
    TrimEnd(TrimStart(s))
  }

  /** What `trim` removes is whitespace on either side of the slice it keeps. */
  lemma TrimIsSlice(s: string)
    ensures exists i, j :: 0 <= i <= j <= |s| && Trim(s) == s[i..j] && AllSpace(s[..i]) && AllSpace(s[j..])
  {
    var t := TrimStart(s);
    var r := TrimEnd(t);
    var i := |s| - |t|;
    var j := i + |r|;
    assert r == s[i..j] by {
      assert s[i..][..|r|] == s[i..j];
    }
    SpaceOutside(s, i, j);
  }

  lemma SpaceOutside(s: string, i: nat, j: nat)
    requires i <= j <= |s|
    requires forall k :: 0 <= k < i ==> IsSpace(s[k])
    requires forall k :: j <= k < |s| ==> IsSpace(s[k])
    ensures AllSpace(s[..i]) && AllSpace(s[j..])
  {
    assert forall k :: 0 <= k < i ==> s[..i][k] == s[k];
    assert forall k :: 0 <= k < |s| - j ==> s[j..][k] == s[j + k];
  }

  /** Trimming text that has no surrounding whitespace gives it back unchanged. */
  lemma TrimOfTrimmed(s: string)
    requires Trimmed(s)
    ensures Trim(s) == s
  {
  }

  /** Trimming is idempotent. */
  lemma TrimIdempotent(s: string)
    ensures Trim(Trim(s)) == Trim(s)
  {
    TrimOfTrimmed(Trim(s));
  }

  /** `s.startsWith(p)`. */
  predicate StartsWith(s: string, p: string)
  {
    |p| <= |s| && s[..|p|] == p
  }

  /** `pat` occurs in `s` beginning at index `p`. */
  predicate OccursAt(s: string, p: int, pat: string)
  {
    0 <= p && p + |pat| <= |s| && s[p..p + |pat|] == pat
  }

  predicate Contains(s: string, pat: string)
  {
    exists p :: 0 <= p <= |s| - |pat| && OccursAt(s, p, pat)
  }

  /**
   * `s.replace(/pat/g, '')` for a literal `pat`: the occurrences found by a
   * left-to-right scan that resumes after each match are removed. The result
   * is no longer than `s` and keeps every character that was not removed, in
   * order.
   */
  function RemoveAll(s: string, pat: string): (r: string)
    requires pat != []
    ensures |r| <= |s|
    ensures !Contains(s, pat) ==> r == s
    decreases |s|
  {
    if |s| < |pat| then s
    else if s[..|pat|] == pat then
      assert OccursAt(s, 0, pat);
      RemoveAll(s[|pat|..], pat)
    else
      assert Contains(s[1..], pat) ==> Contains(s, pat) by {
        if Contains(s[1..], pat) {
          var p :| 0 <= p <= |s[1..]| - |pat| && OccursAt(s[1..], p, pat);
          assert s[p + 1..p + 1 + |pat|] == s[1..][p..p + |pat|];
          assert OccursAt(s, p + 1, pat);
        }
      }
      [s[0]] + RemoveAll(s[1..], pat)
  }

  /**
   * The scan removes the first occurrence of `pat` and goes on after it:
   * the text before that occurrence is kept as it is.
   */
  lemma {:induction false} RemoveAllAt(x: string, pat: string, y: string)
    requires pat != []
    requires forall p :: 0 <= p < |x| ==> !OccursAt(x + pat, p, pat)
    ensures RemoveAll(x + (pat + y), pat) == x + RemoveAll(y, pat)
    decreases |x|
  {
    if x == [] {
      assert x + (pat + y) == pat + y;
      RemoveAllMatch(pat, y);
    } else {
      NoEarlierShift(x, pat);
      RemoveAllAt(x[1..], pat, y);
      RemoveAllCons(x, pat, y);
    }
  }

  /** The step of `RemoveAllAt`: a first character that begins no occurrence goes in front. */
  lemma RemoveAllCons(x: string, pat: string, y: string)
    requires pat != [] && x != []
    requires !OccursAt(x + pat, 0, pat)
    requires RemoveAll(x[1..] + (pat + y), pat) == x[1..] + RemoveAll(y, pat)
    ensures RemoveAll(x + (pat + y), pat) == x + RemoveAll(y, pat)
  {
    RemoveAllKeep(x, pat, y);
    ConsJoin(x, RemoveAll(y, pat));
  }

  lemma ConsJoin<T>(a: seq<T>, b: seq<T>)
    requires a != []
    ensures [a[0]] + (a[1..] + b) == a + b
  {
    assert [a[0]] + a[1..] == a;
  }

  /** A leading occurrence is removed. */
  lemma RemoveAllMatch(pat: string, y: string)
    requires pat != []
    ensures RemoveAll(pat + y, pat) == RemoveAll(y, pat)
  {
    assert (pat + y)[..|pat|] == pat;
    assert (pat + y)[|pat|..] == y;
  }

  /** A first character that begins no occurrence is kept. */
  lemma RemoveAllKeep(x: string, pat: string, y: string)
    requires pat != [] && x != []
    requires !OccursAt(x + pat, 0, pat)
    ensures RemoveAll(x + (pat + y), pat) == [x[0]] + RemoveAll(x[1..] + (pat + y), pat)
  {
    var s := x + (pat + y);
    assert s[..|pat|] == (x + pat)[..|pat|];
    assert s[1..] == x[1..] + (pat + y);
  }

  /** Dropping the first character keeps `x + pat` free of earlier occurrences. */
  lemma NoEarlierShift(x: string, pat: string)
    requires x != []
    requires forall p :: 0 <= p < |x| ==> !OccursAt(x + pat, p, pat)
    ensures forall p :: 0 <= p < |x| - 1 ==> !OccursAt(x[1..] + pat, p, pat)
    ensures !OccursAt(x + pat, 0, pat)
  {
    forall p | 0 <= p < |x| - 1
      ensures !OccursAt(x[1..] + pat, p, pat)
    {
      assert !OccursAt(x + pat, p + 1, pat);
      assert (x[1..] + pat)[p..p + |pat|] == (x + pat)[p + 1..p + 1 + |pat|];
    }
  }

  /** How many UTF-16 code units encode `c`: two for a code point above U+FFFF. */
  function CodeUnits(c: char): nat
  {
    if c as int > 0xFFFF then 2 else 1
  }

  /** JavaScript's `s.length`: the number of UTF-16 code units of `s`. */
  function Utf16Length(s: string): (n: nat)
    ensures |s| <= n <= 2 * |s|
    ensures s == [] <==> n == 0
  {
    if s == [] then 0 else Utf16Length(s[..|s| - 1]) + CodeUnits(s[|s| - 1])
  }

  /** Text of the Basic Multilingual Plane has one code unit per character. */
  lemma {:induction false} Utf16LengthOfBmp(s: string)
    requires forall i :: 0 <= i < |s| ==> s[i] as int <= 0xFFFF
    ensures Utf16Length(s) == |s|
  {
    if s != [] {
      Utf16LengthOfBmp(s[..|s| - 1]);
    }
  }

  /** Text made only of code points above U+FFFF has two code units per character. */
  lemma {:induction false} Utf16LengthOfAstral(s: string)
    requires forall i :: 0 <= i < |s| ==> s[i] as int > 0xFFFF
    ensures Utf16Length(s) == 2 * |s|
  {
    if s != [] {
      Utf16LengthOfAstral(s[..|s| - 1]);
    }
  }

  /** The code units of a concatenation add up. */
  lemma {:induction false} Utf16LengthAppend(a: string, b: string)
    ensures Utf16Length(a + b) == Utf16Length(a) + Utf16Length(b)
    decreases |b|
  {
    if b != [] {
      assert (a + b)[..|a + b| - 1] == a + b[..|b| - 1];
      Utf16LengthAppend(a, b[..|b| - 1]);
    } else {
      assert a + b == a;
    }
  }

  predicate IsDigit(c: char)
  {
    '0' <= c <= '9'
  }

  predicate AllDigits(s: string)
  {
    forall i :: 0 <= i < |s| ==> IsDigit(s[i])
  }

  function DigitChar(d: nat): (c: char)
    requires d < 10
    ensures IsDigit(c) && (c as int) - ('0' as int) == d
  {
    ['0', '1', '2', '3', '4', '5', '6', '7', '8', '9'][d]
  }

  /** The value of a run of decimal digits, most significant first. */
  function DigitsValue(s: string): nat
    requires AllDigits(s)
  {
    if s == [] then 0
    else DigitsValue(s[..|s| - 1]) * 10 + ((s[|s| - 1] as int) - ('0' as int))
  }

  /**
   * How a template literal renders a non-negative integer (`${index + 1}`):
   * shortest decimal, no sign, no leading zero.
   */
  function NatToString(n: nat): (r: string)
    ensures r != [] && AllDigits(r)
    ensures r[0] == '0' ==> n == 0 && r == "0"
  {
    if n < 10 then [DigitChar(n)]
    else NatToString(n / 10) + [DigitChar(n % 10)]
  }

  /** Reading back the rendering of `n` gives `n`. */
  lemma {:induction false} NatToStringRoundTrip(n: nat)
    ensures DigitsValue(NatToString(n)) == n
  {
    if n >= 10 {
      NatToStringRoundTrip(n / 10);
      var r := NatToString(n);
      assert r[..|r| - 1] == NatToString(n / 10);
    }
  }
}
