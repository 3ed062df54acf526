/**
 * The listing extractor `fetchHomePageLinks` (server_with_sql.js:37-54,
 * index.js:20-37): every match of the global pattern `homepage:"(http[^"]+)"`
 * in the fetched map data, found left to right with `regex.exec`, each scan
 * resuming just after the previous match's closing quote.
 */
module Homepages {
  import opened Wrappers
  import opened Text

  /** The literal text in front of every captured link. */
  const Key: string := "homepage:\""

  /** The text every match begins with: the key, then the `http` the group starts with. */
  const Opening: string := Key + "http"

  /** The first `"` at or after `from`. */
  function QuoteFrom(s: string, from: nat): (r: Option<nat>)
    ensures r.Some? ==> from <= r.value < |s| && s[r.value] == '"'
    decreases |s| - from
  {
    if from >= |s| then None
    else if s[from] == '"' then Some(from)
    else QuoteFrom(s, from + 1)
  }

  /** A `"` with none before it from `from` on is the one found. */
  lemma {:induction false} QuoteFromFirst(s: string, from: nat, e: nat)
    requires from <= e < |s| && s[e] == '"'
    requires forall k :: from <= k < e ==> s[k] != '"'
    ensures QuoteFrom(s, from) == Some(e)
    decreases e - from
  {
    if from < e {
      QuoteFromFirst(s, from + 1, e);
    }
  }

  /** No `"` lies between `from` and the quote found. */
  lemma {:induction false} QuoteFromIsFirst(s: string, from: nat)
    requires QuoteFrom(s, from).Some?
    ensures forall k :: from <= k < QuoteFrom(s, from).value ==> s[k] != '"'
    decreases |s| - from
  {
    if s[from] != '"' {
      QuoteFromIsFirst(s, from + 1);
    }
  }

  /**
   * A match of the pattern starting at index `i`: the key, `http`, at least
   * one other character that is not `"`, and the first `"` after them, whose
   * index is the result. Greedy `[^"]+` stops only at a `"`, so no other
   * length can make the pattern match here.
   */
  function MatchAt(s: string, i: nat): (r: Option<nat>)
    ensures r.Some? ==> i + 14 < r.value < |s| && OpensAt(s, i, 14)
  {
    if OpensAt(s, i, 14) then
      match QuoteFrom(s, i + 14)
      case Some(q) => if q > i + 14 then Some(q) else None
      case None => None
    else None
  }

  /** The first `n` characters of the opening appear in `s` from index `i` on. */
  predicate OpensAt(s: string, i: nat, n: nat)
    requires n <= |Opening|
  {
    i + n <= |s| && (n == 0 || (OpensAt(s, i, n - 1) && s[i + n - 1] == Opening[n - 1]))
  }

  lemma {:induction false} OpensAtIsPrefix(s: string, i: nat, n: nat)
    requires n <= |Opening|
    ensures OpensAt(s, i, n) <==> i + n <= |s| && s[i..i + n] == Opening[..n]
  {
    if n > 0 {
      OpensAtIsPrefix(s, i, n - 1);
      if i + n <= |s| {
        assert s[i..i + n] == s[i..i + n - 1] + [s[i + n - 1]];
        assert Opening[..n] == Opening[..n - 1] + [Opening[n - 1]];
        assert s[i..i + n][..n - 1] == s[i..i + n - 1];
        assert Opening[..n][..n - 1] == Opening[..n - 1];
      }
    }
  }

  /** The captures of all matches from index `i` on, as a left-to-right scan finds them. */
  function LinksFrom(s: string, i: nat): seq<string>
    decreases |s| - i
  {
    if i >= |s| then []
    else
      match MatchAt(s, i)
      case Some(q) => [s[i + 10..q]] + LinksFrom(s, q + 1)
      case None => LinksFrom(s, i + 1)
  }

  /** The captures of all matches in `s`, in order. */
  function Links(s: string): seq<string>
  {
    LinksFrom(s, 0)
  }

  /** What `regex.exec` returns: no match, or where the match starts and the index of its closing quote. */
  datatype ExecResult = NoMatch | Match(index: nat, close: nat)

  /** `regex.exec(s)` with `lastIndex == from`: the leftmost match at or after `from`. */
  function Exec(s: string, from: nat): (r: ExecResult)
    ensures r.Match? ==> from <= r.index && r.index + 14 < r.close < |s|
    decreases |s| - from
  {
    if from >= |s| then NoMatch
    else
      match MatchAt(s, from)
      case Some(q) => Match(from, q)
      case None => Exec(s, from + 1)
  }

  /** `exec` finds the leftmost match at or after `from`, and finds none exactly when there is none. */
  lemma {:induction false} ExecIsLeftmost(s: string, from: nat)
    ensures Exec(s, from).NoMatch? <==> forall k :: from <= k < |s| ==> MatchAt(s, k).None?
    ensures Exec(s, from).Match? ==>
      && MatchAt(s, Exec(s, from).index) == Some(Exec(s, from).close)
      && forall k :: from <= k < Exec(s, from).index ==> MatchAt(s, k).None?
    decreases |s| - from
  {
    if from < |s| && MatchAt(s, from).None? {
      ExecIsLeftmost(s, from + 1);
    }
  }

  /** The captures of the `while (regex.exec(data))` loop when `lastIndex` starts at `from`. */
  function Scan(s: string, from: nat): seq<string>
    decreases |s| - from
  {
    var m := Exec(s, from);
    if m.NoMatch? then [] else [s[m.index + 10..m.close]] + Scan(s, m.close + 1)
  }

  /** Where no match starts, the scan moves on by one character. */
  lemma LinksSkip(s: string, from: nat)
    requires from < |s| && MatchAt(s, from).None?
    ensures LinksFrom(s, from) == LinksFrom(s, from + 1)
  {
  }

  /** Where a match starts, the scan captures it and resumes after its closing quote. */
  lemma LinksTake(s: string, from: nat)
    requires from < |s| && MatchAt(s, from).Some?
    ensures LinksFrom(s, from) == [s[from + 10..MatchAt(s, from).value]] + LinksFrom(s, MatchAt(s, from).value + 1)
  {
  }

  /** Where no match starts, the exec loop finds the same as from the next character. */
  lemma ScanSkip(s: string, from: nat)
    requires from < |s| && MatchAt(s, from).None?
    ensures Scan(s, from) == Scan(s, from + 1)
  {
    assert Exec(s, from) == Exec(s, from + 1);
  }

  /** Where a match starts, the exec loop captures it and resumes after its closing quote. */
  lemma ScanTake(s: string, from: nat)
    requires from < |s| && MatchAt(s, from).Some?
    ensures Scan(s, from) == [s[from + 10..MatchAt(s, from).value]] + Scan(s, MatchAt(s, from).value + 1)
  {
    assert Exec(s, from) == Match(from, MatchAt(s, from).value);
  }

  /** The exec loop finds exactly the links of the left-to-right scan. */
  lemma {:induction false} ScanIsLinks(s: string, from: nat)
    ensures Scan(s, from) == LinksFrom(s, from)
    decreases |s| - from
  {
    if from < |s| {
      if MatchAt(s, from).None? {
        ScanSkip(s, from);
        LinksSkip(s, from);
        ScanIsLinks(s, from + 1);
      } else {
        ScanTake(s, from);
        LinksTake(s, from);
        ScanIsLinks(s, MatchAt(s, from).value + 1);
      }
    }
  }

  lemma AppendAssoc(a: seq<string>, b: seq<string>, c: seq<string>)
    ensures a + (b + c) == (a + b) + c
  {
  }

  /** One round of the exec loop: the capture of the match found joins those collected, and the scan resumes after its closing quote. */
  lemma ScanStep(s: string, from: nat, found: seq<string>)
    requires Exec(s, from).Match?
    ensures found + Scan(s, from) == (found + [s[Exec(s, from).index + 10..Exec(s, from).close]]) + Scan(s, Exec(s, from).close + 1)
  {
    var m := Exec(s, from);
    var link := s[m.index + 10..m.close];
    assert Scan(s, from) == [link] + Scan(s, m.close + 1);
    AppendAssoc(found, [link], Scan(s, m.close + 1));
  }

  /**
   * `fetchHomePageLinks`: `None` stands for a failed fetch, which yields no
   * links; otherwise the `while (regex.exec(data))` loop collects every capture.
   */
  method FetchHomePageLinks(data: Option<string>) returns (homepages: seq<string>)
    ensures data.None? ==> homepages == []
    ensures data.Some? ==> homepages == Links(data.value)
  {
    homepages := [];
    if data.None? {
      return;
    }
    var s := data.value;
    var lastIndex := 0;
    var m := Exec(s, lastIndex);
    ghost var total := Scan(s, 0);
    while m.Match?
      invariant m == Exec(s, lastIndex)
      invariant homepages + Scan(s, lastIndex) == total
      decreases |s| - lastIndex
    {
      var link := s[m.index + 10..m.close];
      ScanStep(s, lastIndex, homepages);
      homepages := homepages + [link];
      lastIndex := m.close + 1;
      m := Exec(s, lastIndex);
    }
    ScanIsLinks(s, 0);
  }

  /** A link the pattern can capture: it begins with `http`, has a fifth character, and holds no `"`. */
  predicate WellFormedLink(u: string)
  {
    StartsWith(u, "http") && |u| >= 5 && forall k :: 0 <= k < |u| ==> u[k] != '"'
  }

  /** A match at `i` spells the key and `http` from `i` on. */
  lemma OpeningAt(s: string, i: nat)
    requires OpensAt(s, i, 14)
    ensures s[i..i + 10] == Key && s[i + 10..i + 14] == "http"
  {
    OpensAtIsPrefix(s, i, 14);
    assert s[i..i + 10] == s[i..i + 14][..10];
    assert s[i + 10..i + 14] == s[i..i + 14][10..];
  }

  /** Every extracted link begins with `http`, has length at least 5 and contains no `"`. */
  lemma {:induction false} LinksWellFormed(s: string, i: nat)
    ensures forall k :: 0 <= k < |LinksFrom(s, i)| ==> WellFormedLink(LinksFrom(s, i)[k])
    decreases |s| - i
  {
    if i < |s| {
      match MatchAt(s, i)
      case Some(q) =>
        LinksWellFormed(s, q + 1);
        var u := s[i + 10..q];
        OpeningAt(s, i);
        QuoteFromIsFirst(s, i + 14);
        assert u[..4] == s[i + 10..i + 14];
        assert forall k :: 0 <= k < |u| ==> u[k] == s[i + 10 + k];
        assert forall k :: 0 <= k < 4 ==> u[k] == "http"[k];
      case None =>
        LinksWellFormed(s, i + 1);
    }
  }

  /** Every extracted link `u` occurs in the data as `homepage:"u"`. */
  lemma {:induction false} LinksOccur(s: string, i: nat)
    ensures forall k :: 0 <= k < |LinksFrom(s, i)| ==> Contains(s, Key + LinksFrom(s, i)[k] + "\"")
    decreases |s| - i
  {
    if i < |s| {
      match MatchAt(s, i)
      case Some(q) =>
        LinksOccur(s, q + 1);
        OpeningAt(s, i);
        assert s[i..q + 1] == s[i..i + 10] + s[i + 10..q] + s[q..q + 1];
        assert s[q..q + 1] == "\"";
        assert OccursAt(s, i, Key + s[i + 10..q] + "\"");
      case None =>
        LinksOccur(s, i + 1);
    }
  }

  /** There are no links exactly when no match starts anywhere in the data. */
  lemma {:induction false} NoLinksIffNoMatch(s: string, i: nat)
    ensures LinksFrom(s, i) == [] <==> forall k :: i <= k < |s| ==> MatchAt(s, k).None?
    decreases |s| - i
  {
    if i < |s| && MatchAt(s, i).None? {
      NoLinksIffNoMatch(s, i + 1);
    }
  }

  /** A filler that no match can start in, even where it runs into a following key. */
  predicate Inert(f: string)
  {
    forall k :: 0 <= k < |f| ==> !OccursAt(f + Key, k, Key)
  }

  /** Data made of fillers, each followed by `homepage:"` + link + `"`, then a closing tail. */
  function Listing(fillers: seq<string>, links: seq<string>, tail: string): string
    requires |fillers| == |links|
  {
    if links == [] then tail
    else fillers[0] + (Key + (links[0] + ("\"" + Listing(fillers[1..], links[1..], tail))))
  }

  /** `QuoteFrom` on `a + b` inside `b` is `QuoteFrom` on `b`, moved by `|a|`. */
  lemma {:induction false} QuoteFromShift(a: string, b: string, j: nat)
    ensures QuoteFrom(a + b, |a| + j) == if QuoteFrom(b, j).Some? then Some(|a| + QuoteFrom(b, j).value) else None
    decreases |b| - j
  {
    if j < |b| {
      assert (a + b)[|a| + j] == b[j];
      QuoteFromShift(a, b, j + 1);
    }
  }

  /** A match in `a + b` inside `b` is a match in `b`, moved by `|a|`. */
  lemma MatchShift(a: string, b: string, i: nat)
    ensures MatchAt(a + b, |a| + i) == if MatchAt(b, i).Some? then Some(|a| + MatchAt(b, i).value) else None
  {
    OpensAtIsPrefix(a + b, |a| + i, 14);
    OpensAtIsPrefix(b, i, 14);
    if i + 14 <= |b| {
      assert (a + b)[|a| + i..|a| + i + 14] == b[i..i + 14];
    }
    QuoteFromShift(a, b, i + 14);
  }

  /** The scan of `a + b` from inside `b` is the scan of `b`. */
  lemma {:induction false} LinksShift(a: string, b: string, i: nat)
    ensures LinksFrom(a + b, |a| + i) == LinksFrom(b, i)
    decreases |b| - i
  {
    if i < |b| {
      if MatchAt(b, i).None? {
        LinksShift(a, b, i + 1);
        ShiftSkip(a, b, i);
      } else {
        LinksShift(a, b, MatchAt(b, i).value + 1);
        ShiftTake(a, b, i);
      }
    }
  }

  /** Where `b` has no match, neither has `a + b`, and both scans move on by one. */
  lemma ShiftSkip(a: string, b: string, i: nat)
    requires i < |b| && MatchAt(b, i).None?
    requires LinksFrom(a + b, |a| + i + 1) == LinksFrom(b, i + 1)
    ensures LinksFrom(a + b, |a| + i) == LinksFrom(b, i)
  {
    MatchShift(a, b, i);
    LinksSkip(a + b, |a| + i);
    LinksSkip(b, i);
  }

  /** Where `b` has a match, `a + b` has the same one, moved by `|a|`, with the same capture. */
  lemma ShiftTake(a: string, b: string, i: nat)
    requires i < |b| && MatchAt(b, i).Some?
    requires LinksFrom(a + b, |a| + MatchAt(b, i).value + 1) == LinksFrom(b, MatchAt(b, i).value + 1)
    ensures LinksFrom(a + b, |a| + i) == LinksFrom(b, i)
  {
    var q := MatchAt(b, i).value;
    MatchShift(a, b, i);
    assert MatchAt(a + b, |a| + i).value == |a| + q;
    LinksTake(a + b, |a| + i);
    LinksTake(b, i);
    assert (a + b)[|a| + i + 10..|a| + q] == b[i + 10..q];
  }

  /** No match starts inside an inert filler that a key follows. */
  lemma InertNoMatch(f: string, r: string, k: nat)
    requires Inert(f) && StartsWith(r, Key) && k < |f|
    ensures MatchAt(f + r, k).None?
  {
    var s := f + r;
    if k + 14 <= |s| {
      assert (f + Key)[k..k + 10] == s[k..k + 10] by {
        forall j | k <= j < k + 10
          ensures (f + Key)[j] == s[j]
        {
          if j >= |f| {
            assert r[j - |f|] == r[..10][j - |f|];
          }
        }
      }
      assert !OccursAt(f + Key, k, Key);
      assert s[k..k + 14][..10] == s[k..k + 10];
    }
    OpensAtIsPrefix(s, k, 14);
  }

  /** An inert filler in front of a key contributes no link. */
  lemma {:induction false} SkipInert(f: string, r: string, i: nat)
    requires Inert(f) && StartsWith(r, Key) && i <= |f|
    ensures LinksFrom(f + r, i) == LinksFrom(r, 0)
    decreases |f| - i
  {
    if i < |f| {
      InertNoMatch(f, r, i);
      SkipInert(f, r, i + 1);
    } else {
      LinksShift(f, r, 0);
    }
  }

  /** A key, a well-formed link and its closing quote yield that link, and the scan resumes after the quote. */
  lemma LinkThenRest(u: string, rest: string)
    requires WellFormedLink(u)
    ensures Links(Key + (u + ("\"" + rest))) == [u] + Links(rest)
  {
    var a := Key + u + "\"";
    var s := Key + (u + ("\"" + rest));
    assert s == a + rest;
    var q := 10 + |u|;
    assert s[10..q] == u;
    assert s[q] == '"';
    assert s[0..14] == Opening by {
      assert u[..4] == "http";
      assert s[10..14] == u[..4];
      assert s[0..10] == Key;
    }
    assert forall k :: 14 <= k < q ==> s[k] == u[k - 10];
    QuoteFromFirst(s, 14, q);
    OpensAtIsPrefix(s, 0, 14);
    assert MatchAt(s, 0) == Some(q);
    LinksShift(a, rest, 0);
  }

  /**
   * Extraction inverts rendering: from data built of inert fillers, keyed
   * well-formed links and a tail without matches, exactly the links come back,
   * in order and with duplicates.
   */
  lemma {:induction false} ListingRoundTrip(fillers: seq<string>, links: seq<string>, tail: string)
    requires |fillers| == |links|
    requires forall k :: 0 <= k < |fillers| ==> Inert(fillers[k])
    requires forall k :: 0 <= k < |links| ==> WellFormedLink(links[k])
    requires Links(tail) == []
    ensures Links(Listing(fillers, links, tail)) == links
    decreases |links|
  {
    if links != [] {
      var rest := Listing(fillers[1..], links[1..], tail);
      ListingRoundTrip(fillers[1..], links[1..], tail);
      var r := Key + (links[0] + ("\"" + rest));
      assert r[..10] == Key;
      SkipInert(fillers[0], r, 0);
      LinkThenRest(links[0], rest);
    }
  }
}
