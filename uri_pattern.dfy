// The split of a participant URL by the pattern `^(.*/api)/([^/]*)/participant.*`, compiled with
// `CASE_INSENSITIVE` and run with `Matcher.find()`.
//
// Java semantics modelled here:
//  - `^` without MULTILINE matches only at the start of the input, so the only match starts at 0;
//  - `.` without DOTALL matches every character except the line terminators \n, \r, U+0085,
//    U+2028 and U+2029, so `.*` cannot run past the first of them; `[^/]` matches those;
//  - CASE_INSENSITIVE without UNICODE_CASE folds only US-ASCII letters;
//  - the trailing `.*` may match the empty string, so it never decides whether the pattern matches;
//  - the greedy `.*` of group 1 is tried at its longest first and gives back one character at a
//    time; `[^/]*` is likewise tried longest first, and only its longest run can be followed by `/`.
module UriPattern {
  import opened Wrappers

  /** The literals of the pattern, written in lower case. */
  const ApiLiteral := "/api"
  const ParticipantLiteral := "/participant"

  function ToLowerAscii(c: char): char {
    if 'A' <= c <= 'Z' then (c as int + 32) as char else c
  }

  /** `s` matches the lower-case literal `lit` under ASCII-only case folding. */
  predicate EqualsIgnoreCase(s: string, lit: string) {
    |s| == |lit| && forall i :: 0 <= i < |s| ==> ToLowerAscii(s[i]) == lit[i]
  }

  predicate StartsWithIgnoreCase(s: string, lit: string) {
    |lit| <= |s| && EqualsIgnoreCase(s[..|lit|], lit)
  }

  predicate IsLineTerminator(c: char) {
    c == '\n' || c == '\r' || c == '\U{85}' || c == '\U{2028}' || c == '\U{2029}'
  }

  /** Every character of `s` is one that `.` matches. */
  predicate LineFree(s: string) {
    forall i :: 0 <= i < |s| ==> !IsLineTerminator(s[i])
  }

  predicate SlashFree(s: string) {
    forall i :: 0 <= i < |s| ==> s[i] != '/'
  }

  /**
   * An occurrence of `/api/<segment>/participant` in `url` (any case), with the `/api` ending at
   * index `b` and the slash-free segment occupying `url[b + 1..e]`.
   */
  predicate OccurrenceAt(url: string, b: int, e: int) {
    4 <= b < e && e + |ParticipantLiteral| <= |url|
    && EqualsIgnoreCase(url[b - 4..b], ApiLiteral)
    && url[b] == '/'
    && SlashFree(url[b + 1..e])
    && StartsWithIgnoreCase(url[e..], ParticipantLiteral)
  }

  /** The pattern matches `url` with group 1 = `url[..b]` and group 2 = `url[b + 1..e]`. */
  predicate MatchAt(url: string, b: int, e: int) {
    OccurrenceAt(url, b, e) && LineFree(url[..b - 4])
  }

  /** `base` and `pid` are group 1 and group 2 of some way of matching the pattern against `url`. */
  predicate IsSplit(url: string, base: string, pid: string) {
    var b, e := |base|, |base| + 1 + |pid|;
    e <= |url| && url[..b] == base && url[b + 1..e] == pid && MatchAt(url, b, e)
  }

  /** How far the leading `.*` can reach: the length of the longest line-terminator-free prefix. */
  function DotRun(s: string): (n: nat)
    ensures n <= |s| && LineFree(s[..n])
    ensures n < |s| ==> IsLineTerminator(s[n])
  {
    if s == [] || IsLineTerminator(s[0]) then 0
    else
      var n := 1 + DotRun(s[1..]);
      assert s[..n] == [s[0]] + s[1..][..n - 1];
      n
  }

  /** Where `[^/]*` starting at index `i` stops: the next `/`, or the end of `url`. */
  function SegmentEnd(url: string, i: nat): (e: nat)
    requires i <= |url|
    ensures i <= e <= |url| && SlashFree(url[i..e])
    ensures e < |url| ==> url[e] == '/'
    decreases |url| - i
  {
    if i == |url| || url[i] == '/' then i else SegmentEnd(url, i + 1)
  }

  /** The rest of the pattern, `/api/([^/]*)/participant`, tried with group 1 ending at `b`. */
  function TryAt(url: string, b: nat): (r: Option<nat>)
    requires 4 <= b
    ensures r.Some? ==> OccurrenceAt(url, b, r.value)
    ensures forall e :: OccurrenceAt(url, b, e) ==> r == Some(e)
  {
    if b < |url| && EqualsIgnoreCase(url[b - 4..b], ApiLiteral) && url[b] == '/' then
      var e := SegmentEnd(url, b + 1);
      assert forall e' :: OccurrenceAt(url, b, e') ==> e' == e by {
        forall e' | OccurrenceAt(url, b, e') ensures e' == e {
          SegmentEndIsFirstSlash(url, b + 1, e');
        }
      }
      if StartsWithIgnoreCase(url[e..], ParticipantLiteral) then Some(e) else None
    else None
  }

  /** Backtracking of the greedy `.*`: group 1 ending at `b`, then at `b - 1`, ..., down to 4. */
  function Backtrack(url: string, b: nat): (r: Option<(nat, nat)>)
    requires 4 <= b
    ensures r.Some? ==> 4 <= r.value.0 <= b && OccurrenceAt(url, r.value.0, r.value.1)
    ensures r.Some? ==> forall b', e :: r.value.0 < b' <= b ==> !OccurrenceAt(url, b', e)
    ensures r.None? ==> forall b', e :: b' <= b ==> !OccurrenceAt(url, b', e)
    decreases b
  {
    match TryAt(url, b)
    case Some(e) => Some((b, e))
    case None => if b == 4 then None else Backtrack(url, b - 1)
  }

  /** `matcher.find()` followed by `group(1)` and `group(2)`; `None` where `find()` fails. */
  function Groups(url: string): (r: Option<(string, string)>)
    ensures r.Some? ==> IsSplit(url, r.value.0, r.value.1)
  {
    var n := DotRun(url);
    match Backtrack(url, n + 4)
    case Some((b, e)) =>
      assert MatchAt(url, b, e) by { LineFreePrefix(url, b - 4, n); }
      SplitOfMatch(url, b, e);
      Some((url[..b], url[b + 1..e]))
    case None => None
  }

  // ---------------------------------------------------------------- helper lemmas

  lemma SegmentEndIsFirstSlash(url: string, i: nat, e: nat)
    requires i <= e <= |url| && SlashFree(url[i..e]) && (e < |url| ==> url[e] == '/')
    ensures SegmentEnd(url, i) == e
  {
  }

  lemma LineFreePrefix(s: string, k: nat, n: nat)
    requires k <= n <= |s| && LineFree(s[..n])
    ensures LineFree(s[..k])
  {
    forall i | 0 <= i < k ensures !IsLineTerminator(s[..k][i]) {
      assert s[..k][i] == s[..n][i];
    }
  }

  /** A match never puts more than the reach of `.*` before its `/api`. */
  lemma MatchWithinDotRun(url: string, b: int, e: int)
    requires MatchAt(url, b, e)
    ensures b - 4 <= DotRun(url)
  {
  }

  /** A way of matching gives the split made of its two groups. */
  lemma SplitOfMatch(url: string, b: int, e: int)
    requires MatchAt(url, b, e)
    ensures IsSplit(url, url[..b], url[b + 1..e])
  {
  }

  // ---------------------------------------------------------------- properties of Groups

  /** Index form of greediness: no way of matching has a longer group 1 than the one `Groups` returns. */
  lemma {:induction false} GroupsLongestAt(url: string, b: int, e: int)
    requires MatchAt(url, b, e)
    ensures Groups(url).Some? && b <= |Groups(url).value.0|
  {
    var n := DotRun(url);
    MatchWithinDotRun(url, b, e);
    match Backtrack(url, n + 4)
    case Some((b0, e0)) => assert |Groups(url).value.0| == b0;
    case None =>
  }

  /** Group 1 fixes group 2: two splits with bases of the same length are the same split. */
  lemma {:induction false} SplitUnique(url: string, base1: string, pid1: string, base2: string, pid2: string)
    requires IsSplit(url, base1, pid1) && IsSplit(url, base2, pid2) && |base1| == |base2|
    ensures base1 == base2 && pid1 == pid2
  {
    var b := |base1|;
    var t := TryAt(url, b);
    assert OccurrenceAt(url, b, b + 1 + |pid1|);
    assert OccurrenceAt(url, b, b + 1 + |pid2|);
    assert t == Some(b + 1 + |pid1|) && t == Some(b + 1 + |pid2|);
  }

  /** Every split qualifying for the pattern has a group 1 no longer than the one `Groups` picks. */
  lemma {:induction false} GroupsLongest(url: string, base: string, pid: string)
    requires IsSplit(url, base, pid)
    ensures Groups(url).Some?
    ensures |base| <= |Groups(url).value.0|
  {
    GroupsLongestAt(url, |base|, |base| + 1 + |pid|);
  }

  /**
   * `Groups` returns exactly the qualifying split with the longest group 1: the result is determined
   * by the URL, whichever of the qualifying splits a reader has in mind.
   */
  lemma {:induction false} GroupsCharacterization(url: string, base: string, pid: string)
    ensures Groups(url) == Some((base, pid)) <==>
      IsSplit(url, base, pid) && forall base', pid' :: IsSplit(url, base', pid') ==> |base'| <= |base|
  {
    if IsSplit(url, base, pid) && forall base', pid' :: IsSplit(url, base', pid') ==> |base'| <= |base| {
      GroupsLongest(url, base, pid);
      var (b0, p0) := Groups(url).value;
      assert IsSplit(url, b0, p0);
      SplitUnique(url, base, pid, b0, p0);
    }
    if Groups(url) == Some((base, pid)) {
      forall base', pid' | IsSplit(url, base', pid') ensures |base'| <= |base| {
        GroupsLongest(url, base', pid');
      }
    }
  }

  /** `find()` fails exactly when no split qualifies; the source then throws from `group(1)`. */
  lemma {:induction false} GroupsNoneIff(url: string)
    ensures Groups(url).None? <==> forall base, pid :: !IsSplit(url, base, pid)
  {
    if Groups(url).None? {
      forall base, pid | IsSplit(url, base, pid) ensures false {
        GroupsLongest(url, base, pid);
      }
    }
  }

  /** A URL with no `/api/<segment>/participant` occurrence at all makes `find()` fail. */
  lemma {:induction false} NoOccurrenceFails(url: string)
    requires forall b, e :: !OccurrenceAt(url, b, e)
    ensures Groups(url) == None
  {
  }

  /** The parts of a split, read back from the URL: `base + "/" + pid` begins it, `/participant` follows. */
  lemma SplitShape(url: string, base: string, pid: string)
    requires IsSplit(url, base, pid)
    ensures |base| >= 4 && EqualsIgnoreCase(base[|base| - 4..], ApiLiteral) && SlashFree(pid)
    ensures url[..|base| + 1 + |pid|] == base + "/" + pid
    ensures StartsWithIgnoreCase(url[|base| + 1 + |pid|..], ParticipantLiteral)
  {
    var b, e := |base|, |base| + 1 + |pid|;
    assert base[b - 4..] == url[b - 4..b];
    assert url[..e] == url[..b] + [url[b]] + url[b + 1..e];
  }

  lemma LiteralsAreLowerCase()
    ensures EqualsIgnoreCase(ApiLiteral, ApiLiteral)
    ensures EqualsIgnoreCase(ParticipantLiteral, ParticipantLiteral)
  {
    forall i | 0 <= i < |ParticipantLiteral|
      ensures ToLowerAscii(ParticipantLiteral[i]) == ParticipantLiteral[i]
    {
      assert ParticipantLiteral[i] in "/participant";
    }
  }

  /** Where the parts of P + A + "/" + seg + Q + T sit in the whole, when A has four characters. */
  lemma SlicesOfParts(p: string, a: string, seg: string, q: string, t: string)
    requires |a| == 4 && |q| == |ParticipantLiteral|
    ensures var url := p + a + "/" + seg + q + t;
      var b, e := |p| + 4, |p| + 5 + |seg|;
      e + |q| <= |url| && url[..b - 4] == p && url[b - 4..b] == a && url[b] == '/'
      && url[b + 1..e] == seg && url[e..][..|q|] == q
  {
    var r4 := q + t;
    var r3 := seg + r4;
    var r2 := "/" + r3;
    var r1 := a + r2;
    var url := p + r1;
    assert url == p + a + "/" + seg + q + t;
    var b, e := |p| + 4, |p| + 5 + |seg|;
    assert url[b - 4..] == r1;
    assert url[b..] == r2;
    assert url[b + 1..] == r3;
    assert url[e..] == r4;
  }

  /** The occurrence written out in P + A + "/" + seg + Q + T is a way of matching the pattern. */
  lemma MatchOfParts(p: string, a: string, seg: string, q: string, t: string)
    requires LineFree(p) && SlashFree(seg)
    requires EqualsIgnoreCase(a, ApiLiteral) && EqualsIgnoreCase(q, ParticipantLiteral)
    ensures MatchAt(p + a + "/" + seg + q + t, |p| + 4, |p| + 5 + |seg|)
  {
    var url := p + a + "/" + seg + q + t;
    var b, e := |p| + 4, |p| + 5 + |seg|;
    SlicesOfParts(p, a, seg, q, t);
    assert LineFree(url[..b - 4]);
    assert EqualsIgnoreCase(url[b - 4..b], ApiLiteral);
    assert SlashFree(url[b + 1..e]);
    assert StartsWithIgnoreCase(url[e..], ParticipantLiteral);
  }

  /**
   * A URL of the form P + A + "/" + seg + Q + T, where A reads `/api` and Q reads `/participant` in
   * any case, seg has no slash and P no line terminator, is split successfully: group 1 ends in
   * `/api`, group 2 is slash-free, `base + "/" + pid` begins the URL and `/participant` follows it,
   * and group 1 is at least as long as P + A.
   */
  lemma {:induction false} FormSplits(p: string, a: string, seg: string, q: string, t: string)
    requires LineFree(p) && SlashFree(seg)
    requires EqualsIgnoreCase(a, ApiLiteral) && EqualsIgnoreCase(q, ParticipantLiteral)
    ensures var url := p + a + "/" + seg + q + t;
      Groups(url).Some? &&
      var base, pid := Groups(url).value.0, Groups(url).value.1;
      |base| >= |p| + 4 &&
      EqualsIgnoreCase(base[|base| - 4..], ApiLiteral) && SlashFree(pid) &&
      url[..|base| + 1 + |pid|] == base + "/" + pid &&
      StartsWithIgnoreCase(url[|base| + 1 + |pid|..], ParticipantLiteral)
  {
    MatchOfParts(p, a, seg, q, t);
    MatchGivesShape(p + a + "/" + seg + q + t, |p| + 4, |p| + 5 + |seg|);
  }

  /** Any way of matching makes `find()` succeed with a group 1 at least as long, of the split's shape. */
  lemma MatchGivesShape(url: string, b: int, e: int)
    requires MatchAt(url, b, e)
    ensures Groups(url).Some? && |Groups(url).value.0| >= b
    ensures var base, pid := Groups(url).value.0, Groups(url).value.1;
      EqualsIgnoreCase(base[|base| - 4..], ApiLiteral) && SlashFree(pid) &&
      url[..|base| + 1 + |pid|] == base + "/" + pid &&
      StartsWithIgnoreCase(url[|base| + 1 + |pid|..], ParticipantLiteral)
  {
    GroupsLongestAt(url, b, e);
    SplitShape(url, Groups(url).value.0, Groups(url).value.1);
  }

  /** A way of matching whose group 1 no occurrence can outlast is the one `find()` reports. */
  lemma LongestMatchIsGroups(url: string, b: int, e: int)
    requires MatchAt(url, b, e)
    requires forall b', e' :: OccurrenceAt(url, b', e') ==> b' <= b
    ensures Groups(url) == Some((url[..b], url[b + 1..e]))
  {
    GroupsLongestAt(url, b, e);
    var (base, pid) := Groups(url).value;
    assert OccurrenceAt(url, |base|, |base| + 1 + |pid|);
    SplitOfMatch(url, b, e);
    SplitUnique(url, base, pid, url[..b], url[b + 1..e]);
  }

  /** In P + "/api/" + seg + "/participant" a slash follows index |P| + 4 only at the start of `/participant`. */
  lemma NoLaterOccurrence(p: string, seg: string, b: int, e: int)
    requires SlashFree(seg)
    requires OccurrenceAt(p + "/api/" + seg + "/participant", b, e)
    ensures b <= |p| + 4
  {
    var url := p + "/api/" + seg + "/participant";
    var k := |p| + 5 + |seg|;
    assert forall i :: |p| + 4 < i < k ==> url[i] == seg[i - |p| - 5];
    assert url[e..][0] == url[e];
    assert url[e] == '/';
    assert e <= k;
  }

  /**
   * The URL a request to `{P}/api/{seg}/participant` arrives on is split back into exactly
   * `P + "/api"` and `seg`, whatever P holds (so long as it has no line terminator).
   */
  lemma {:induction false} RoutedUrlSplits(p: string, seg: string)
    requires LineFree(p) && SlashFree(seg)
    ensures Groups(p + "/api/" + seg + "/participant") == Some((p + "/api", seg))
  {
    var url := p + "/api/" + seg + "/participant";
    var b, e := |p| + 4, |p| + 5 + |seg|;
    LiteralsAreLowerCase();
    SlicesOfParts(p, ApiLiteral, seg, ParticipantLiteral, "");
    assert url == p + ApiLiteral + "/" + seg + ParticipantLiteral + "";
    MatchOfParts(p, ApiLiteral, seg, ParticipantLiteral, "");
    forall b', e' | OccurrenceAt(url, b', e') ensures b' <= b {
      NoLaterOccurrence(p, seg, b', e');
    }
    LongestMatchIsGroups(url, b, e);
    assert url[..b] == p + "/api";
  }
}
