/**
 * Canonical photo locators. The backup script compares page URLs only after
 * removing the first account segment `/u/<digits>/`, so that the same photo
 * seen from different account slots compares equal. The removal is the
 * non-global regular-expression replacement of index.js:127-130.
 */
module Locator {
  import opened Wrappers
  import opened Decimal

  /** s[i..j] is an occurrence of the pattern `/u/<one or more digits>/`. */
  predicate SegmentAt(s: string, i: int, j: int) {
    && 0 <= i && i + 5 <= j <= |s|
    && s[i] == '/' && s[i + 1] == 'u' && s[i + 2] == '/'
    && (forall k :: i + 3 <= k < j - 1 ==> IsDigit(s[k]))
    && s[j - 1] == '/'
  }

  /** No occurrence of the pattern starts anywhere in s. */
  ghost predicate NoSegment(s: string) {
    forall i, j :: !SegmentAt(s, i, j)
  }

  /** No occurrence of the pattern starts before position `before`. */
  ghost predicate NoSegmentBefore(s: string, before: int) {
    forall i, j :: i < before ==> !SegmentAt(s, i, j)
  }

  /** Length of the run of digits in s that starts at position k. */
  function DigitRun(s: string, k: nat): (n: nat)
    requires k <= |s|
    ensures k + n <= |s|
    decreases |s| - k
  {
    if k < |s| && IsDigit(s[k]) then 1 + DigitRun(s, k + 1) else 0
  }

  /** The run is made of digits and cannot be extended. */
  lemma {:induction false} DigitRunMaximal(s: string, k: nat)
    requires k <= |s|
    ensures forall t :: k <= t < k + DigitRun(s, k) ==> IsDigit(s[t])
    ensures k + DigitRun(s, k) == |s| || !IsDigit(s[k + DigitRun(s, k)])
    decreases |s| - k
  {
    if k < |s| && IsDigit(s[k]) {
      DigitRunMaximal(s, k + 1);
    }
  }

  /** An occurrence of the pattern is determined by where it starts: `\d+` cannot swallow a `/`. */
  lemma SegmentEndUnique(s: string, i: int, j: int, j': int)
    requires SegmentAt(s, i, j) && SegmentAt(s, i, j')
    ensures j == j'
  {
    assert !IsDigit(s[j - 1]) && !IsDigit(s[j' - 1]);
  }

  /** The end of the occurrence of the pattern that starts at position i, if there is one. */
  function SegmentEnd(s: string, i: nat): (r: Option<nat>)
    ensures r.Some? ==> i + 5 <= r.value <= |s|
  {
    if i + 3 <= |s| && s[i] == '/' && s[i + 1] == 'u' && s[i + 2] == '/' then
      var n := DigitRun(s, i + 3);
      if n > 0 && i + 3 + n < |s| && s[i + 3 + n] == '/' then Some(i + 4 + n) else None
    else
      None
  }

  /** SegmentEnd finds the occurrence at i exactly when there is one. */
  lemma SegmentEndCorrect(s: string, i: nat)
    ensures SegmentEnd(s, i).Some? ==> SegmentAt(s, i, SegmentEnd(s, i).value)
    ensures SegmentEnd(s, i).None? ==> forall j :: !SegmentAt(s, i, j)
  {
    if i + 3 <= |s| {
      DigitRunMaximal(s, i + 3);
      var n := DigitRun(s, i + 3);
      forall j | SegmentAt(s, i, j) ensures i + 3 + n == j - 1 {
        assert !IsDigit(s[j - 1]);
      }
    }
  }

  /** The leftmost occurrence of the pattern that starts at or after position `from`, as (start, end). */
  function FirstSegment(s: string, from: nat): (r: Option<(nat, nat)>)
    ensures r.Some? ==> from <= r.value.0 && r.value.0 + 5 <= r.value.1 <= |s|
    decreases |s| - from
  {
    if |s| <= from then
      None
    else
      match SegmentEnd(s, from)
      case Some(j) => Some((from, j))
      case None => FirstSegment(s, from + 1)
  }

  /** FirstSegment finds the leftmost occurrence, and finds none only when there is none. */
  lemma {:induction false} FirstSegmentLeftmost(s: string, from: nat)
    ensures var r := FirstSegment(s, from);
            r.Some? ==> (SegmentAt(s, r.value.0, r.value.1)
                         && forall i, j :: from <= i < r.value.0 ==> !SegmentAt(s, i, j))
    ensures FirstSegment(s, from).None? ==> forall i, j :: from <= i ==> !SegmentAt(s, i, j)
    decreases |s| - from
  {
    if from < |s| {
      SegmentEndCorrect(s, from);
      if SegmentEnd(s, from).None? {
        FirstSegmentLeftmost(s, from + 1);
      }
    }
  }

  /** `link.replace(/\/u\/\d+\//, '/')`: the first occurrence only becomes a single `/`. */
  function Clean(link: string): (r: string)
    ensures |r| <= |link|
  {
    CleanFrom(link, 0)
  }

  /** The replacement, with the search for the pattern started at position `from`. */
  function CleanFrom(link: string, from: nat): (r: string)
    ensures |r| <= |link|
    decreases |link| - from
  {
    if |link| <= from then link
    else
      match SegmentEnd(link, from)
      case Some(j) => link[..from] + "/" + link[j..]
      case None => CleanFrom(link, from + 1)
  }

  /** The search replaces the leftmost occurrence that FirstSegment finds, and nothing when it finds none. */
  lemma {:induction false} CleanFromFirst(link: string, from: nat)
    ensures CleanFrom(link, from) == match FirstSegment(link, from)
                                     case None => link
                                     case Some((i, j)) => link[..i] + "/" + link[j..]
    decreases |link| - from
  {
    if from < |link| && SegmentEnd(link, from).None? {
      CleanFromFirst(link, from + 1);
    }
  }

  /** Two locators denote the same photo when they agree after cleaning. */
  predicate SameItem(a: string, b: string) {
    Clean(a) == Clean(b)
  }

  /** Clean leaves a link alone exactly when the link holds no account segment. */
  lemma CleanUnchangedIff(s: string)
    ensures Clean(s) == s <==> NoSegment(s)
  {
    CleanFromFirst(s, 0);
    FirstSegmentLeftmost(s, 0);
    match FirstSegment(s, 0)
    case None =>
    case Some((i, j)) =>
      assert |Clean(s)| == |s| - (j - i) + 1;
  }

  /** Clean replaces the leftmost account segment by `/` and keeps every other character. */
  lemma CleanReplacesFirst(s: string, i: int, j: int)
    requires SegmentAt(s, i, j)
    requires NoSegmentBefore(s, i)
    ensures Clean(s) == s[..i] + "/" + s[j..]
  {
    var first := FirstSegment(s, 0);
    CleanFromFirst(s, 0);
    FirstSegmentLeftmost(s, 0);
    assert first.Some?;
    assert first.value.0 == i;
    SegmentEndUnique(s, i, j, first.value.1);
  }

  /**
   * The replacement is not global and therefore not idempotent: a second
   * segment that survives the first pass is removed by a second pass.
   */
  lemma CleanFirstMatchOnly()
    ensures Clean("/u/0/u/1/") == "/u/1/"
    ensures Clean(Clean("/u/0/u/1/")) == "/"
    ensures Clean(Clean("/u/0/u/1/")) != Clean("/u/0/u/1/")
  {
    var s := "/u/0/u/1/";
    assert SegmentAt(s, 0, 5);
    CleanReplacesFirst(s, 0, 5);
    assert s[5..] == "u/1/";
    var t := "/u/1/";
    assert SegmentAt(t, 0, 5);
    CleanReplacesFirst(t, 0, 5);
  }

  /**
   * Two links that differ only in the digits of their first account segment
   * clean to the same locator: the link without that segment.
   */
  lemma CleanIgnoresAccount(p: string, q: string, d1: string, d2: string)
    requires d1 != [] && forall k :: 0 <= k < |d1| ==> IsDigit(d1[k])
    requires d2 != [] && forall k :: 0 <= k < |d2| ==> IsDigit(d2[k])
    requires NoSegmentBefore(p + "/u/" + d1 + "/" + q, |p|)
    requires NoSegmentBefore(p + "/u/" + d2 + "/" + q, |p|)
    ensures Clean(p + "/u/" + d1 + "/" + q) == p + "/" + q
    ensures SameItem(p + "/u/" + d1 + "/" + q, p + "/u/" + d2 + "/" + q)
  {
    AccountSegment(p, q, d1);
    AccountSegment(p, q, d2);
  }

  lemma AccountSegment(p: string, q: string, d: string)
    requires d != [] && forall k :: 0 <= k < |d| ==> IsDigit(d[k])
    requires NoSegmentBefore(p + "/u/" + d + "/" + q, |p|)
    ensures Clean(p + "/u/" + d + "/" + q) == p + "/" + q
  {
    var s := p + "/u/" + d + "/" + q;
    var j := |p| + 4 + |d|;
    forall k | |p| + 3 <= k < j - 1 ensures IsDigit(s[k]) {
      assert s[k] == d[k - |p| - 3];
    }
    assert SegmentAt(s, |p|, j);
    CleanReplacesFirst(s, |p|, j);
    assert s[..|p|] == p;
    assert s[j..] == q;
  }
}
