/** What the version order means, on texts. Every law is about two texts that agree up to some point,
    and says which of them is smaller for what comes there; so the laws fix the direction of the
    order, and they name none of the functions it is computed by. */
module VersionLaws {
  import opened Text
  import opened VersionOrder

  // ----- two parts that agree up to k -----

  predicate Agree(a: string, b: string, k: nat) {
    k <= |a| && k <= |b| && a[..k] == b[..k]
  }

  /** A number that ends at k ends there, and does not go on. */
  predicate NumberEnds(s: string, k: nat) {
    0 < k < |s| && IsDigit(s[k - 1]) ==> !IsDigit(s[k])
  }

  lemma AgreeAt(a: string, b: string, k: nat, i: nat)
    requires Agree(a, b, k) && i < k
    ensures a[i] == b[i]
  {
    assert a[..k][i] == a[i] && b[..k][i] == b[i];
  }

  /** A run that ends before k is the same in both; one that reaches k goes on there. */
  lemma {:induction false} AgreeingRun(a: string, b: string, k: nat, i: nat)
    requires Agree(a, b, k) && i <= k
    ensures RunStop(a, i) < k ==> RunStop(b, i) == RunStop(a, i) && RunFrom(b, i) == RunFrom(a, i)
    ensures RunStop(a, i) >= k ==> RunStop(a, i) == RunStop(a, k) && RunStop(b, i) == RunStop(b, k)
    ensures RunStop(a, i) >= k ==>
      CompareRuns(RunFrom(a, i), RunFrom(b, i)) == CompareRuns(RunFrom(a, k), RunFrom(b, k))
    decreases k - i
  {
    if i < k {
      AgreeAt(a, b, k, i);
      AgreeingRun(a, b, k, i + 1);
      if !IsDigit(a[i]) {
        ConsTail(OrderChar(a[i]), RunFrom(a, i + 1));
        ConsTail(OrderChar(a[i]), RunFrom(b, i + 1));
      }
    }
  }

  lemma {:induction false} AgreeingNumber(a: string, b: string, k: nat, i: nat, n: nat)
    requires Agree(a, b, k) && i < k && NumberEnds(a, k) && NumberEnds(b, k)
    ensures NumberStop(a, i) == NumberStop(b, i) <= k && NumberFrom(a, i, n) == NumberFrom(b, i, n)
    decreases k - i
  {
    AgreeAt(a, b, k, i);
    if IsDigit(a[i]) && i + 1 < k { AgreeingNumber(a, b, k, i + 1, 10 * n + DigitValue(a[i])); }
  }

  /** From k on, the run of a is smaller, or both have none there and the number of a is smaller. */
  predicate SmallerAt(a: string, b: string, k: nat)
    requires k <= |a| && k <= |b|
  {
    || CompareRuns(RunFrom(a, k), RunFrom(b, k)) == -1
    || (RunFrom(a, k) == RunFrom(b, k) == [] && NumberFrom(a, k, 0) < NumberFrom(b, k, 0))
  }

  lemma SmallerHere(a: string, b: string, k: nat, i: nat)
    requires Agree(a, b, k) && i <= k && RunStop(a, i) >= k && SmallerAt(a, b, k)
    ensures CompareSegments(SegmentsFrom(a, i), SegmentsFrom(b, i)) == -1
  {
    SegmentsStep(a, i);
    SegmentsStep(b, i);
    PaddedStep(SegmentsFrom(a, i), SegmentsFrom(b, i));
    AgreeingRun(a, b, k, i);
  }

  lemma {:induction false} SmallerFrom(a: string, b: string, k: nat, i: nat)
    requires Agree(a, b, k) && i <= k && NumberEnds(a, k) && NumberEnds(b, k) && SmallerAt(a, b, k)
    ensures CompareSegments(SegmentsFrom(a, i), SegmentsFrom(b, i)) == -1
    decreases k - i
  {
    var e := RunStop(a, i);
    if e >= k {
      SmallerHere(a, b, k, i);
    } else {
      SegmentsStep(a, i);
      SegmentsStep(b, i);
      PaddedStep(SegmentsFrom(a, i), SegmentsFrom(b, i));
      AgreeingRun(a, b, k, i);
      AgreeingNumber(a, b, k, e, 0);
      RunsSymmetry(RunFrom(a, i), RunFrom(a, i));
      SmallerFrom(a, b, k, NumberStop(a, e));
    }
  }

  // ----- numbers -----

  predicate EndsInDigit(s: string) {
    s != "" && IsDigit(s[|s| - 1])
  }

  predicate StartsWithDigit(s: string) {
    s != "" && IsDigit(s[0])
  }

  lemma Regroup(p: string, front: string, c: char, t: string)
    ensures p + (front + [c]) + t == p + front + ([c] + t)
    ensures (p + front + ([c] + t))[|p| + |front|] == c
  {
  }

  /** Reading the number at i, the value so far is n when j is reached. */
  predicate ReadSoFar(s: string, i: nat, j: nat, n: nat) {
    NumberFrom(s, i, 0) == NumberFrom(s, j, n)
  }

  lemma {:induction false} ReadsNumber(p: string, n: nat, t: string)
    ensures ReadSoFar(p + FormatNat(n) + t, |p|, |p| + |FormatNat(n)|, n)
  {
    if n < 10 {
      Regroup(p, "", DigitChar(n), t);
      assert FormatNat(n) == "" + [DigitChar(n)];
    } else {
      Regroup(p, FormatNat(n / 10), DigitChar(n % 10), t);
      ReadsNumber(p, n / 10, [DigitChar(n % 10)] + t);
    }
  }

  lemma Behind(u: string, d: string, t: string)
    requires d != ""
    ensures (u + d + t)[|u|] == d[0] && (t != "" ==> (u + d + t)[|u| + |d|] == t[0])
  {
  }

  lemma NumberAt(u: string, n: nat, t: string)
    requires !StartsWithDigit(t)
    ensures RunFrom(u + FormatNat(n) + t, |u|) == [] && NumberFrom(u + FormatNat(n) + t, |u|, 0) == n
  {
    ReadsNumber(u, n, t);
    NumberBehind(u, FormatNat(n), t, n);
  }

  lemma NumberBehind(u: string, d: string, t: string, n: nat)
    requires d != "" && AllDigits(d) && !StartsWithDigit(t)
    requires ReadSoFar(u + d + t, |u|, |u| + |d|, n)
    ensures RunFrom(u + d + t, |u|) == [] && NumberFrom(u + d + t, |u|, 0) == n
  {
    Behind(u, d, t);
  }

  /** Of two numbers at the same place the smaller one sorts first, whatever follows. */
  lemma SmallerNumberFirst(u: string, m: nat, s: string, n: nat, t: string)
    requires !EndsInDigit(u) && !StartsWithDigit(s) && !StartsWithDigit(t) && m < n
    ensures PartsOrder(u + FormatNat(m) + s, u + FormatNat(n) + t) == -1
  {
    var a, b := u + FormatNat(m) + s, u + FormatNat(n) + t;
    assert a[..|u|] == u && b[..|u|] == u;
    assert u != "" ==> a[|u| - 1] == u[|u| - 1] && b[|u| - 1] == u[|u| - 1];
    NumberAt(u, m, s);
    NumberAt(u, n, t);
    SmallerFrom(a, b, |u|, 0);
  }

  /** From k on, b is a without its character at k. */
  predicate Shorter(a: string, b: string, k: nat) {
    k <= |b| && |a| == |b| + 1 && a[k + 1..] == b[k..]
  }

  lemma ShorterAt(a: string, b: string, k: nat, i: nat)
    requires Shorter(a, b, k) && k <= i < |b|
    ensures a[i + 1] == b[i]
  {
    assert a[k + 1..][i - k] == b[k..][i - k];
  }

  lemma {:induction false} ShorterRun(a: string, b: string, k: nat, i: nat)
    requires Shorter(a, b, k) && k <= i <= |b|
    ensures RunStop(a, i + 1) == RunStop(b, i) + 1 && RunFrom(a, i + 1) == RunFrom(b, i)
    decreases |b| - i
  {
    if i < |b| {
      ShorterAt(a, b, k, i);
      ShorterRun(a, b, k, i + 1);
    }
  }

  lemma {:induction false} ShorterNumber(a: string, b: string, k: nat, i: nat, n: nat)
    requires Shorter(a, b, k) && k <= i <= |b|
    ensures NumberStop(a, i + 1) == NumberStop(b, i) + 1 && NumberFrom(a, i + 1, n) == NumberFrom(b, i, n)
    decreases |b| - i
  {
    if i < |b| {
      ShorterAt(a, b, k, i);
      if IsDigit(b[i]) { ShorterNumber(a, b, k, i + 1, 10 * n + DigitValue(b[i])); }
    }
  }

  lemma FirstSegment(s: string, i: nat, e: nat, j: nat)
    requires i <= |s| && RunStop(s, i) == e && NumberStop(s, e) == j
    ensures HeadSegment(SegmentsFrom(s, i)) == Segment(RunFrom(s, i), NumberFrom(s, e, 0))
    ensures TailSegment(SegmentsFrom(s, i)) == SegmentsFrom(s, j) && (i < |s| ==> i < j <= |s|)
  {
    SegmentsStep(s, i);
  }

  lemma ShorterStep(a: string, b: string, k: nat, i: nat) returns (j: nat)
    requires Shorter(a, b, k) && k <= i < |b|
    ensures i < j <= |b| && HeadSegment(SegmentsFrom(a, i + 1)) == HeadSegment(SegmentsFrom(b, i))
    ensures TailSegment(SegmentsFrom(a, i + 1)) == SegmentsFrom(a, j + 1)
    ensures TailSegment(SegmentsFrom(b, i)) == SegmentsFrom(b, j)
  {
    var e := RunStop(b, i);
    j := NumberStop(b, e);
    ShorterRun(a, b, k, i);
    ShorterNumber(a, b, k, e, 0);
    FirstSegment(a, i + 1, e + 1, j + 1);
    FirstSegment(b, i, e, j);
  }

  lemma {:induction false} ShorterSegments(a: string, b: string, k: nat, i: nat)
    requires Shorter(a, b, k) && k <= i <= |b|
    ensures CompareSegments(SegmentsFrom(a, i + 1), SegmentsFrom(b, i)) == 0
    decreases |b| - i
  {
    if i < |b| {
      var j := ShorterStep(a, b, k, i);
      SegmentSymmetry(HeadSegment(SegmentsFrom(b, i)), HeadSegment(SegmentsFrom(b, i)));
      PaddedStep(SegmentsFrom(a, i + 1), SegmentsFrom(b, i));
      ShorterSegments(a, b, k, j);
    }
  }

  /** a has a zero at k before a digit, and b goes on with that digit. */
  predicate ZeroAt(a: string, b: string, k: nat) {
    Agree(a, b, k) && Shorter(a, b, k) && k < |b| && a[k] == '0' && IsDigit(b[k])
  }

  lemma ZeroRead(s: string, k: nat)
    requires k < |s| && s[k] == '0'
    ensures NumberFrom(s, k, 0) == NumberFrom(s, k + 1, 0) && NumberStop(s, k) == NumberStop(s, k + 1)
  {
  }

  lemma NoRunAtDigit(s: string, k: nat)
    requires k < |s| && IsDigit(s[k])
    ensures RunStop(s, k) == k && RunFrom(s, k) == []
  {
  }

  lemma ZeroSkipped(a: string, b: string, k: nat) returns (j: nat)
    requires ZeroAt(a, b, k)
    ensures NumberStop(b, k) == j && NumberStop(a, k) == j + 1 && NumberFrom(a, k, 0) == NumberFrom(b, k, 0)
  {
    j := NumberStop(b, k);
    ZeroRead(a, k);
    ShorterNumber(a, b, k, k, 0);
  }

  lemma ZeroHere(a: string, b: string, k: nat, i: nat)
    requires ZeroAt(a, b, k) && i <= k && RunStop(a, i) >= k
    ensures CompareSegments(SegmentsFrom(a, i), SegmentsFrom(b, i)) == 0
  {
    var j := ZeroSkipped(a, b, k);
    NoRunAtDigit(a, k);
    NoRunAtDigit(b, k);
    AgreeingRun(a, b, k, i);
    FirstSegment(a, i, k, j + 1);
    FirstSegment(b, i, k, j);
    PaddedStep(SegmentsFrom(a, i), SegmentsFrom(b, i));
    ShorterSegments(a, b, k, j);
  }

  lemma {:induction false} ZeroFrom(a: string, b: string, k: nat, i: nat)
    requires ZeroAt(a, b, k) && i <= k && NumberEnds(a, k) && NumberEnds(b, k)
    ensures CompareSegments(SegmentsFrom(a, i), SegmentsFrom(b, i)) == 0
    decreases k - i
  {
    var e := RunStop(a, i);
    if e >= k {
      ZeroHere(a, b, k, i);
    } else {
      AgreeingRun(a, b, k, i);
      AgreeingNumber(a, b, k, e, 0);
      var j := NumberStop(a, e);
      FirstSegment(a, i, e, j);
      FirstSegment(b, i, e, j);
      PaddedStep(SegmentsFrom(a, i), SegmentsFrom(b, i));
      RunsSymmetry(RunFrom(a, i), RunFrom(a, i));
      ZeroFrom(a, b, k, j);
    }
  }

  /** Zeros at the front of a number do not count. */
  lemma LeadingZeroIsNothing(u: string, d: char, t: string)
    requires !EndsInDigit(u) && IsDigit(d)
    ensures PartsOrder(u + "0" + [d] + t, u + [d] + t) == 0
  {
    var a, b := u + "0" + [d] + t, u + [d] + t;
    assert a[..|u|] == u && b[..|u|] == u;
    assert u != "" ==> a[|u| - 1] == u[|u| - 1] && b[|u| - 1] == u[|u| - 1];
    assert a[|u| + 1..] == [d] + t && b[|u|..] == [d] + t;
    ZeroFrom(a, b, |u|, 0);
  }

  // ----- characters -----

  /** What comes first: the tilde, then the end of the text or of the run, then letters in their
      order, then all other characters in theirs. */
  predicate Before(c: Option<char>, d: Option<char>) {
    match (c, d)
    case (None, None) => false
    case (None, Some(y)) => y != '~'
    case (Some(x), None) => x == '~'
    case (Some(x), Some(y)) =>
      if x == '~' || y == '~' then x == '~' && y != '~'
      else if Letter(x) == Letter(y) then x < y
      else Letter(x)
  }

  predicate Letter(c: char) {
    'a' <= c <= 'z' || 'A' <= c <= 'Z'
  }

  /** An ASCII character that is no digit, and not the character zero. */
  predicate NonDigit(c: char) {
    0 < c as int < 0x80 && !IsDigit(c)
  }

  /** The non-digit of s at k; None at a digit and at the end. */
  function NonDigitAt(s: string, k: nat): Option<char> {
    if k < |s| && !IsDigit(s[k]) then Some(s[k]) else None
  }

  lemma WeightsAgree(c: Option<char>, d: Option<char>)
    requires Before(c, d) && (c.Some? ==> NonDigit(c.value)) && (d.Some? ==> NonDigit(d.value))
    ensures (if c.Some? then OrderChar(c.value) else 0) < (if d.Some? then OrderChar(d.value) else 0)
  {
  }

  lemma SmallerRun(a: string, b: string, k: nat)
    requires k <= |a| && k <= |b| && Before(NonDigitAt(a, k), NonDigitAt(b, k))
    requires (NonDigitAt(a, k).Some? ==> NonDigit(a[k])) && (NonDigitAt(b, k).Some? ==> NonDigit(b[k]))
    ensures CompareRuns(RunFrom(a, k), RunFrom(b, k)) == -1
  {
    WeightsAgree(NonDigitAt(a, k), NonDigitAt(b, k));
    assert HeadInt(RunFrom(a, k)) == if NonDigitAt(a, k).Some? then OrderChar(a[k]) else 0;
    assert HeadInt(RunFrom(b, k)) == if NonDigitAt(b, k).Some? then OrderChar(b[k]) else 0;
  }

  /** At the first place where two texts differ, if there is a character other than a digit on one
      side at least, and no number goes on there: the text with what comes first sorts first. */
  lemma FirstDifferenceDecides(u: string, s: string, t: string)
    requires EndsInDigit(u) ==> !StartsWithDigit(s) && !StartsWithDigit(t)
    requires Before(NonDigitAt(s, 0), NonDigitAt(t, 0))
    requires (NonDigitAt(s, 0).Some? ==> NonDigit(s[0])) && (NonDigitAt(t, 0).Some? ==> NonDigit(t[0]))
    ensures PartsOrder(u + s, u + t) == -1
  {
    var a, b := u + s, u + t;
    assert a[..|u|] == u && b[..|u|] == u;
    assert u != "" ==> a[|u| - 1] == u[|u| - 1] && b[|u| - 1] == u[|u| - 1];
    assert NonDigitAt(a, |u|) == NonDigitAt(s, 0) && NonDigitAt(b, |u|) == NonDigitAt(t, 0);
    SmallerRun(a, b, |u|);
    SmallerFrom(a, b, |u|, 0);
  }

  // ----- whole versions -----

  lemma EpochIs(n: nat, v: string)
    requires IsInt64(n)
    ensures EpochOf(FormatNat(n) + ":" + v) == n && AfterEpoch(FormatNat(n) + ":" + v) == v
  {
    var d := FormatNat(n);
    var w := d + ":" + v;
    ParseFormat(n);
    assert w[..|d|] == d && w[|d| + 1..] == v && w[|d|] == ':';
    assert forall j :: 0 <= j < |d| ==> w[j] == d[j];
    IndexOfIs(w, ':', |d|);
  }

  /** A smaller epoch sorts first, whatever follows. */
  lemma SmallerEpochFirst(m: nat, v: string, n: nat, w: string)
    requires m < n && IsInt64(n)
    ensures CompareVersions(FormatNat(m) + ":" + v, FormatNat(n) + ":" + w) == -1
  {
    EpochIs(m, v);
    EpochIs(n, w);
  }

  lemma ZeroDigit()
    ensures FormatNat(0) == "0"
  {
    assert FormatNat(0) == [DigitChar(0)];
  }

  lemma ZeroEpoch(v: string)
    ensures EpochOf("0:" + v) == 0 && AfterEpoch("0:" + v) == v
  {
    EpochIs(0, v);
    ZeroDigit();
    assert "0:" + v == "0" + ":" + v;
  }

  /** A version without an epoch has epoch 0. */
  lemma NoEpochIsZero(v: string)
    requires NoChar(v, ':')
    ensures ParseVersion(v) == ParseVersion("0:" + v)
  {
    ZeroEpoch(v);
    IndexOfIs(v, ':', |v|);
  }

  lemma SplitsAtLastDash(u: string, r: string)
    requires NoChar(r, '-')
    ensures SplitRevision(u + "-" + r) == (u, r)
  {
    var w := u + "-" + r;
    var i := LastIndexOf(w, '-');
    assert w[|u|] == '-';
    assert forall j :: |u| < j < |w| ==> w[j] == r[j - |u| - 1];
    assert w[..|u|] == u && w[|u| + 1..] == r;
  }

  /** With the same epoch the upstream versions decide, and the revisions, which follow the last
      dash, only between equal ones. */
  lemma RevisionBreaksTies(n: nat, u: string, r: string, u': string, r': string)
    requires IsInt64(n) && NoChar(r, '-') && NoChar(r', '-')
    ensures CompareVersions(FormatNat(n) + ":" + u + "-" + r, FormatNat(n) + ":" + u' + "-" + r')
         == if PartsOrder(u, u') != 0 then PartsOrder(u, u') else PartsOrder(r, r')
  {
    var e := FormatNat(n) + ":";
    assert e + u + "-" + r == e + (u + "-" + r) && e + u' + "-" + r' == e + (u' + "-" + r');
    EpochIs(n, u + "-" + r);
    EpochIs(n, u' + "-" + r');
    SplitsAtLastDash(u, r);
    SplitsAtLastDash(u', r');
  }
}
