/** Debian's version order: section 5.6.12 of the Debian Policy Manual and deb-version(7).
    The two-pointer loop is proved to compare sequences of (non-digit run, number), and the
    comparison of whole versions is proved to be a total preorder. */
module VersionOrder {
  import opened Text

  // ----- the specification: a part is a sequence of (non-digit run, number) -----

  datatype Segment = Segment(run: seq<int>, num: nat)

  const PAD: Segment := Segment([], 0)

  predicate IsLetter(c: char) {
    || 'A' <= c <= 'Z' || 'a' <= c <= 'z'
    || c as int in {0xAA, 0xB5, 0xBA}
    || 0xC0 <= c as int <= 0xD6 || 0xD8 <= c as int <= 0xF6 || 0xF8 <= c as int <= 0xFF
  }

  /** '~' before the end of the run, the end (0) before letters, letters before the rest. */
  function OrderChar(c: char): int {
    if c == '~' then -1
    else if IsLetter(c) then c as int
    else if c as int == 0 then 0
    else c as int + 256
  }

  /** The weights of the non-digits from i on, and where they stop. */
  function RunFrom(s: string, i: nat): seq<int>
    decreases |s| - i
  {
    if i < |s| && !IsDigit(s[i]) then [OrderChar(s[i])] + RunFrom(s, i + 1) else []
  }

  function RunStop(s: string, i: nat): (j: nat)
    requires i <= |s|
    ensures i <= j <= |s| && (j < |s| ==> IsDigit(s[j]))
    decreases |s| - i
  {
    if i < |s| && !IsDigit(s[i]) then RunStop(s, i + 1) else i
  }

  /** The unbounded number whose digits go on from i behind the value n, and where they stop. */
  function NumberFrom(s: string, i: nat, n: nat): nat
    decreases |s| - i
  {
    if i < |s| && IsDigit(s[i]) then NumberFrom(s, i + 1, 10 * n + DigitValue(s[i])) else n
  }

  function NumberStop(s: string, i: nat): (j: nat)
    requires i <= |s|
    ensures i <= j <= |s| && (j < |s| ==> !IsDigit(s[j]))
    decreases |s| - i
  {
    if i < |s| && IsDigit(s[i]) then NumberStop(s, i + 1) else i
  }

  function SegmentsFrom(s: string, i: nat): seq<Segment>
    requires i <= |s|
    decreases |s| - i
  {
    if i == |s| then [] else
    var e := RunStop(s, i);
    [Segment(RunFrom(s, i), NumberFrom(s, e, 0))] + SegmentsFrom(s, NumberStop(s, e))
  }

  function Segments(s: string): seq<Segment> { SegmentsFrom(s, 0) }

  function HeadInt(w: seq<int>): int { if w == [] then 0 else w[0] }
  function TailInt(w: seq<int>): seq<int> { if w == [] then [] else w[1..] }
  function HeadSegment(x: seq<Segment>): Segment { if x == [] then PAD else x[0] }
  function TailSegment(x: seq<Segment>): seq<Segment> { if x == [] then [] else x[1..] }

  /** Lexicographic order of weight runs padded with zeros. */
  function CompareRuns(a: seq<int>, b: seq<int>): int
    decreases |a| + |b|
  {
    if a == [] && b == [] then 0
    else if HeadInt(a) != HeadInt(b) then Sign(HeadInt(a), HeadInt(b))
    else CompareRuns(TailInt(a), TailInt(b))
  }

  function CompareSegment(a: Segment, b: Segment): int {
    var c := CompareRuns(a.run, b.run);
    if c != 0 then c else Sign(a.num, b.num)
  }

  /** Lexicographic order of segments padded with the empty run and zero. */
  function CompareSegments(x: seq<Segment>, y: seq<Segment>): int
    decreases |x| + |y|
  {
    if x == [] && y == [] then 0 else
    var c := CompareSegment(HeadSegment(x), HeadSegment(y));
    if c != 0 then c else CompareSegments(TailSegment(x), TailSegment(y))
  }

  function PartsOrder(s1: string, s2: string): int {
    CompareSegments(Segments(s1), Segments(s2))
  }

  // ----- whole versions -----

  datatype Version = Version(epoch: int, upstream: string, revision: string)

  /** The position of the last c in s, or -1. */
  function LastIndexOf(s: string, c: char): (i: int)
    ensures -1 <= i < |s| && (i >= 0 ==> s[i] == c)
    ensures forall j :: i < j < |s| ==> s[j] != c
  {
    if s == "" then -1
    else if s[|s| - 1] == c then |s| - 1
    else LastIndexOf(s[..|s| - 1], c)
  }

  function SplitRevision(rest: string): (string, string) {
    var i := LastIndexOf(rest, '-');
    if i == -1 then (rest, "") else (rest[..i], rest[i + 1..])
  }

  /** An epoch that is not a 64-bit number is silently zero. */
  function ParseEpoch(s: string): int {
    match ParseInt(s) case Some(n) => n case None => 0
  }

  /** What follows the first colon; the whole text when there is none. */
  function AfterEpoch(v: string): string {
    var i := IndexOf(v, ':');
    if i < |v| then v[i + 1..] else v
  }

  function EpochOf(v: string): int {
    var i := IndexOf(v, ':');
    if i < |v| then ParseEpoch(v[..i]) else 0
  }

  function ParseVersion(v: string): Version {
    var (upstream, revision) := SplitRevision(AfterEpoch(v));
    Version(EpochOf(v), upstream, revision)
  }

  function CompareParsed(v1: Version, v2: Version): int {
    if v1.epoch < v2.epoch then -1
    else if v1.epoch > v2.epoch then 1
    else
      var up := PartsOrder(v1.upstream, v2.upstream);
      if up != 0 then up else PartsOrder(v1.revision, v2.revision)
  }

  function CompareVersions(v1: string, v2: string): int {
    CompareParsed(ParseVersion(v1), ParseVersion(v2))
  }

  // ----- the loop refines the specification -----

  lemma ConsTail(x: int, w: seq<int>)
    ensures HeadInt([x] + w) == x && TailInt([x] + w) == w
  {
  }

  /** The first inner loop of compareParts: the weights of two runs, the shorter padded with zeros. */
  method CompareNonDigits(s1: string, i1: nat, s2: string, i2: nat) returns (j1: nat, j2: nat, r: int)
    requires i1 <= |s1| && i2 <= |s2|
    ensures r == CompareRuns(RunFrom(s1, i1), RunFrom(s2, i2))
    ensures r == 0 ==> j1 == RunStop(s1, i1) && j2 == RunStop(s2, i2)
  {
    j1, j2 := i1, i2;
    while (j1 < |s1| && !IsDigit(s1[j1])) || (j2 < |s2| && !IsDigit(s2[j2]))
      invariant j1 <= |s1| && j2 <= |s2|
      invariant RunStop(s1, j1) == RunStop(s1, i1) && RunStop(s2, j2) == RunStop(s2, i2)
      invariant CompareRuns(RunFrom(s1, i1), RunFrom(s2, i2)) == CompareRuns(RunFrom(s1, j1), RunFrom(s2, j2))
      decreases |s1| - j1 + |s2| - j2
    {
      var c1, c2 := 0, 0;
      if j1 < |s1| && !IsDigit(s1[j1]) {
        ConsTail(OrderChar(s1[j1]), RunFrom(s1, j1 + 1));
        c1 := OrderChar(s1[j1]);
        j1 := j1 + 1;
      }
      if j2 < |s2| && !IsDigit(s2[j2]) {
        ConsTail(OrderChar(s2[j2]), RunFrom(s2, j2 + 1));
        c2 := OrderChar(s2[j2]);
        j2 := j2 + 1;
      }
      if c1 != c2 {
        return j1, j2, Sign(c1, c2);
      }
    }
    return j1, j2, 0;
  }

  /** The digits left to read from i on. */
  function Left(s: string, i: nat): nat
    requires i <= |s|
  {
    NumberStop(s, i) - i
  }

  /** With as many digits to come, the larger value so far stays larger. */
  lemma {:induction false} LargerStaysLarger(s1: string, i1: nat, n1: nat, s2: string, i2: nat, n2: nat)
    requires i1 <= |s1| && i2 <= |s2| && Left(s1, i1) == Left(s2, i2) && n1 < n2
    ensures NumberFrom(s1, i1, n1) < NumberFrom(s2, i2, n2)
    decreases |s1| - i1
  {
    if Left(s1, i1) > 0 {
      LargerStaysLarger(s1, i1 + 1, 10 * n1 + DigitValue(s1[i1]), s2, i2 + 1, 10 * n2 + DigitValue(s2[i2]));
    }
  }

  /** A number with more digits, the first of them not zero, is larger. */
  lemma {:induction false} MoreDigitsIsLarger(s1: string, i1: nat, s2: string, i2: nat, n2: nat)
    requires i1 <= |s1| && i2 <= |s2| && Left(s1, i1) <= Left(s2, i2) && n2 > 0
    ensures NumberFrom(s1, i1, 0) < NumberFrom(s2, i2, n2)
    decreases |s2| - i2
  {
    if Left(s1, i1) < Left(s2, i2) {
      MoreDigitsIsLarger(s1, i1, s2, i2 + 1, 10 * n2 + DigitValue(s2[i2]));
    } else {
      LargerStaysLarger(s1, i1, 0, s2, i2, n2);
    }
  }

  /** The numerical comparison when the digit counts are equal: the first difference decides. */
  method CompareSameLength(s1: string, i1: nat, s2: string, i2: nat, digits: nat) returns (firstDiff: int)
    requires i1 <= |s1| && i2 <= |s2| && Left(s1, i1) == Left(s2, i2) == digits
    ensures firstDiff == Sign(NumberFrom(s1, i1, 0), NumberFrom(s2, i2, 0))
  {
    firstDiff := 0;
    ghost var n: nat := 0;
    for k := 0 to digits
      invariant i1 + k <= |s1| && i2 + k <= |s2|
      invariant Left(s1, i1 + k) == Left(s2, i2 + k) == digits - k
      invariant firstDiff != 0 ==> firstDiff == Sign(NumberFrom(s1, i1, 0), NumberFrom(s2, i2, 0))
      invariant firstDiff == 0 ==> NumberFrom(s1, i1, 0) == NumberFrom(s1, i1 + k, n)
      invariant firstDiff == 0 ==> NumberFrom(s2, i2, 0) == NumberFrom(s2, i2 + k, n)
    {
      var d1, d2 := s1[i1 + k], s2[i2 + k];
      if d1 != d2 {
        if firstDiff == 0 {
          firstDiff := Sign(d1 as int, d2 as int);
          if d1 < d2 {
            LargerStaysLarger(s1, i1 + k + 1, 10 * n + DigitValue(d1), s2, i2 + k + 1, 10 * n + DigitValue(d2));
          } else {
            LargerStaysLarger(s2, i2 + k + 1, 10 * n + DigitValue(d2), s1, i1 + k + 1, 10 * n + DigitValue(d1));
          }
        }
      }
      n := 10 * n + DigitValue(d1);
    }
  }

  /** The zero-skipping loop. */
  method SkipZeros(s: string, i: nat) returns (j: nat)
    requires i <= |s|
    ensures i <= j <= |s| && (j < |s| ==> s[j] != '0')
    ensures NumberFrom(s, j, 0) == NumberFrom(s, i, 0) && NumberStop(s, j) == NumberStop(s, i)
  {
    j := i;
    while j < |s| && s[j] == '0'
      invariant i <= j <= |s|
      invariant NumberFrom(s, j, 0) == NumberFrom(s, i, 0) && NumberStop(s, j) == NumberStop(s, i)
    {
      j := j + 1;
    }
  }

  /** The digit-counting loop. */
  method CountDigits(s: string, i: nat) returns (j: nat, digits: nat)
    requires i <= |s|
    ensures j == NumberStop(s, i) && digits == Left(s, i)
  {
    j, digits := i, 0;
    while j < |s| && IsDigit(s[j])
      invariant i <= j <= |s| && digits == j - i && NumberStop(s, j) == NumberStop(s, i)
    {
      digits := digits + 1;
      j := j + 1;
    }
  }

  /** The second half of the outer loop: zeros skipped, then digit count, then first difference. */
  method CompareNumbers(s1: string, i1: nat, s2: string, i2: nat) returns (j1: nat, j2: nat, r: int)
    requires i1 <= |s1| && i2 <= |s2|
    ensures j1 == NumberStop(s1, i1) && j2 == NumberStop(s2, i2)
    ensures r == Sign(NumberFrom(s1, i1, 0), NumberFrom(s2, i2, 0))
  {
    var z1 := SkipZeros(s1, i1);
    var z2 := SkipZeros(s2, i2);
    var digits1, digits2;
    j1, digits1 := CountDigits(s1, z1);
    j2, digits2 := CountDigits(s2, z2);
    if digits1 != digits2 {
      if digits1 < digits2 {
        MoreDigitsIsLarger(s1, z1, s2, z2 + 1, DigitValue(s2[z2]));
      } else {
        MoreDigitsIsLarger(s2, z2, s1, z1 + 1, DigitValue(s1[z1]));
      }
      return j1, j2, Sign(digits1, digits2);
    }
    r := CompareSameLength(s1, z1, s2, z2, digits1);
  }

  /** For every suffix, the empty one included, the leading run and number are the padded head. */
  lemma SegmentsStep(s: string, i: nat)
    requires i <= |s|
    ensures var e := RunStop(s, i);
      && HeadSegment(SegmentsFrom(s, i)) == Segment(RunFrom(s, i), NumberFrom(s, e, 0))
      && TailSegment(SegmentsFrom(s, i)) == SegmentsFrom(s, NumberStop(s, e))
      && (i < |s| ==> NumberStop(s, e) > i)
  {
  }

  /** compareParts, loop by loop, equals the lexicographic order of the padded segments. */
  method CompareParts(s1: string, s2: string) returns (r: int)
    ensures r == PartsOrder(s1, s2)
  {
    var i1: nat, i2: nat := 0, 0;
    while i1 < |s1| || i2 < |s2|
      invariant i1 <= |s1| && i2 <= |s2|
      invariant PartsOrder(s1, s2) == CompareSegments(SegmentsFrom(s1, i1), SegmentsFrom(s2, i2))
      decreases |s1| - i1 + |s2| - i2
    {
      SegmentsStep(s1, i1);
      SegmentsStep(s2, i2);
      var diff;
      i1, i2, diff := CompareNonDigits(s1, i1, s2, i2);
      if diff != 0 {
        return diff;
      }
      i1, i2, diff := CompareNumbers(s1, i1, s2, i2);
      if diff != 0 {
        return diff;
      }
    }
    return 0;
  }

  // ----- the order is a total preorder -----

  /** What a chain a <= b <= c must give: a <= c, with equality only if both links are equalities. */
  predicate Chains(ab: int, bc: int, ac: int) {
    ab <= 0 && bc <= 0 ==> ac <= 0 && (ac == 0 ==> ab == 0 && bc == 0)
  }

  lemma {:induction false} RunsSymmetry(a: seq<int>, b: seq<int>)
    ensures CompareRuns(a, b) == -CompareRuns(b, a) && CompareRuns(a, b) in {-1, 0, 1}
    decreases |a| + |b|
  {
    if a != [] || b != [] { RunsSymmetry(TailInt(a), TailInt(b)); }
  }

  lemma {:induction false} RunsChain(a: seq<int>, b: seq<int>, c: seq<int>)
    ensures Chains(CompareRuns(a, b), CompareRuns(b, c), CompareRuns(a, c))
    decreases |a| + |b| + |c|
  {
    if a == [] && b == [] && c == [] {
    } else {
      RunsChain(TailInt(a), TailInt(b), TailInt(c));
      RunsSymmetry(TailInt(a), TailInt(b));
      RunsSymmetry(TailInt(b), TailInt(c));
    }
  }

  lemma SegmentSymmetry(a: Segment, b: Segment)
    ensures CompareSegment(a, b) == -CompareSegment(b, a) && CompareSegment(a, b) in {-1, 0, 1}
  {
    RunsSymmetry(a.run, b.run);
  }

  lemma SegmentChain(a: Segment, b: Segment, c: Segment)
    ensures Chains(CompareSegment(a, b), CompareSegment(b, c), CompareSegment(a, c))
  {
    RunsChain(a.run, b.run, c.run);
  }

  lemma {:induction false} SegmentsSymmetry(x: seq<Segment>, y: seq<Segment>)
    ensures CompareSegments(x, y) == -CompareSegments(y, x) && CompareSegments(x, y) in {-1, 0, 1}
    decreases |x| + |y|
  {
    if x != [] || y != [] {
      SegmentSymmetry(HeadSegment(x), HeadSegment(y));
      SegmentsSymmetry(TailSegment(x), TailSegment(y));
    }
  }

  lemma {:induction false} SegmentsChain(x: seq<Segment>, y: seq<Segment>, z: seq<Segment>)
    ensures Chains(CompareSegments(x, y), CompareSegments(y, z), CompareSegments(x, z))
    decreases |x| + |y| + |z|
  {
    if x == [] && y == [] && z == [] {
    } else {
      SegmentChain(HeadSegment(x), HeadSegment(y), HeadSegment(z));
      SegmentSymmetry(HeadSegment(x), HeadSegment(y));
      SegmentSymmetry(HeadSegment(y), HeadSegment(z));
      SegmentsChain(TailSegment(x), TailSegment(y), TailSegment(z));
      PaddedStep(x, y);
      PaddedStep(y, z);
      PaddedStep(x, z);
    }
  }

  /** The padded comparison unfolds even when both sides have run out. */
  lemma PaddedStep(x: seq<Segment>, y: seq<Segment>)
    ensures CompareSegments(x, y)
         == var c := CompareSegment(HeadSegment(x), HeadSegment(y));
            if c != 0 then c else CompareSegments(TailSegment(x), TailSegment(y))
  {
  }

  /** Reversing the arguments reverses the sign. */
  lemma CompareSymmetry(v1: string, v2: string)
    ensures CompareVersions(v1, v2) == -CompareVersions(v2, v1)
    ensures CompareVersions(v1, v2) in {-1, 0, 1}
  {
    var p1, p2 := ParseVersion(v1), ParseVersion(v2);
    SegmentsSymmetry(Segments(p1.upstream), Segments(p2.upstream));
    SegmentsSymmetry(Segments(p1.revision), Segments(p2.revision));
  }

  lemma CompareChain(v1: string, v2: string, v3: string)
    ensures Chains(CompareVersions(v1, v2), CompareVersions(v2, v3), CompareVersions(v1, v3))
  {
    var p1, p2, p3 := ParseVersion(v1), ParseVersion(v2), ParseVersion(v3);
    SegmentsChain(Segments(p1.upstream), Segments(p2.upstream), Segments(p3.upstream));
    SegmentsChain(Segments(p1.revision), Segments(p2.revision), Segments(p3.revision));
  }

  /** CompareVersions is a total preorder on all strings, and its equivalence is a congruence. */
  lemma TotalPreorder(a: string, b: string, c: string)
    ensures CompareVersions(a, a) == 0
    ensures CompareVersions(a, b) == -CompareVersions(b, a)
    ensures CompareVersions(a, b) <= 0 && CompareVersions(b, c) <= 0 ==> CompareVersions(a, c) <= 0
    ensures CompareVersions(a, b) < 0 && CompareVersions(b, c) < 0 ==> CompareVersions(a, c) < 0
    ensures CompareVersions(a, b) == 0 ==> CompareVersions(a, c) == CompareVersions(b, c)
  {
    CompareSymmetry(a, a);
    CompareSymmetry(a, b);
    CompareSymmetry(b, c);
    CompareSymmetry(a, c);
    CompareChain(a, b, c);
    CompareChain(b, a, c);
    CompareChain(c, a, b);
    CompareChain(c, b, a);
  }

  // ----- what the order means -----

  /** An absent revision counts as revision 0. */
  lemma AbsentRevisionIsZero(epoch: int, upstream: string)
    ensures CompareParsed(Version(epoch, upstream, ""), Version(epoch, upstream, "0")) == 0
  {
    SegmentsSymmetry(Segments(upstream), Segments(upstream));
    SegmentsStep("0", 0);
    SegmentsStep("", 0);
    PaddedStep(Segments(""), Segments("0"));
    assert RunStop("0", 0) == 0 && NumberStop("0", 0) == 1 && NumberFrom("0", 0, 0) == 0;
  }

  lemma SuffixKeepsEpoch(v: string, t: string)
    requires NoChar(t, ':')
    ensures EpochOf(v + t) == EpochOf(v) && AfterEpoch(v + t) == AfterEpoch(v) + t
  {
    var w := v + t;
    var i := IndexOf(v, ':');
    if i < |v| {
      assert w[..i] == v[..i] && w[i + 1..] == v[i + 1..] + t;
      IndexOfIs(w, ':', i);
    } else {
      assert v[..i] == v && w[..|w|] == w;
      IndexOfIs(w, ':', |w|);
    }
  }

  /** On version texts: appending "-0" to a version without a revision changes nothing. */
  lemma DashZeroChangesNothing(v: string)
    requires NoChar(AfterEpoch(v), '-')
    ensures CompareVersions(v, v + "-0") == 0
  {
    var upstream := AfterEpoch(v);
    SuffixKeepsEpoch(v, "-0");
    SplitDashZero(upstream);
    assert ParseVersion(v) == Version(EpochOf(v), upstream, "");
    assert ParseVersion(v + "-0") == Version(EpochOf(v), upstream, "0");
    AbsentRevisionIsZero(EpochOf(v), upstream);
  }

  lemma SplitDashZero(rest: string)
    requires NoChar(rest, '-')
    ensures SplitRevision(rest) == (rest, "") && SplitRevision(rest + "-0") == (rest, "0")
  {
    var w := rest + "-0";
    var i := LastIndexOf(w, '-');
    assert w[|rest|] == '-';
    assert forall j :: 0 <= j < |rest| ==> w[j] == rest[j];
    assert w[..|rest|] == rest && w[|rest| + 1..] == "0";
  }

  /** u goes on with '~' where s ends. */
  predicate TildeBehind(s: string, u: string) {
    |s| < |u| && u[..|s|] == s && u[|s|] == '~'
  }

  /** The tilde lengthens a run that reaches the end of s, and leaves any other as it is. */
  lemma {:induction false} TildeRun(s: string, u: string, i: nat)
    requires TildeBehind(s, u) && i <= |s|
    ensures RunStop(s, i) < |s| ==> RunStop(u, i) == RunStop(s, i) && RunFrom(u, i) == RunFrom(s, i)
    ensures RunStop(s, i) == |s| ==> CompareRuns(RunFrom(u, i), RunFrom(s, i)) == -1
    decreases |s| - i
  {
    if i < |s| {
      assert u[i] == u[..|s|][i] == s[i];
      TildeRun(s, u, i + 1);
      if !IsDigit(s[i]) {
        ConsTail(OrderChar(s[i]), RunFrom(s, i + 1));
        ConsTail(OrderChar(s[i]), RunFrom(u, i + 1));
      }
    }
  }

  lemma {:induction false} TildeNumber(s: string, u: string, i: nat, n: nat)
    requires TildeBehind(s, u) && i <= |s|
    ensures NumberStop(u, i) == NumberStop(s, i) && NumberFrom(u, i, n) == NumberFrom(s, i, n)
    decreases |s| - i
  {
    if i < |s| {
      assert u[i] == u[..|s|][i] == s[i];
      if IsDigit(s[i]) { TildeNumber(s, u, i + 1, 10 * n + DigitValue(s[i])); }
    }
  }

  lemma {:induction false} TildeSegments(s: string, u: string, i: nat)
    requires TildeBehind(s, u) && i <= |s|
    ensures CompareSegments(SegmentsFrom(u, i), SegmentsFrom(s, i)) == -1
    decreases |s| - i
  {
    SegmentsStep(s, i);
    SegmentsStep(u, i);
    PaddedStep(SegmentsFrom(u, i), SegmentsFrom(s, i));
    TildeRun(s, u, i);
    var e := RunStop(s, i);
    if e < |s| {
      TildeNumber(s, u, e, 0);
      RunsSymmetry(RunFrom(s, i), RunFrom(s, i));
      TildeSegments(s, u, NumberStop(s, e));
    }
  }

  /** '~' sorts before everything, even before the end of the part. */
  lemma TildeSortsFirst(s: string, t: string)
    ensures PartsOrder(s + "~" + t, s) == -1
  {
    TildeSegments(s, s + "~" + t, 0);
  }
}
