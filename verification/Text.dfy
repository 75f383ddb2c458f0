/** Byte strings as the repository's Go code handles them: white space, splitting, lines,
    lexicographic comparison and decimal numbers. A string holds ASCII bytes. */
module Text {

  datatype Option<+T> = None | Some(value: T)

  // ----- white space (strings.TrimSpace, strings.TrimRight) -----

  /** Tab, newline, vertical tab, form feed, carriage return and blank. */
  predicate IsSpace(c: char) {
    c == ' ' || '\t' <= c <= '\r'
  }

  predicate Blank(s: string) {
    forall i :: 0 <= i < |s| ==> IsSpace(s[i])
  }

  predicate Trimmed(s: string) {
    s == "" || (!IsSpace(s[0]) && !IsSpace(s[|s| - 1]))
  }

  function TrimLeft(s: string): string {
    if s != "" && IsSpace(s[0]) then TrimLeft(s[1..]) else s
  }

  function TrimRight(s: string): string {
    if s != "" && IsSpace(s[|s| - 1]) then TrimRight(s[..|s| - 1]) else s
  }

  function TrimSpace(s: string): string {
    TrimRight(TrimLeft(s))
  }

  /** strings.TrimRight(s, "\n") */
  function TrimNewlines(s: string): string {
    if s != "" && s[|s| - 1] == '\n' then TrimNewlines(s[..|s| - 1]) else s
  }

  /** strings.TrimPrefix for a one-byte prefix */
  function TrimPrefixChar(s: string, c: char): string {
    if s != "" && s[0] == c then s[1..] else s
  }

  predicate NoChar(s: string, c: char) {
    forall i :: 0 <= i < |s| ==> s[i] != c
  }

  /** A value that fits on a line and loses nothing when trimmed. */
  predicate OneLine(s: string) {
    Trimmed(s) && NoChar(s, '\n')
  }

  lemma {:induction false} TrimLeftShape(s: string) returns (k: nat)
    ensures k <= |s| && TrimLeft(s) == s[k..] && Blank(s[..k])
    ensures k < |s| ==> !IsSpace(s[k])
  {
    if s != "" && IsSpace(s[0]) {
      var k' := TrimLeftShape(s[1..]);
      k := k' + 1;
    } else {
      k := 0;
    }
  }

  lemma {:induction false} TrimRightShape(s: string) returns (k: nat)
    ensures k <= |s| && TrimRight(s) == s[..k] && Blank(s[k..])
    ensures k > 0 ==> !IsSpace(s[k - 1])
  {
    if s != "" && IsSpace(s[|s| - 1]) {
      k := TrimRightShape(s[..|s| - 1]);
      assert s[..|s| - 1][..k] == s[..k];
      assert s[k..] == s[..|s| - 1][k..] + [s[|s| - 1]];
      BlankSnoc(s[..|s| - 1][k..], s[|s| - 1]);
    } else {
      k := |s|;
      assert s[..k] == s && s[k..] == "";
    }
  }

  lemma BlankSnoc(s: string, c: char)
    requires Blank(s) && IsSpace(c)
    ensures Blank(s + [c])
  {
    forall i | 0 <= i < |s| + 1 ensures IsSpace((s + [c])[i]) {
      if i < |s| { assert (s + [c])[i] == s[i]; }
    }
  }

  /** Trimming cuts blanks at both ends and nothing else. */
  lemma TrimSpaceShape(s: string) returns (lo: nat, hi: nat)
    ensures lo <= hi <= |s| && TrimSpace(s) == s[lo..hi]
    ensures Blank(s[..lo]) && Blank(s[hi..])
    ensures lo < hi ==> !IsSpace(s[lo]) && !IsSpace(s[hi - 1])
    ensures Trimmed(TrimSpace(s))
  {
    lo := TrimLeftShape(s);
    var k := TrimRightShape(s[lo..]);
    hi := lo + k;
    assert s[lo..][..k] == s[lo..hi];
    assert s[lo..][k..] == s[hi..];
  }

  /** The window of s between lo and hi with non-blank ends and blanks around is what is left. */
  lemma {:induction false} TrimSpaceIs(s: string, lo: nat, hi: nat)
    requires lo <= hi <= |s|
    requires Blank(s[..lo]) && Blank(s[hi..])
    requires lo < hi ==> !IsSpace(s[lo]) && !IsSpace(s[hi - 1])
    ensures TrimSpace(s) == s[lo..hi]
  {
    var l, h := TrimSpaceShape(s);
    assert forall i :: 0 <= i < lo ==> s[i] == s[..lo][i];
    assert forall i :: 0 <= i < l ==> s[i] == s[..l][i];
    assert forall i :: h <= i < |s| ==> s[i] == s[h..][i - h];
    assert forall i :: hi <= i < |s| ==> s[i] == s[hi..][i - hi];
  }

  lemma TrimOfTrimmed(s: string)
    ensures TrimSpace(s) == s <==> Trimmed(s)
  {
    if Trimmed(s) {
      TrimSpaceIs(s, 0, |s|);
    }
    var lo, hi := TrimSpaceShape(s);
  }

  lemma TrimEmptyIffBlank(s: string)
    ensures TrimSpace(s) == "" <==> Blank(s)
  {
    var lo, hi := TrimSpaceShape(s);
    if lo == hi {
      forall i | 0 <= i < |s| ensures IsSpace(s[i]) {
        if i < lo { assert s[i] == s[..lo][i]; } else { assert s[i] == s[hi..][i - hi]; }
      }
    }
  }

  lemma WindowOfPadded(front: string, s: string, back: string, lo: nat, hi: nat)
    requires lo <= hi <= |s|
    ensures (front + s + back)[|front| + lo..|front| + hi] == s[lo..hi]
  {
    var t := front + s + back;
    assert forall i :: lo <= i < hi ==> t[|front| + i] == s[i];
  }

  /** Blanks put in front or behind make no difference to the trimmed text. */
  lemma TrimPadded(front: string, s: string, back: string)
    requires Blank(front) && Blank(back)
    ensures TrimSpace(front + s + back) == TrimSpace(s)
  {
    var lo, hi := TrimSpaceShape(s);
    var t := front + s + back;
    if lo < hi {
      var l, h := |front| + lo, |front| + hi;
      forall i | 0 <= i < l ensures IsSpace(t[..l][i]) {
        if i >= |front| { assert t[i] == s[..lo][i - |front|]; }
      }
      forall i | 0 <= i < |t| - h ensures IsSpace(t[h..][i]) {
        if h + i < |front| + |s| { assert t[h + i] == s[hi..][i]; }
      }
      TrimSpaceIs(t, l, h);
      WindowOfPadded(front, s, back, lo, hi);
    } else {
      TrimEmptyIffBlank(s);
      TrimEmptyIffBlank(t);
    }
  }

  lemma {:induction false} TrimNewlinesShape(s: string) returns (k: nat)
    ensures k <= |s| && TrimNewlines(s) == s[..k]
    ensures k > 0 ==> s[k - 1] != '\n'
    ensures forall i :: k <= i < |s| ==> s[i] == '\n'
  {
    if s != "" && s[|s| - 1] == '\n' {
      k := TrimNewlinesShape(s[..|s| - 1]);
      assert forall i :: k <= i < |s| - 1 ==> s[i] == s[..|s| - 1][i];
    } else {
      k := |s|;
    }
  }

  lemma Associates(a: string, b: string, c: string)
    ensures a + b + c == a + (b + c)
  {
  }

  // ----- splitting and joining (strings.Split, strings.Join, bufio.ScanLines) -----

  /** The position of the first c in s, or |s|. */
  function IndexOf(s: string, c: char): (i: nat)
    ensures i <= |s| && NoChar(s[..i], c) && (i < |s| ==> s[i] == c)
  {
    if s == "" || s[0] == c then 0 else
    assert forall j :: 1 <= j < |s| ==> s[j] == s[1..][j - 1];
    var i := 1 + IndexOf(s[1..], c);
    assert s[..i] == [s[0]] + s[1..][..i - 1];
    i
  }

  lemma IndexOfIs(s: string, c: char, i: nat)
    requires i <= |s| && NoChar(s[..i], c) && (i < |s| ==> s[i] == c)
    ensures IndexOf(s, c) == i
  {
    var j := IndexOf(s, c);
    assert forall k :: 0 <= k < i ==> s[k] == s[..i][k];
    assert forall k :: 0 <= k < j ==> s[k] == s[..j][k];
  }

  function Split(s: string, c: char): (parts: seq<string>)
    ensures |parts| >= 1
  {
    if s == "" then [""] else
    var rest := Split(s[1..], c);
    if s[0] == c then [""] + rest else [[s[0]] + rest[0]] + rest[1..]
  }

  function Join(parts: seq<string>, c: char): string
    requires |parts| >= 1
  {
    if |parts| == 1 then parts[0] else parts[0] + [c] + Join(parts[1..], c)
  }

  lemma {:induction false} SplitPieces(s: string, c: char)
    ensures forall i :: 0 <= i < |Split(s, c)| ==> NoChar(Split(s, c)[i], c)
    ensures Join(Split(s, c), c) == s
  {
    if s != "" {
      SplitPieces(s[1..], c);
      var rest := Split(s[1..], c);
      assert s == [s[0]] + s[1..];
      if s[0] == c {
        assert ([""] + rest)[1..] == rest;
      } else if |rest| > 1 {
        JoinHead([s[0]], rest, c);
      }
    }
  }

  lemma JoinHead(front: string, parts: seq<string>, c: char)
    requires |parts| > 1
    ensures Join([front + parts[0]] + parts[1..], c) == front + Join(parts, c)
  {
    assert ([front + parts[0]] + parts[1..])[1..] == parts[1..];
    var tail := [c] + Join(parts[1..], c);
    assert front + parts[0] + tail == front + (parts[0] + tail);
    assert parts[0] + [c] + Join(parts[1..], c) == parts[0] + tail;
    assert front + parts[0] + [c] + Join(parts[1..], c) == front + parts[0] + tail;
  }

  lemma {:induction false} SplitNone(s: string, c: char)
    requires NoChar(s, c)
    ensures Split(s, c) == [s]
  {
    if s != "" {
      assert forall i :: 0 <= i < |s| - 1 ==> s[1..][i] == s[i + 1];
      SplitNone(s[1..], c);
      assert [s[0]] + s[1..] == s;
    }
  }

  lemma SplitSingle(s: string, c: char)
    ensures |Split(s, c)| == 1 <==> NoChar(s, c)
    ensures |Split(s, c)| == 1 ==> Split(s, c) == [s]
  {
    SplitPieces(s, c);
    if NoChar(s, c) { SplitNone(s, c); }
  }

  lemma SplitHead(s: string, c: char)
    requires s != ""
    ensures Split(s, c) == if s[0] == c then [""] + Split(s[1..], c)
                           else [[s[0]] + Split(s[1..], c)[0]] + Split(s[1..], c)[1..]
  {
  }

  lemma HeadAppend(h: string, p: seq<string>, q: seq<string>)
    requires |p| >= 1
    ensures [h] + (p + q) == [h] + p + q
    ensures [h + (p + q)[0]] + (p + q)[1..] == [h + p[0]] + p[1..] + q
  {
  }

  /** Splitting at a separator in the middle splits both sides. */
  lemma {:induction false} SplitSep(a: string, b: string, c: char)
    ensures Split(a + [c] + b, c) == Split(a, c) + Split(b, c)
  {
    var s := a + [c] + b;
    SplitHead(s, c);
    if a == "" {
      assert s[1..] == b;
    } else {
      SplitHead(a, c);
      assert s[1..] == a[1..] + [c] + b;
      SplitSep(a[1..], b, c);
      HeadAppend(if a[0] == c then "" else [a[0]], Split(a[1..], c), Split(b, c));
    }
  }

  /** The pieces with t put behind the last one. */
  function ExtendLast(parts: seq<string>, t: string): (r: seq<string>)
    requires |parts| >= 1
    ensures |r| == |parts| && r[|r| - 1] == parts[|r| - 1] + t && r[..|r| - 1] == parts[..|r| - 1]
  {
    parts[..|parts| - 1] + [parts[|parts| - 1] + t]
  }

  lemma ExtendLastCons(h: string, parts: seq<string>, t: string)
    requires |parts| >= 1
    ensures ExtendLast([h] + parts, t) == [h] + ExtendLast(parts, t)
    ensures var r := ExtendLast(parts, t);
            ExtendLast([h + parts[0]] + parts[1..], t) == [h + r[0]] + r[1..]
  {
    if |parts| == 1 {
      assert h + parts[0] + t == h + (parts[0] + t);
    }
  }

  /** Text without separators only lengthens the last piece. */
  lemma {:induction false} SplitExtend(a: string, t: string, c: char)
    requires NoChar(t, c)
    ensures Split(a + t, c) == ExtendLast(Split(a, c), t)
  {
    if a == "" {
      assert a + t == t;
      SplitNone(t, c);
    } else {
      SplitExtend(a[1..], t, c);
      assert (a + t)[1..] == a[1..] + t;
      ExtendLastCons(if a[0] == c then "" else [a[0]], Split(a[1..], c), t);
    }
  }

  /** Joining and splitting undo each other when no part holds the separator. */
  lemma {:induction false} SplitJoin(parts: seq<string>, c: char)
    requires parts != [] && forall i :: 0 <= i < |parts| ==> NoChar(parts[i], c)
    ensures Split(Join(parts, c), c) == parts
  {
    SplitNone(parts[0], c);
    if |parts| > 1 {
      SplitJoin(parts[1..], c);
      SplitSep(parts[0], Join(parts[1..], c), c);
      assert parts == [parts[0]] + parts[1..];
    }
  }

  lemma {:induction false} JoinSnoc(parts: seq<string>, p: string, c: char)
    requires |parts| >= 1
    ensures Join(parts + [p], c) == Join(parts, c) + [c] + p
  {
    if |parts| == 1 {
      assert (parts + [p])[1..] == [p];
    } else {
      JoinSnoc(parts[1..], p, c);
      assert (parts + [p])[1..] == parts[1..] + [p];
    }
  }

  /** The carriage return that bufio.ScanLines drops at the end of a line. */
  function DropCR(line: string): string {
    if line != "" && line[|line| - 1] == '\r' then line[..|line| - 1] else line
  }

  /** bufio.ScanLines over a whole text: no line for an empty rest. */
  function ScanLines(text: string): seq<string> {
    if text == "" then [] else
    var i := IndexOf(text, '\n');
    if i == |text| then [DropCR(text)] else [DropCR(text[..i])] + ScanLines(text[i + 1..])
  }

  function Unlines(lines: seq<string>): string {
    if lines == [] then "" else lines[0] + "\n" + Unlines(lines[1..])
  }

  function DropCRs(lines: seq<string>): (r: seq<string>)
    ensures |r| == |lines|
  {
    seq(|lines|, i requires 0 <= i < |lines| => DropCR(lines[i]))
  }

  predicate AllLines(lines: seq<string>) {
    forall i :: 0 <= i < |lines| ==> NoChar(lines[i], '\n')
  }

  lemma FirstLine(line: string, rest: string)
    requires NoChar(line, '\n')
    ensures ScanLines(line + "\n" + rest) == [DropCR(line)] + ScanLines(rest)
  {
    var text := line + "\n" + rest;
    assert text[..|line|] == line && text[|line| + 1..] == rest;
    IndexOfIs(text, '\n', |line|);
  }

  /** A text written line by line is scanned back line by line, less one carriage return each. */
  lemma {:induction false} ScanUnlines(lines: seq<string>)
    requires AllLines(lines)
    ensures ScanLines(Unlines(lines)) == DropCRs(lines)
  {
    if lines != [] {
      AllLinesRest(lines);
      ScanUnlines(lines[1..]);
      ScanFirst(lines);
    }
  }

  lemma AllLinesRest(lines: seq<string>)
    requires AllLines(lines) && lines != []
    ensures NoChar(lines[0], '\n') && AllLines(lines[1..])
  {
    forall i | 0 <= i < |lines| - 1 ensures NoChar(lines[1..][i], '\n') { assert lines[1..][i] == lines[i + 1]; }
  }

  lemma ScanFirst(lines: seq<string>)
    requires lines != [] && NoChar(lines[0], '\n') && ScanLines(Unlines(lines[1..])) == DropCRs(lines[1..])
    ensures ScanLines(Unlines(lines)) == DropCRs(lines)
  {
    FirstLine(lines[0], Unlines(lines[1..]));
    assert Unlines(lines) == lines[0] + "\n" + Unlines(lines[1..]);
    assert DropCRs(lines) == [DropCR(lines[0])] + DropCRs(lines[1..]);
  }

  lemma {:induction false} UnlinesAppend(a: seq<string>, b: seq<string>)
    ensures Unlines(a + b) == Unlines(a) + Unlines(b)
  {
    if a == [] {
      assert a + b == b;
    } else {
      UnlinesAppend(a[1..], b);
      assert (a + b)[1..] == a[1..] + b;
    }
  }

  lemma UnlinesEmpty(lines: seq<string>)
    ensures Unlines(lines + [""]) == Unlines(lines) + "\n"
  {
    UnlinesAppend(lines, [""]);
    assert Unlines([""]) == "" + "\n" + Unlines([]);
  }

  lemma {:induction false} ScanLinesAreLines(text: string)
    ensures AllLines(ScanLines(text))
  {
    if text != "" {
      var i := IndexOf(text, '\n');
      assert i == |text| ==> text[..i] == text;
      if i < |text| { ScanLinesAreLines(text[i + 1..]); }
    }
  }

  // ----- comparison (strings.Compare, cmp.Compare on strings) -----

  function Sign(a: int, b: int): (r: int)
  {
    if a < b then -1 else if a > b then 1 else 0
  }

  function Compare(a: string, b: string): int {
    if a == "" then (if b == "" then 0 else -1)
    else if b == "" then 1
    else if a[0] != b[0] then Sign(a[0] as int, b[0] as int)
    else Compare(a[1..], b[1..])
  }

  lemma {:induction false} CompareLaws(a: string, b: string)
    ensures Compare(a, b) == -Compare(b, a)
    ensures Compare(a, b) in {-1, 0, 1}
    ensures Compare(a, b) == 0 <==> a == b
  {
    if a != "" && b != "" && a[0] == b[0] {
      CompareLaws(a[1..], b[1..]);
      assert a == [a[0]] + a[1..] && b == [b[0]] + b[1..];
    }
  }

  lemma {:induction false} CompareTransitive(a: string, b: string, c: string)
    requires Compare(a, b) <= 0 && Compare(b, c) <= 0
    ensures Compare(a, c) <= 0
  {
    if a != "" && b != "" && c != "" && a[0] == b[0] == c[0] {
      CompareTransitive(a[1..], b[1..], c[1..]);
    }
  }

  // ----- decimal numbers (strconv.FormatInt, strconv.ParseInt, strconv.Atoi) -----

  const MIN_INT64: int := -0x8000_0000_0000_0000
  const MAX_INT64: int := 0x7fff_ffff_ffff_ffff

  predicate IsInt64(n: int) { MIN_INT64 <= n <= MAX_INT64 }

  predicate IsDigit(c: char) { '0' <= c <= '9' }

  predicate AllDigits(s: string) {
    forall i :: 0 <= i < |s| ==> IsDigit(s[i])
  }

  /** The text of a hash: lower-case hexadecimal digits. */
  predicate IsHex(s: string) {
    s != "" && forall i :: 0 <= i < |s| ==> IsDigit(s[i]) || 'a' <= s[i] <= 'f'
  }

  function DigitValue(c: char): (d: nat)
    requires IsDigit(c)
    ensures d < 10
  {
    c as int - '0' as int
  }

  /** The unbounded decimal value of a run of digits; 0 for the empty run. */
  function Value(s: string): nat
    requires AllDigits(s)
  {
    if s == "" then 0 else 10 * Value(s[..|s| - 1]) + DigitValue(s[|s| - 1])
  }

  function DigitChar(d: nat): (c: char)
    requires d < 10
    ensures IsDigit(c) && DigitValue(c) == d
  {
    '0' + d as char
  }

  function FormatNat(n: nat): (s: string)
    ensures s != "" && AllDigits(s) && Value(s) == n
  {
    if n < 10 then [DigitChar(n)] else
    var front := FormatNat(n / 10);
    var s := front + [DigitChar(n % 10)];
    assert s[..|s| - 1] == front;
    s
  }

  /** strconv.FormatInt(n, 10) */
  function FormatInt(n: int): string {
    if n < 0 then "-" + FormatNat(-n) else FormatNat(n)
  }

  /** strconv.ParseInt(s, 10, 64) and strconv.Atoi: None stands for a syntax or range error. */
  function ParseInt(s: string): (r: Option<int>)
    ensures r.Some? ==> IsInt64(r.value)
  {
    if s == "" then None else
    var signed := s[0] == '-' || s[0] == '+';
    var digits := if signed then s[1..] else s;
    if digits == "" || !AllDigits(digits) then None else
    var n: int := if s[0] == '-' then -(Value(digits) as int) else Value(digits);
    if IsInt64(n) then Some(n) else None
  }

  /** Every 64-bit number survives being printed and read. */
  lemma ParseFormat(n: int)
    requires IsInt64(n)
    ensures ParseInt(FormatInt(n)) == Some(n)
    ensures Trimmed(FormatInt(n)) && NoChar(FormatInt(n), '\n') && FormatInt(n) != ""
  {
    if n < 0 {
      assert FormatInt(n)[1..] == FormatNat(-n);
    }
  }

  // ----- telling names apart -----

  /** Length, first and last letter, in one number. */
  function Tag(s: string): int {
    if s == "" then 0 else |s| * 0x1_0000 + s[0] as int % 0x100 * 0x100 + s[|s| - 1] as int % 0x100
  }
}
