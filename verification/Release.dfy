/** GenerateRelease: the header, the four checksum tables, and what a reader gets back from them. */
module Release {
  import opened Text
  import opened Sorting

  datatype Checksum = Checksum(path: string, size: int, md5: string, sha1: string, sha256: string, sha512: string)

  datatype Sum = MD5 | SHA1 | SHA256 | SHA512

  function Hash(c: Checksum, sum: Sum): string {
    match sum
    case MD5 => c.md5
    case SHA1 => c.sha1
    case SHA256 => c.sha256
    case SHA512 => c.sha512
  }

  datatype Key =
    | Origin | Label | Suite | Codename | Date | ValidUntil | Architectures | Components | Description
    | Table(sum: Sum)

  function KeyName(k: Key): string {
    match k
    case Origin => "Origin"
    case Label => "Label"
    case Suite => "Suite"
    case Codename => "Codename"
    case Date => "Date"
    case ValidUntil => "Valid-Until"
    case Architectures => "Architectures"
    case Components => "Components"
    case Description => "Description"
    case Table(MD5) => "MD5Sum"
    case Table(SHA1) => "SHA1"
    case Table(SHA256) => "SHA256"
    case Table(SHA512) => "SHA512"
  }

  datatype Manifest = Manifest(
    origin: string, labelText: string, suite: string, codename: string, date: string, validUntil: string,
    architectures: seq<string>, components: seq<string>, description: string, indices: seq<Checksum>)

  // ----- sets of words -----

  /** words lists the non-empty members of input, each once, in strictly increasing order. */
  ghost predicate IsSortedSetOf(words: seq<string>, input: seq<string>) {
    && (forall i, j :: 0 <= i < j < |words| ==> Compare(words[i], words[j]) < 0)
    && (forall w :: w in words <==> w in input && w != "")
  }

  /** There is one such list, so the written line depends on the set of words only. */
  lemma {:induction false} SortedSetIsUnique(a: seq<string>, b: seq<string>, input: seq<string>)
    requires IsSortedSetOf(a, input) && IsSortedSetOf(b, input)
    ensures a == b
  {
    Prefixes(a, b, input, |a|);
    Prefixes(b, a, input, |b|);
  }

  lemma {:induction false} Prefixes(a: seq<string>, b: seq<string>, input: seq<string>, n: nat)
    requires IsSortedSetOf(a, input) && IsSortedSetOf(b, input) && n <= |a|
    ensures n <= |b| && forall k :: 0 <= k < n ==> a[k] == b[k]
  {
    if n > 0 {
      Prefixes(a, b, input, n - 1);
      SameNext(a, b, n - 1);
    }
  }

  lemma SameNext(a: seq<string>, b: seq<string>, i: nat)
    requires forall j, k :: 0 <= j < k < |a| ==> Compare(a[j], a[k]) < 0
    requires forall j, k :: 0 <= j < k < |b| ==> Compare(b[j], b[k]) < 0
    requires forall w :: w in a <==> w in b
    requires i < |a| && i <= |b| && forall k :: 0 <= k < i ==> a[k] == b[k]
    ensures i < |b| && a[i] == b[i]
  {
    assert a[i] in b;
    var j :| 0 <= j < |b| && b[j] == a[i];
    CompareLaws(a[i], a[i]);
    assert !(j < i);
    assert b[i] in a;
    var k :| 0 <= k < |a| && a[k] == b[i];
    CompareLaws(a[i], b[i]);
    CompareLaws(b[i], b[i]);
    assert !(k < i);
  }

  /** The position of the first x. */
  function First(s: seq<string>, x: string): (i: nat)
    requires x in s
    ensures i < |s| && s[i] == x && forall j :: 0 <= j < i ==> s[j] != x
  {
    if s[0] == x then 0 else 1 + First(s[1..], x)
  }

  /** The non-empty strings, each once, in order of first appearance. */
  method DedupeStrings(s: seq<string>) returns (res: seq<string>)
    ensures forall x :: x in res <==> x in s && x != ""
    ensures forall i, j :: 0 <= i < j < |res| ==> res[i] != res[j] && First(s, res[i]) < First(s, res[j])
  {
    var seen: set<string> := {};
    res := [];
    for n := 0 to |s|
      invariant forall x :: x in seen <==> x in res
      invariant forall x :: x in res <==> x in s[..n] && x != ""
      invariant forall x :: x in res ==> x in s
      invariant forall i :: 0 <= i < |res| ==> First(s, res[i]) < n
      invariant forall i, j :: 0 <= i < j < |res| ==> res[i] != res[j] && First(s, res[i]) < First(s, res[j])
    {
      var v := s[n];
      assert s[..n + 1] == s[..n] + [v];
      if v != "" && v !in seen {
        forall j | 0 <= j < n ensures s[j] != v { assert s[j] in s[..n]; }
        seen := seen + {v};
        res := res + [v];
      }
    }
    assert s[..|s|] == s;
  }

  lemma StringsAreLegal()
    ensures Legal(Compare)
  {
    forall a, b ensures Compare(a, b) <= 0 || Compare(b, a) <= 0 { CompareLaws(a, b); }
    forall a, b, c | Compare(a, b) <= 0 && Compare(b, c) <= 0 ensures Compare(a, c) <= 0 { CompareTransitive(a, b, c); }
  }

  method SortedWords(input: seq<string>) returns (words: seq<string>)
    ensures IsSortedSetOf(words, input)
  {
    var once := DedupeStrings(input);
    StringsAreLegal();
    words := SortFunc(once, Compare);
    SortedOnce(once, words);
  }

  lemma SortedOnce(once: seq<string>, words: seq<string>)
    requires multiset(words) == multiset(once) && SortedBy(words, Compare)
    requires forall i, j :: 0 <= i < j < |once| ==> once[i] != once[j]
    ensures forall w :: w in words <==> w in once
    ensures forall i, j :: 0 <= i < j < |words| ==> Compare(words[i], words[j]) < 0
  {
    PermutationIsDistinct(words, once);
    forall i, j | 0 <= i < j < |words| ensures Compare(words[i], words[j]) < 0 {
      CompareLaws(words[i], words[j]);
    }
  }

  // ----- the text -----

  /** A field and its value, in the order written. */
  datatype Entry = Entry(key: Key, value: string)

  function Words(words: seq<string>): string {
    if words == [] then "" else Join(words, ' ')
  }

  function Optional(key: Key, value: string): seq<Entry> {
    if value == "" then [] else [Entry(key, value)]
  }

  function WordsEntry(key: Key, given: seq<string>, words: seq<string>): seq<Entry> {
    if given == [] then [] else [Entry(key, Words(words))]
  }

  /** Right-aligned in sixteen columns. */
  function Padded(n: string): string
    decreases 16 - |n|
  {
    if |n| >= 16 then n else Padded(" " + n)
  }

  function TableLine(c: Checksum, sum: Sum): string {
    Hash(c, sum) + " " + Padded(FormatInt(c.size)) + " " + c.path
  }

  /** One line per index whose hash is known. */
  function TableLines(indices: seq<Checksum>, sum: Sum): seq<string> {
    if indices == [] then []
    else (if Hash(indices[0], sum) != "" then [TableLine(indices[0], sum)] else []) + TableLines(indices[1..], sum)
  }

  function Header(m: Manifest, date: string, archs: seq<string>, comps: seq<string>): seq<Entry> {
    Optional(Origin, m.origin) + Optional(Label, m.labelText) + Optional(Suite, m.suite)
    + [Entry(Codename, m.codename)] + [Entry(Date, date)]
    + Optional(ValidUntil, m.validUntil)
    + WordsEntry(Architectures, m.architectures, archs)
    + WordsEntry(Components, m.components, comps)
    + Optional(Description, m.description)
  }

  function HeaderLines(entries: seq<Entry>): seq<string> {
    if entries == [] then [] else [KeyName(entries[0].key) + ": " + entries[0].value] + HeaderLines(entries[1..])
  }

  function Indented(lines: seq<string>): (r: seq<string>)
    ensures |r| == |lines|
  {
    seq(|lines|, i requires 0 <= i < |lines| => " " + lines[i])
  }

  function TableText(indices: seq<Checksum>, sum: Sum): seq<string> {
    [KeyName(Table(sum)) + ":"] + Indented(TableLines(indices, sum))
  }

  function TablesLines(indices: seq<Checksum>): seq<string> {
    TableText(indices, MD5) + TableText(indices, SHA1) + TableText(indices, SHA256) + TableText(indices, SHA512)
  }

  function ReleaseLines(m: Manifest, date: string, archs: seq<string>, comps: seq<string>,
                        indices: seq<Checksum>): seq<string> {
    HeaderLines(Header(m, date, archs, comps)) + TablesLines(indices)
  }

  function ComparePaths(a: Checksum, b: Checksum): int {
    Compare(a.path, b.path)
  }

  ghost predicate SortedIndices(sorted: seq<Checksum>, indices: seq<Checksum>) {
    multiset(sorted) == multiset(indices) && SortedBy(sorted, ComparePaths)
  }

  /** text is what GenerateRelease may write for m at the given time. */
  ghost predicate IsRelease(m: Manifest, now: string, sorted: seq<Checksum>, text: string) {
    exists archs, comps ::
      && IsSortedSetOf(archs, m.architectures) && IsSortedSetOf(comps, m.components)
      && SortedIndices(sorted, m.indices)
      && text == Unlines(ReleaseLines(m, if m.date == "" then now else m.date, archs, comps, sorted))
  }

  // ----- GenerateRelease -----

  lemma PathsAreLegal()
    ensures Legal(ComparePaths)
  {
    forall a, b ensures ComparePaths(a, b) <= 0 || ComparePaths(b, a) <= 0 { CompareLaws(a.path, b.path); }
    forall a, b, c | ComparePaths(a, b) <= 0 && ComparePaths(b, c) <= 0 ensures ComparePaths(a, c) <= 0 {
      CompareTransitive(a.path, b.path, c.path);
    }
  }

  class Buffer {
    var text: string
    ghost var lines: seq<string>

    ghost predicate Valid()
      reads this
    {
      text == Unlines(lines)
    }

    constructor ()
      ensures Valid() && lines == []
    {
      text := "";
      lines := [];
    }

    method Line(line: string)
      requires Valid()
      modifies this
      ensures Valid() && lines == old(lines) + [line]
    {
      UnlinesAppend(lines, [line]);
      assert Unlines([line]) == line + "\n" + Unlines([]);
      text := text + line + "\n";
      Associates(old(text), line, "\n");
      lines := lines + [line];
    }

    /** done: the header fields written so far. */
    method Field(key: Key, value: string, ghost done: seq<Entry>)
      requires Valid() && lines == HeaderLines(done)
      modifies this
      ensures Valid() && lines == HeaderLines(done + [Entry(key, value)])
    {
      HeaderSnoc(done, Entry(key, value));
      Line(KeyName(key) + ": " + value);
    }

    method OptionalField(key: Key, value: string, ghost done: seq<Entry>)
      requires Valid() && lines == HeaderLines(done)
      modifies this
      ensures Valid() && lines == HeaderLines(done + Optional(key, value))
    {
      if value != "" { Field(key, value, done); } else { assert done + [] == done; }
    }

    method WriteTable(indices: seq<Checksum>, sum: Sum)
      requires Valid()
      modifies this
      ensures Valid() && lines == old(lines) + TableText(indices, sum)
    {
      Line(KeyName(Table(sum)) + ":");
      ghost var start := lines;
      assert indices[0..] == indices;
      for i := 0 to |indices|
        invariant Valid()
        invariant lines + Indented(TableLines(indices[i..], sum)) == start + Indented(TableLines(indices, sum))
      {
        TableStep(indices, i, sum);
        LinesAssoc(lines, " " + TableLine(indices[i], sum), Indented(TableLines(indices[i + 1..], sum)));
        if Hash(indices[i], sum) != "" {
          Line(" " + TableLine(indices[i], sum));
        }
      }
      assert TableLines(indices[|indices|..], sum) == [];
      assert lines + [] == lines;
      LinesAssoc(old(lines), KeyName(Table(sum)) + ":", Indented(TableLines(indices, sum)));
    }
  }

  lemma LinesAssoc(a: seq<string>, x: string, b: seq<string>)
    ensures a + ([x] + b) == a + [x] + b
  {
  }

  lemma IndentedCons(line: string, lines: seq<string>)
    ensures Indented([line] + lines) == [" " + line] + Indented(lines)
  {
  }

  lemma TableRest(indices: seq<Checksum>, i: nat, sum: Sum)
    requires i < |indices|
    ensures TableLines(indices[i..], sum)
         == if Hash(indices[i], sum) == "" then TableLines(indices[i + 1..], sum)
            else [TableLine(indices[i], sum)] + TableLines(indices[i + 1..], sum)
  {
    assert indices[i..][1..] == indices[i + 1..];
    assert [] + TableLines(indices[i + 1..], sum) == TableLines(indices[i + 1..], sum);
  }

  lemma TableStep(indices: seq<Checksum>, i: nat, sum: Sum)
    requires i < |indices|
    ensures Indented(TableLines(indices[i..], sum))
         == if Hash(indices[i], sum) == "" then Indented(TableLines(indices[i + 1..], sum))
            else [" " + TableLine(indices[i], sum)] + Indented(TableLines(indices[i + 1..], sum))
  {
    TableRest(indices, i, sum);
    IndentedCons(TableLine(indices[i], sum), TableLines(indices[i + 1..], sum));
  }

  lemma {:induction false} HeaderSnoc(entries: seq<Entry>, e: Entry)
    ensures HeaderLines(entries + [e]) == HeaderLines(entries) + [KeyName(e.key) + ": " + e.value]
  {
    if entries == [] {
      assert HeaderLines([e]) == [KeyName(e.key) + ": " + e.value] + HeaderLines([]);
    } else {
      assert (entries + [e])[1..] == entries[1..] + [e];
      HeaderSnoc(entries[1..], e);
    }
  }

  /** The indices come back sorted by path, as the caller's slice is. */
  method GenerateRelease(m: Manifest, now: string) returns (text: string, sorted: seq<Checksum>)
    ensures IsRelease(m, now, sorted, text)
  {
    var buf := new Buffer();
    ghost var archs, comps := WriteHeader(buf, m, now);
    PathsAreLegal();
    sorted := SortFunc(m.indices, ComparePaths);
    buf.WriteTable(sorted, MD5);
    buf.WriteTable(sorted, SHA1);
    buf.WriteTable(sorted, SHA256);
    buf.WriteTable(sorted, SHA512);
    text := buf.text;
    ghost var date := if m.date == "" then now else m.date;
    FourTables(HeaderLines(Header(m, date, archs, comps)), TableText(sorted, MD5), TableText(sorted, SHA1),
               TableText(sorted, SHA256), TableText(sorted, SHA512));
    assert buf.lines == ReleaseLines(m, date, archs, comps, sorted);
  }

  lemma FourTables(h: seq<string>, a: seq<string>, b: seq<string>, c: seq<string>, d: seq<string>)
    ensures h + a + b + c + d == h + (a + b + c + d)
  {
  }

  method WriteWords(buf: Buffer, key: Key, given: seq<string>, words: seq<string>, ghost done: seq<Entry>)
    requires buf.Valid() && buf.lines == HeaderLines(done)
    modifies buf
    ensures buf.Valid() && buf.lines == HeaderLines(done + WordsEntry(key, given, words))
  {
    if |given| > 0 { buf.Field(key, Words(words), done); } else { assert done + [] == done; }
  }

  method WriteHeader(buf: Buffer, m: Manifest, now: string) returns (archs: seq<string>, comps: seq<string>)
    requires buf.Valid() && buf.lines == []
    modifies buf
    ensures buf.Valid() && IsSortedSetOf(archs, m.architectures) && IsSortedSetOf(comps, m.components)
    ensures buf.lines == HeaderLines(Header(m, if m.date == "" then now else m.date, archs, comps))
  {
    archs := SortedWords(m.architectures);
    comps := SortedWords(m.components);
    buf.OptionalField(Origin, m.origin, []);
    ghost var done := Optional(Origin, m.origin);
    assert [] + done == done;
    buf.OptionalField(Label, m.labelText, done);
    done := done + Optional(Label, m.labelText);
    buf.OptionalField(Suite, m.suite, done);
    done := done + Optional(Suite, m.suite);
    buf.Field(Codename, m.codename, done);
    done := done + [Entry(Codename, m.codename)];
    var date := m.date;
    if date == "" { date := now; }
    buf.Field(Date, date, done);
    done := done + [Entry(Date, date)];
    buf.OptionalField(ValidUntil, m.validUntil, done);
    done := done + Optional(ValidUntil, m.validUntil);
    WriteWords(buf, Architectures, m.architectures, archs, done);
    done := done + WordsEntry(Architectures, m.architectures, archs);
    WriteWords(buf, Components, m.components, comps, done);
    done := done + WordsEntry(Components, m.components, comps);
    buf.OptionalField(Description, m.description, done);
  }
}
