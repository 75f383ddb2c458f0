/** What a reader gets back from a written Release: one paragraph holding exactly the header
    values and, in every table, one line per index in the order of the paths. */
module ReleaseReading {
  import opened Text
  import opened Deb822
  import opened Deb822RoundTrip
  import opened Deb822Canonical
  import opened IndexRoundTrip
  import opened Release
  import W = Words

  // ----- names -----

  function KeyTag(k: Key): int {
    match k
    case Origin => 0x6_4f6e           case Label => 0x5_4c6c
    case Suite => 0x5_5365            case Codename => 0x8_4365
    case Date => 0x4_4465             case ValidUntil => 0xb_566c
    case Architectures => 0xd_4173    case Components => 0xa_4373
    case Description => 0xb_446e
    case Table(MD5) => 0x6_4d6d       case Table(SHA1) => 0x4_5331
    case Table(SHA256) => 0x6_5336    case Table(SHA512) => 0x6_5332
  }

  lemma KeyNameTag(k: Key)
    ensures Tag(KeyName(k)) == KeyTag(k)
  {
  }

  lemma KeysDiffer(a: Key, b: Key)
    requires KeyName(a) == KeyName(b)
    ensures a == b
  {
    KeyNameTag(a);
    KeyNameTag(b);
  }

  lemma KeyIsPlain(k: Key)
    ensures PlainKey(KeyName(k))
  {
    assert NameChars(KeyName(k));
  }

  // ----- entries as printed fields -----

  function EntriesLines(entries: seq<Entry>): seq<string> {
    if entries == [] then []
    else FieldLines(KeyName(entries[0].key), entries[0].value) + EntriesLines(entries[1..])
  }

  function SetEntries(p: Para, entries: seq<Entry>): Para
    decreases |entries|
  {
    if entries == [] then p
    else SetEntries(SetField(p, KeyName(entries[0].key), ReadBack(entries[0].value)), entries[1..])
  }

  predicate AllBreakless(entries: seq<Entry>) {
    forall i :: 0 <= i < |entries| ==> Breakless(entries[i].value)
  }

  lemma {:induction false} RunEntries(st: State, entries: seq<Entry>)
    requires AllBreakless(entries) && Clean(st)
    ensures var r := Run(st, DropCRs(EntriesLines(entries)));
            Clean(r) && Flush(r) == State(st.done, SetEntries(Flush(st).current, entries), "", "")
    decreases |entries|
  {
    if entries != [] {
      var e, rest := entries[0], entries[1..];
      var a, b := FieldLines(KeyName(e.key), e.value), EntriesLines(rest);
      DropCRsAppend(a, b);
      RunAppend(st, DropCRs(a), DropCRs(b));
      KeyIsPlain(e.key);
      RunField(st, KeyName(e.key), e.value);
      RunEntries(Run(st, DropCRs(a)), rest);
    }
  }

  lemma {:induction false} EntriesAreLines(entries: seq<Entry>)
    ensures AllLines(EntriesLines(entries))
  {
    if entries != [] {
      KeyIsPlain(entries[0].key);
      FieldLinesAreLines(KeyName(entries[0].key), entries[0].value);
      EntriesAreLines(entries[1..]);
    }
  }

  lemma {:induction false} SetEntriesOrder(p: Para, entries: seq<Entry>)
    requires p.order != [] || (p.fields == map[] && entries != [])
    ensures SetEntries(p, entries).order != []
    decreases |entries|
  {
    if entries != [] {
      SetEntriesOrder(SetField(p, KeyName(entries[0].key), ReadBack(entries[0].value)), entries[1..]);
    }
  }

  lemma EntriesReadBack(entries: seq<Entry>)
    requires AllBreakless(entries) && entries != []
    ensures ParseText(Unlines(EntriesLines(entries))) == [SetEntries(EMPTY, entries)]
  {
    EntriesAreLines(entries);
    ScanUnlines(EntriesLines(entries));
    RunEntries(START, entries);
    SetEntriesOrder(EMPTY, entries);
  }

  lemma {:induction false} SetEntriesOther(p: Para, entries: seq<Entry>, k: Key)
    requires forall e :: e in entries ==> e.key != k
    ensures var r := SetEntries(p, entries);
      (KeyName(k) in r.fields <==> KeyName(k) in p.fields)
      && (KeyName(k) in p.fields ==> r.fields[KeyName(k)] == p.fields[KeyName(k)])
    decreases |entries|
  {
    if entries != [] {
      var e := entries[0];
      if KeyName(e.key) == KeyName(k) { KeysDiffer(e.key, k); }
      SetEntriesOther(SetField(p, KeyName(e.key), ReadBack(e.value)), entries[1..], k);
    }
  }

  /** A field whose entries all agree has their value. */
  lemma {:induction false} SetEntriesValue(p: Para, entries: seq<Entry>, e: Entry)
    requires e in entries && forall x :: x in entries && x.key == e.key ==> x.value == e.value
    ensures var r := SetEntries(p, entries);
      KeyName(e.key) in r.fields && r.fields[KeyName(e.key)] == ReadBack(e.value)
    decreases |entries|
  {
    var first, rest := entries[0], entries[1..];
    var q := SetField(p, KeyName(first.key), ReadBack(first.value));
    assert entries == [first] + rest;
    if exists x :: x in rest && x.key == e.key {
      var x :| x in rest && x.key == e.key;
      assert x in entries && x == e;
      SetEntriesValue(q, rest, e);
    } else {
      SetEntriesOther(q, rest, e.key);
    }
  }

  // ----- the manifest as entries -----

  predicate PlainChecksum(c: Checksum) {
    && (forall sum :: IsHex(Hash(c, sum)))
    && W.IsWord(c.path) && c.path != ""
  }

  /** What a publish passes: texts of one line, words, and at least two indices with all hashes. */
  predicate PlainManifest(m: Manifest, now: string) {
    && OneLine(m.origin) && OneLine(m.labelText) && OneLine(m.suite) && OneLine(m.codename)
    && OneLine(m.date) && OneLine(now) && OneLine(m.validUntil) && OneLine(m.description)
    && (forall w :: w in m.architectures ==> W.IsWord(w)) && (forall w :: w in m.components ==> W.IsWord(w))
    && |m.indices| >= 2 && (forall c :: c in m.indices ==> PlainChecksum(c))
  }

  function JoinLines(lines: seq<string>): string {
    if lines == [] then "" else Join(lines, '\n')
  }

  function TableEntry(indices: seq<Checksum>, sum: Sum): Entry {
    Entry(Table(sum), JoinLines(TableLines(indices, sum)))
  }

  function Tables(indices: seq<Checksum>): seq<Entry> {
    [TableEntry(indices, MD5), TableEntry(indices, SHA1), TableEntry(indices, SHA256), TableEntry(indices, SHA512)]
  }

  lemma {:induction false} FullTable(indices: seq<Checksum>, sum: Sum)
    requires forall c :: c in indices ==> Hash(c, sum) != ""
    ensures |TableLines(indices, sum)| == |indices|
    ensures forall i :: 0 <= i < |indices| ==> TableLines(indices, sum)[i] == TableLine(indices[i], sum)
  {
    if indices != [] {
      assert indices == [indices[0]] + indices[1..];
      FullTable(indices[1..], sum);
      FirstRow(indices, sum);
      RowsAt(indices[0], indices[1..], TableLines(indices[1..], sum), sum);
    }
  }

  lemma FirstRow(indices: seq<Checksum>, sum: Sum)
    requires indices != [] && Hash(indices[0], sum) != ""
    ensures TableLines(indices, sum) == [TableLine(indices[0], sum)] + TableLines(indices[1..], sum)
  {
  }

  lemma RowsAt(c: Checksum, rest: seq<Checksum>, others: seq<string>, sum: Sum)
    requires |others| == |rest| && forall i :: 0 <= i < |rest| ==> others[i] == TableLine(rest[i], sum)
    ensures var lines, indices := [TableLine(c, sum)] + others, [c] + rest;
      |lines| == |indices| && forall i :: 0 <= i < |indices| ==> lines[i] == TableLine(indices[i], sum)
  {
    var lines, indices := [TableLine(c, sum)] + others, [c] + rest;
    forall i | 0 <= i < |indices| ensures lines[i] == TableLine(indices[i], sum) {
      if i > 0 { assert lines[i] == others[i - 1] && indices[i] == rest[i - 1]; }
    }
  }

  lemma {:induction false} PaddedShape(n: string)
    requires NoChar(n, '\n')
    ensures NoChar(Padded(n), '\n')
    decreases 16 - |n|
  {
    if |n| < 16 { PaddedShape(" " + n); }
  }

  lemma NumberIsLine(n: int)
    ensures NoChar(FormatInt(n), '\n')
  {
  }

  lemma LineIsCanonical(c: Checksum, sum: Sum)
    requires PlainChecksum(c)
    ensures CanonicalPiece(TableLine(c, sum)) && NoChar(TableLine(c, sum), '\n')
  {
    var h := Hash(c, sum);
    var line := TableLine(c, sum);
    assert IsHex(h);
    NumberIsLine(c.size);
    PaddedShape(FormatInt(c.size));
    assert line == h + (" " + Padded(FormatInt(c.size)) + " ") + c.path;
    assert line[0] == h[0] && line[|line| - 1] == c.path[|c.path| - 1];
    StartsSolid(line);
  }

  lemma {:induction false} CanonicalPieces(open: bool, pieces: seq<string>)
    requires forall i :: 0 <= i < |pieces| ==> CanonicalPiece(pieces[i])
    ensures CanonicalFrom(open, pieces)
    decreases |pieces|
  {
    if pieces != [] { CanonicalPieces(true, pieces[1..]); }
  }

  /** A table of two lines or more is printed as a multi-line field. */
  lemma TableIsField(indices: seq<Checksum>, sum: Sum)
    requires |indices| >= 2 && forall c :: c in indices ==> PlainChecksum(c)
    ensures var e := TableEntry(indices, sum);
      && CanonicalValue(e.value) && Split(e.value, '\n') == TableLines(indices, sum)
      && TableText(indices, sum) == FieldLines(KeyName(e.key), e.value)
  {
    var lines := TableLines(indices, sum);
    FullTable(indices, sum);
    forall i | 0 <= i < |lines| ensures CanonicalPiece(lines[i]) && NoChar(lines[i], '\n') {
      LineIsCanonical(indices[i], sum);
    }
    SplitJoin(lines, '\n');
    CanonicalPieces(false, lines);
    assert Indented(lines) == PieceLines(lines);
  }

  // ----- the header -----

  predicate OneLines(entries: seq<Entry>) {
    forall e :: e in entries ==> OneLine(e.value)
  }

  lemma {:induction false} HeaderIsFields(entries: seq<Entry>)
    requires OneLines(entries)
    ensures HeaderLines(entries) == EntriesLines(entries)
  {
    if entries != [] {
      var e, rest := entries[0], entries[1..];
      assert entries == [e] + rest;
      SplitNone(e.value, '\n');
      HeaderIsFields(rest);
    }
  }

  lemma {:induction false} WordsAreOneLine(words: seq<string>)
    requires forall i :: 0 <= i < |words| ==> words[i] != "" && W.IsWord(words[i])
    ensures OneLine(Words(words)) && (words != [] ==> Words(words) != "" && Split(Words(words), ' ') == words)
  {
    if words != [] {
      SplitJoin(words, ' ');
      JoinOneLine(words);
    }
  }

  lemma {:induction false} JoinOneLine(words: seq<string>)
    requires words != [] && forall i :: 0 <= i < |words| ==> words[i] != "" && W.IsWord(words[i])
    ensures Join(words, ' ') != "" && OneLine(Join(words, ' '))
  {
    if |words| > 1 {
      JoinOneLine(words[1..]);
      var rest := Join(words[1..], ' ');
      assert Join(words, ' ') == words[0] + [' '] + rest;
    }
  }

  lemma SortedWordsAreOneLine(given: seq<string>, words: seq<string>)
    requires IsSortedSetOf(words, given) && forall w :: w in given ==> W.IsWord(w)
    ensures OneLine(Words(words)) && (words != [] ==> Split(Words(words), ' ') == words)
  {
    forall i | 0 <= i < |words| ensures words[i] != "" && W.IsWord(words[i]) { assert words[i] in words; }
    WordsAreOneLine(words);
  }

  /** The value written for a key, if it is written. */
  function ValueFor(m: Manifest, date: string, archs: seq<string>, comps: seq<string>, k: Key): string {
    match k
    case Origin => m.origin
    case Label => m.labelText
    case Suite => m.suite
    case Codename => m.codename
    case Date => date
    case ValidUntil => m.validUntil
    case Architectures => Words(archs)
    case Components => Words(comps)
    case Description => m.description
    case Table(_) => ""
  }

  /** Which keys are written: two always, the others when they are given. */
  predicate Written(m: Manifest, k: Key) {
    match k
    case Origin => m.origin != ""
    case Label => m.labelText != ""
    case Suite => m.suite != ""
    case ValidUntil => m.validUntil != ""
    case Architectures => m.architectures != []
    case Components => m.components != []
    case Description => m.description != ""
    case Table(_) => false
    case _ => true
  }

  lemma HeaderMember(m: Manifest, date: string, archs: seq<string>, comps: seq<string>, e: Entry)
    ensures e in Header(m, date, archs, comps)
       <==> Written(m, e.key) && e.value == ValueFor(m, date, archs, comps, e.key)
  {
    var front := Optional(Origin, m.origin) + Optional(Label, m.labelText) + Optional(Suite, m.suite);
    var middle := [Entry(Codename, m.codename)] + [Entry(Date, date)] + Optional(ValidUntil, m.validUntil);
    var back := WordsEntry(Architectures, m.architectures, archs) + WordsEntry(Components, m.components, comps)
      + Optional(Description, m.description);
    assert Header(m, date, archs, comps) == front + middle + back;
    assert e in front <==> e.key in {Origin, Label, Suite} && Written(m, e.key)
                           && e.value == ValueFor(m, date, archs, comps, e.key);
    assert e in middle <==> e.key in {Codename, Date, ValidUntil} && Written(m, e.key)
                            && e.value == ValueFor(m, date, archs, comps, e.key);
    assert e in back <==> e.key in {Architectures, Components, Description} && Written(m, e.key)
                          && e.value == ValueFor(m, date, archs, comps, e.key);
  }

  lemma HeaderValues(m: Manifest, date: string, archs: seq<string>, comps: seq<string>)
    ensures forall e :: e in Header(m, date, archs, comps) ==>
      !e.key.Table? && e.value == ValueFor(m, date, archs, comps, e.key)
    ensures Entry(Codename, m.codename) in Header(m, date, archs, comps)
  {
    forall e | e in Header(m, date, archs, comps)
      ensures !e.key.Table? && e.value == ValueFor(m, date, archs, comps, e.key)
    {
      HeaderMember(m, date, archs, comps, e);
    }
    HeaderMember(m, date, archs, comps, Entry(Codename, m.codename));
  }

  lemma HeaderIsOneLines(m: Manifest, now: string, archs: seq<string>, comps: seq<string>)
    requires PlainManifest(m, now) && IsSortedSetOf(archs, m.architectures) && IsSortedSetOf(comps, m.components)
    ensures OneLines(Header(m, if m.date == "" then now else m.date, archs, comps))
  {
    var date := if m.date == "" then now else m.date;
    HeaderValues(m, date, archs, comps);
    forall e | e in Header(m, date, archs, comps) ensures OneLine(e.value) {
      ValueIsOneLine(m, now, archs, comps, e.key);
    }
  }

  lemma ValueIsOneLine(m: Manifest, now: string, archs: seq<string>, comps: seq<string>, k: Key)
    requires PlainManifest(m, now) && IsSortedSetOf(archs, m.architectures) && IsSortedSetOf(comps, m.components)
    ensures OneLine(ValueFor(m, if m.date == "" then now else m.date, archs, comps, k))
  {
    match k
    case Architectures => SortedWordsAreOneLine(m.architectures, archs);
    case Components => SortedWordsAreOneLine(m.components, comps);
    case _ =>
  }

  // ----- reading a manifest -----

  lemma {:induction false} EntriesAppend(a: seq<Entry>, b: seq<Entry>)
    ensures EntriesLines(a + b) == EntriesLines(a) + EntriesLines(b)
  {
    if a == [] {
      assert a + b == b;
    } else {
      assert (a + b)[1..] == a[1..] + b;
      EntriesAppend(a[1..], b);
    }
  }

  lemma TablesAreFields(indices: seq<Checksum>)
    requires |indices| >= 2 && forall c :: c in indices ==> PlainChecksum(c)
    ensures TablesLines(indices) == EntriesLines(Tables(indices))
  {
    TableIsField(indices, MD5);
    TableIsField(indices, SHA1);
    TableIsField(indices, SHA256);
    TableIsField(indices, SHA512);
    FourFields(TableEntry(indices, MD5), TableEntry(indices, SHA1), TableEntry(indices, SHA256),
               TableEntry(indices, SHA512));
  }

  function EntryLines(e: Entry): seq<string> {
    FieldLines(KeyName(e.key), e.value)
  }

  lemma OneField(e: Entry)
    ensures EntriesLines([e]) == EntryLines(e)
  {
    assert EntriesLines([e]) == EntryLines(e) + EntriesLines([]);
  }

  lemma FourFields(a: Entry, b: Entry, c: Entry, d: Entry)
    ensures EntriesLines([a, b, c, d]) == EntryLines(a) + EntryLines(b) + EntryLines(c) + EntryLines(d)
  {
    assert [a, b, c, d] == [a] + [b] + [c] + [d];
    EntriesAppend([a] + [b] + [c], [d]);
    EntriesAppend([a] + [b], [c]);
    EntriesAppend([a], [b]);
    OneField(a); OneField(b); OneField(c); OneField(d);
  }

  /** All fields of the manifest, as one list of entries. */
  function AllEntries(m: Manifest, date: string, archs: seq<string>, comps: seq<string>,
                      indices: seq<Checksum>): seq<Entry>
  {
    Header(m, date, archs, comps) + Tables(indices)
  }

  lemma ReleaseIsEntries(m: Manifest, now: string, archs: seq<string>, comps: seq<string>, indices: seq<Checksum>)
    requires PlainManifest(m, now) && IsSortedSetOf(archs, m.architectures) && IsSortedSetOf(comps, m.components)
    requires |indices| >= 2 && forall c :: c in indices ==> PlainChecksum(c)
    ensures var date := if m.date == "" then now else m.date;
      ReleaseLines(m, date, archs, comps, indices) == EntriesLines(AllEntries(m, date, archs, comps, indices))
  {
    var date := if m.date == "" then now else m.date;
    HeaderIsOneLines(m, now, archs, comps);
    HeaderIsFields(Header(m, date, archs, comps));
    TablesAreFields(indices);
    EntriesAppend(Header(m, date, archs, comps), Tables(indices));
  }

  /** Every entry is canonical, and no two entries of one key differ. */
  predicate GoodEntries(entries: seq<Entry>) {
    && (forall e :: e in entries ==> CanonicalValue(e.value))
    && (forall e, x :: e in entries && x in entries && x.key == e.key ==> x.value == e.value)
  }

  lemma OneLineIsCanonical(s: string)
    requires OneLine(s)
    ensures CanonicalValue(s)
  {
    SplitNone(s, '\n');
  }

  lemma AllEntriesAreGood(m: Manifest, now: string, archs: seq<string>, comps: seq<string>, indices: seq<Checksum>)
    requires PlainManifest(m, now) && IsSortedSetOf(archs, m.architectures) && IsSortedSetOf(comps, m.components)
    requires |indices| >= 2 && forall c :: c in indices ==> PlainChecksum(c)
    ensures GoodEntries(AllEntries(m, if m.date == "" then now else m.date, archs, comps, indices))
  {
    var date := if m.date == "" then now else m.date;
    HeaderIsOneLines(m, now, archs, comps);
    HeaderValues(m, date, archs, comps);
    forall e | e in Header(m, date, archs, comps) ensures CanonicalValue(e.value) { OneLineIsCanonical(e.value); }
    TablesAreGood(indices);
    GoodConcat(Header(m, date, archs, comps), Tables(indices), k => ValueFor(m, date, archs, comps, k),
               sum => TableEntry(indices, sum).value);
  }

  lemma TablesAreGood(indices: seq<Checksum>)
    requires |indices| >= 2 && forall c :: c in indices ==> PlainChecksum(c)
    ensures forall e :: e in Tables(indices) ==>
      e.key.Table? && e.value == TableEntry(indices, e.key.sum).value && CanonicalValue(e.value)
  {
    forall e | e in Tables(indices)
      ensures e.key.Table? && e.value == TableEntry(indices, e.key.sum).value && CanonicalValue(e.value)
    {
      TableMember(indices, e);
      TableIsField(indices, e.key.sum);
    }
  }

  lemma TableMember(indices: seq<Checksum>, e: Entry)
    ensures e in Tables(indices) <==> e.key.Table? && e == TableEntry(indices, e.key.sum)
  {
    var a, b, c, d := TableEntry(indices, MD5), TableEntry(indices, SHA1), TableEntry(indices, SHA256),
      TableEntry(indices, SHA512);
    assert Tables(indices) == [a, b, c, d];
    assert e in [a, b, c, d] <==> e == a || e == b || e == c || e == d;
    if e.key.Table? {
      match e.key.sum
      case MD5 => case SHA1 => case SHA256 => case SHA512 =>
    }
  }

  lemma GoodConcat(header: seq<Entry>, tables: seq<Entry>, inHeader: Key -> string, inTables: Sum -> string)
    requires forall e :: e in header ==> !e.key.Table? && e.value == inHeader(e.key) && CanonicalValue(e.value)
    requires forall e :: e in tables ==> e.key.Table? && e.value == inTables(e.key.sum) && CanonicalValue(e.value)
    ensures GoodEntries(header + tables)
  {
  }

  /** Good entries are read back exactly. */
  lemma GoodEntriesComeBack(entries: seq<Entry>, text: string) returns (p: Para)
    requires GoodEntries(entries) && entries != [] && text == Unlines(EntriesLines(entries))
    ensures ParseText(text) == [p] && forall e :: e in entries ==> HasField(p, e.key, e.value)
    ensures forall k :: KeyName(k) in p.fields ==> HasKey(entries, k)
    ensures DistinctKeys(entries) ==> p.order == EntryNames(entries)
  {
    p := SetEntries(EMPTY, entries);
    forall i | 0 <= i < |entries| ensures Breakless(entries[i].value) {
      assert entries[i] in entries;
      CanonicalIsBreakless(entries[i].value);
    }
    EntriesReadBack(entries);
    forall e | e in entries
      ensures HasField(p, e.key, e.value)
    {
      SetEntriesValue(EMPTY, entries, e);
      CanonicalIsBreakless(e.value);
      ValueRoundTrip(e.value);
    }
    forall k | KeyName(k) in p.fields ensures HasKey(entries, k) {
      if !HasKey(entries, k) { SetEntriesOther(EMPTY, entries, k); }
    }
    if DistinctKeys(entries) {
      SetEntriesNames(EMPTY, entries);
      assert [] + EntryNames(entries) == EntryNames(entries);
    }
  }

  // ----- the order of the fields -----

  predicate DistinctKeys(entries: seq<Entry>) {
    forall i, j :: 0 <= i < j < |entries| ==> entries[i].key != entries[j].key
  }

  function EntryNames(entries: seq<Entry>): seq<string> {
    if entries == [] then [] else [KeyName(entries[0].key)] + EntryNames(entries[1..])
  }

  lemma NamesAssoc(a: seq<string>, x: string, b: seq<string>)
    ensures a + [x] + b == a + ([x] + b)
  {
  }

  lemma {:induction false} SetEntriesNames(p: Para, entries: seq<Entry>)
    requires DistinctKeys(entries)
    requires forall i :: 0 <= i < |entries| ==> KeyName(entries[i].key) !in p.fields
    ensures SetEntries(p, entries).order == p.order + EntryNames(entries)
    decreases |entries|
  {
    if entries == [] {
      assert p.order + [] == p.order;
    } else {
      var e, rest := entries[0], entries[1..];
      var q := SetField(p, KeyName(e.key), ReadBack(e.value));
      forall i | 0 <= i < |rest| ensures KeyName(rest[i].key) !in q.fields {
        assert rest[i] == entries[i + 1];
        if KeyName(rest[i].key) == KeyName(e.key) { KeysDiffer(rest[i].key, e.key); }
      }
      SetEntriesNames(q, rest);
      NamesAssoc(p.order, KeyName(e.key), EntryNames(rest));
    }
  }

  /** The rank of a key in the file. */
  function Rank(k: Key): nat {
    match k
    case Origin => 0 case Label => 1 case Suite => 2 case Codename => 3 case Date => 4 case ValidUntil => 5
    case Architectures => 6 case Components => 7 case Description => 8
    case Table(MD5) => 9 case Table(SHA1) => 10 case Table(SHA256) => 11 case Table(SHA512) => 12
  }

  predicate Ranked(entries: seq<Entry>, low: nat, high: nat) {
    && (forall i :: 0 <= i < |entries| ==> low <= Rank(entries[i].key) < high)
    && (forall i, j :: 0 <= i < j < |entries| ==> Rank(entries[i].key) < Rank(entries[j].key))
  }

  lemma RankedConcat(a: seq<Entry>, b: seq<Entry>, low: nat, mid: nat, high: nat)
    requires Ranked(a, low, mid) && Ranked(b, mid, high) && low <= mid <= high
    ensures Ranked(a + b, low, high)
  {
  }

  lemma HeaderIsRanked(m: Manifest, date: string, archs: seq<string>, comps: seq<string>)
    ensures Ranked(Header(m, date, archs, comps), 0, 9)
  {
    var a, b, c := Optional(Origin, m.origin), Optional(Label, m.labelText), Optional(Suite, m.suite);
    var d, e, f := [Entry(Codename, m.codename)], [Entry(Date, date)], Optional(ValidUntil, m.validUntil);
    var g, h, i := WordsEntry(Architectures, m.architectures, archs), WordsEntry(Components, m.components, comps),
      Optional(Description, m.description);
    RankedConcat(a, b, 0, 1, 2);
    RankedConcat(a + b, c, 0, 2, 3);
    RankedConcat(a + b + c, d, 0, 3, 4);
    RankedConcat(a + b + c + d, e, 0, 4, 5);
    RankedConcat(a + b + c + d + e, f, 0, 5, 6);
    RankedConcat(a + b + c + d + e + f, g, 0, 6, 7);
    RankedConcat(a + b + c + d + e + f + g, h, 0, 7, 8);
    RankedConcat(a + b + c + d + e + f + g + h, i, 0, 8, 9);
  }

  lemma AllAreRanked(m: Manifest, date: string, archs: seq<string>, comps: seq<string>, indices: seq<Checksum>)
    ensures Ranked(AllEntries(m, date, archs, comps, indices), 0, 13)
    ensures DistinctKeys(AllEntries(m, date, archs, comps, indices))
  {
    HeaderIsRanked(m, date, archs, comps);
    RankedConcat(Header(m, date, archs, comps), Tables(indices), 0, 9, 13);
    RankedIsDistinct(AllEntries(m, date, archs, comps, indices), 0, 13);
  }

  lemma RankedIsDistinct(entries: seq<Entry>, low: nat, high: nat)
    requires Ranked(entries, low, high)
    ensures DistinctKeys(entries)
  {
  }

  /** The names of the fields, in the order in which they are written. */
  const ORDER: seq<string> := [
    "Origin", "Label", "Suite", "Codename", "Date", "Valid-Until", "Architectures", "Components", "Description",
    "MD5Sum", "SHA1", "SHA256", "SHA512"]

  /** The fields come in this order. */
  predicate InFileOrder(p: Para) {
    forall i, j :: 0 <= i < j < |p.order| ==> Earlier(p.order[i], p.order[j])
  }

  predicate Earlier(a: string, b: string) {
    exists x, y :: 0 <= x < y < |ORDER| && ORDER[x] == a && ORDER[y] == b
  }

  lemma RankIsPlace(k: Key)
    ensures Rank(k) < |ORDER| && ORDER[Rank(k)] == KeyName(k)
  {
  }

  lemma {:induction false} EntryNameAt(entries: seq<Entry>, i: nat)
    requires i < |entries|
    ensures |EntryNames(entries)| == |entries| && EntryNames(entries)[i] == KeyName(entries[i].key)
  {
    if |entries| > 1 { EntryNameAt(entries[1..], if i > 0 then i - 1 else 0); }
  }

  lemma RankedInOrder(p: Para, entries: seq<Entry>)
    requires Ranked(entries, 0, 13) && p.order == EntryNames(entries)
    ensures InFileOrder(p)
  {
    forall i, j | 0 <= i < j < |p.order| ensures Earlier(p.order[i], p.order[j]) {
      if entries != [] { EntryNameAt(entries, 0); }
      EntryNameAt(entries, i);
      EntryNameAt(entries, j);
      RankIsPlace(entries[i].key);
      RankIsPlace(entries[j].key);
    }
  }

  predicate HasKey(entries: seq<Entry>, k: Key) {
    exists e :: e in entries && e.key == k
  }

  predicate HasField(p: Para, k: Key, value: string) {
    Has(p, KeyName(k), value)
  }

  // ----- what a client reads in the tables -----

  /** The text is a number, and this one. */
  predicate Says(text: string, n: int) {
    && (IsInt64(n) ==> ParseInt(text) == Some(n))
    && (n >= 0 ==> text != "" && AllDigits(text) && Value(text) == n)
  }

  /** The words of the line are a hash, a size, and a path; the size is right-aligned in 16 columns. */
  predicate LineNames(line: string, hash: string, size: int, path: string) {
    var words := W.Fields(line);
    && |words| == 3 && words[0] == hash && Says(words[1], size) && words[2] == path
    && |line| == |hash| + 1 + (if |words[1]| < 16 then 16 else |words[1]|) + 1 + |path|
  }

  /** The field of this name has n lines. */
  predicate HasLength(p: Para, name: string, n: nat) {
    name in p.fields && |Split(p.fields[name], '\n')| == n
  }

  /** Its i-th line names this hash, and the size and path of this index. */
  predicate HasRow(p: Para, name: string, i: nat, hash: string, c: Checksum) {
    && name in p.fields && i < |Split(p.fields[name], '\n')|
    && LineNames(Split(p.fields[name], '\n')[i], hash, c.size, c.path)
  }

  /** The i-th line of every table is about this index. */
  predicate HasRows(p: Para, i: nat, c: Checksum) {
    && HasRow(p, "MD5Sum", i, c.md5, c) && HasRow(p, "SHA1", i, c.sha1, c)
    && HasRow(p, "SHA256", i, c.sha256, c) && HasRow(p, "SHA512", i, c.sha512, c)
  }

  /** The four tables. */
  predicate HasTables(p: Para, sorted: seq<Checksum>) {
    && HasLength(p, "MD5Sum", |sorted|) && HasLength(p, "SHA1", |sorted|)
    && HasLength(p, "SHA256", |sorted|) && HasLength(p, "SHA512", |sorted|)
    && forall i :: 0 <= i < |sorted| ==> HasRows(p, i, sorted[i])
  }

  lemma {:induction false} PaddedIs(n: string) returns (pad: string)
    ensures Padded(n) == pad + n && Blank(pad) && |pad + n| == if |n| < 16 then 16 else |n|
    decreases 16 - |n|
  {
    if |n| >= 16 {
      pad := "";
      assert n == "" + n;
    } else {
      var front := PaddedIs(" " + n);
      pad := front + " ";
      assert front + (" " + n) == pad + n;
    }
  }

  lemma FormatSays(n: int)
    ensures Says(FormatInt(n), n) && W.IsWord(FormatInt(n)) && FormatInt(n) != ""
  {
    if IsInt64(n) { ParseFormat(n); }
  }

  lemma Spread(a: string, pad: string, n: string, c: string)
    ensures a + " " + (pad + n) + " " + c == a + ((" " + pad) + (n + (" " + c)))
  {
  }

  lemma TableLineReads(c: Checksum, sum: Sum)
    requires PlainChecksum(c)
    ensures LineNames(TableLine(c, sum), Hash(c, sum), c.size, c.path)
  {
    var h, n := Hash(c, sum), FormatInt(c.size);
    assert IsHex(h);
    FormatSays(c.size);
    var pad := PaddedIs(n);
    Spread(h, pad, n, c.path);
    assert W.IsWord(h);
    W.ThreeFields(h, " " + pad, n, " ", c.path);
  }

  lemma SomeEntries(m: Manifest, date: string, archs: seq<string>, comps: seq<string>, indices: seq<Checksum>)
    ensures AllEntries(m, date, archs, comps, indices) != []
  {
    HeaderValues(m, date, archs, comps);
  }

  lemma EntriesBack(m: Manifest, now: string, archs: seq<string>, comps: seq<string>, sorted: seq<Checksum>)
    returns (p: Para)
    requires PlainManifest(m, now) && IsSortedSetOf(archs, m.architectures) && IsSortedSetOf(comps, m.components)
    requires |sorted| >= 2 && forall c :: c in sorted ==> PlainChecksum(c)
    ensures var date := if m.date == "" then now else m.date;
      && ParseText(Unlines(ReleaseLines(m, date, archs, comps, sorted))) == [p]
      && (forall e :: e in AllEntries(m, date, archs, comps, sorted) ==> HasField(p, e.key, e.value))
      && (forall k :: KeyName(k) in p.fields ==> HasKey(AllEntries(m, date, archs, comps, sorted), k))
      && InFileOrder(p)
  {
    var entries := AllEntries(m, if m.date == "" then now else m.date, archs, comps, sorted);
    var text := Unlines(ReleaseLines(m, if m.date == "" then now else m.date, archs, comps, sorted));
    ReleaseIsEntries(m, now, archs, comps, sorted);
    AllEntriesAreGood(m, now, archs, comps, sorted);
    SomeEntries(m, if m.date == "" then now else m.date, archs, comps, sorted);
    AllAreRanked(m, if m.date == "" then now else m.date, archs, comps, sorted);
    p := GoodEntriesComeBack(entries, text);
    RankedInOrder(p, entries);
  }

  lemma ReadBackWith(m: Manifest, now: string, archs: seq<string>, comps: seq<string>, sorted: seq<Checksum>)
    returns (p: Para)
    requires PlainManifest(m, now) && IsSortedSetOf(archs, m.architectures) && IsSortedSetOf(comps, m.components)
    requires |sorted| >= 2 && forall c :: c in sorted ==> PlainChecksum(c)
    ensures var date := if m.date == "" then now else m.date;
      && ParseText(Unlines(ReleaseLines(m, date, archs, comps, sorted))) == [p]
      && HeaderBack(p, m, date, archs, comps) && HasTables(p, sorted) && InFileOrder(p)
  {
    p := EntriesBack(m, now, archs, comps, sorted);
    HeaderComesBack(m, if m.date == "" then now else m.date, archs, comps, sorted, p);
    forall sum ensures TableBack(p, sorted, sum) { TableMember(sorted, TableEntry(sorted, sum)); }
    TablesComeBack(p, sorted);
  }

  predicate TableBack(p: Para, sorted: seq<Checksum>, sum: Sum) {
    HasField(p, Table(sum), TableEntry(sorted, sum).value)
  }

  ghost predicate TablesBack(p: Para, sorted: seq<Checksum>) {
    |sorted| >= 2 && (forall c :: c in sorted ==> PlainChecksum(c)) && forall sum :: TableBack(p, sorted, sum)
  }

  /** The lines of one table: as many as there are indices, each about its own. */
  ghost predicate TableRows(p: Para, name: string, sorted: seq<Checksum>, hashes: seq<string>) {
    && HasLength(p, name, |sorted|) && |hashes| == |sorted|
    && forall i :: 0 <= i < |sorted| ==> HasRow(p, name, i, hashes[i], sorted[i])
  }

  function Column(sorted: seq<Checksum>, sum: Sum): (hashes: seq<string>)
    ensures |hashes| == |sorted| && forall i :: 0 <= i < |sorted| ==> hashes[i] == Hash(sorted[i], sum)
  {
    seq(|sorted|, i requires 0 <= i < |sorted| => Hash(sorted[i], sum))
  }

  lemma TableComes(p: Para, sorted: seq<Checksum>, sum: Sum, name: string)
    requires TablesBack(p, sorted) && KeyName(Table(sum)) == name
    ensures TableRows(p, name, sorted, Column(sorted, sum))
  {
    TableComesBack(p, sorted, sum);
    forall i | 0 <= i < |sorted| ensures HasRow(p, name, i, Hash(sorted[i], sum), sorted[i]) {
      RowComesBack(p, sorted, sum, i);
    }
  }

  lemma TablesComeBack(p: Para, sorted: seq<Checksum>)
    requires TablesBack(p, sorted)
    ensures HasTables(p, sorted)
  {
    TableComes(p, sorted, MD5, "MD5Sum");
    TableComes(p, sorted, SHA1, "SHA1");
    TableComes(p, sorted, SHA256, "SHA256");
    TableComes(p, sorted, SHA512, "SHA512");
    AllTables(p, sorted, Column(sorted, MD5), Column(sorted, SHA1), Column(sorted, SHA256), Column(sorted, SHA512));
  }

  lemma AllTables(p: Para, sorted: seq<Checksum>, a: seq<string>, b: seq<string>, c: seq<string>, d: seq<string>)
    requires TableRows(p, "MD5Sum", sorted, a) && TableRows(p, "SHA1", sorted, b)
    requires TableRows(p, "SHA256", sorted, c) && TableRows(p, "SHA512", sorted, d)
    requires forall i :: 0 <= i < |sorted| ==>
      a[i] == sorted[i].md5 && b[i] == sorted[i].sha1 && c[i] == sorted[i].sha256 && d[i] == sorted[i].sha512
    ensures HasTables(p, sorted)
  {
    forall i | 0 <= i < |sorted| ensures HasRows(p, i, sorted[i]) {
      var x := sorted[i];
      assert HasRow(p, "MD5Sum", i, x.md5, x);
      assert HasRow(p, "SHA1", i, x.sha1, x);
      assert HasRow(p, "SHA256", i, x.sha256, x);
      assert HasRow(p, "SHA512", i, x.sha512, x);
    }
  }

  ghost predicate HeaderBack(p: Para, m: Manifest, date: string, archs: seq<string>, comps: seq<string>) {
    forall k :: KeyBack(p, m, date, archs, comps, k)
  }

  /** A key of the header has its value, and is missing when it is not written. */
  predicate KeyBack(p: Para, m: Manifest, date: string, archs: seq<string>, comps: seq<string>, k: Key) {
    !k.Table? ==> FieldWhen(p, k, Written(m, k), ValueFor(m, date, archs, comps, k))
  }

  lemma HeaderComesBack(m: Manifest, date: string, archs: seq<string>, comps: seq<string>, sorted: seq<Checksum>,
                        p: Para)
    requires forall e :: e in AllEntries(m, date, archs, comps, sorted) ==> HasField(p, e.key, e.value)
    requires forall k :: KeyName(k) in p.fields ==> HasKey(AllEntries(m, date, archs, comps, sorted), k)
    ensures HeaderBack(p, m, date, archs, comps)
  {
    forall k ensures KeyBack(p, m, date, archs, comps, k) {
      if !k.Table? { HeaderField(m, date, archs, comps, sorted, p, k); }
    }
  }

  predicate FieldWhen(p: Para, k: Key, written: bool, value: string) {
    if written then HasField(p, k, value) else KeyName(k) !in p.fields
  }

  lemma HeaderField(m: Manifest, date: string, archs: seq<string>, comps: seq<string>, sorted: seq<Checksum>, p: Para,
                    k: Key)
    requires !k.Table? && forall e :: e in AllEntries(m, date, archs, comps, sorted) ==> HasField(p, e.key, e.value)
    requires KeyName(k) in p.fields ==> HasKey(AllEntries(m, date, archs, comps, sorted), k)
    ensures FieldWhen(p, k, Written(m, k), ValueFor(m, date, archs, comps, k))
  {
    var value := ValueFor(m, date, archs, comps, k);
    if Written(m, k) {
      HeaderMember(m, date, archs, comps, Entry(k, value));
    } else if HasKey(AllEntries(m, date, archs, comps, sorted), k) {
      var e :| e in AllEntries(m, date, archs, comps, sorted) && e.key == k;
      HeaderMember(m, date, archs, comps, e);
      TableMember(sorted, e);
      assert false;
    }
  }

  lemma TableComesBack(p: Para, sorted: seq<Checksum>, sum: Sum)
    requires |sorted| >= 2 && (forall c :: c in sorted ==> PlainChecksum(c)) && TableBack(p, sorted, sum)
    ensures HasLength(p, KeyName(Table(sum)), |sorted|)
    ensures Split(p.fields[KeyName(Table(sum))], '\n') == TableLines(sorted, sum)
  {
    TableIsField(sorted, sum);
    FullTable(sorted, sum);
  }

  lemma RowComesBack(p: Para, sorted: seq<Checksum>, sum: Sum, i: nat)
    requires |sorted| >= 2 && (forall c :: c in sorted ==> PlainChecksum(c)) && TableBack(p, sorted, sum)
    requires i < |sorted|
    ensures HasRow(p, KeyName(Table(sum)), i, Hash(sorted[i], sum), sorted[i])
  {
    TableComesBack(p, sorted, sum);
    FullTable(sorted, sum);
    TableLineReads(sorted[i], sum);
  }

  /** The words of this field are the non-empty ones given, each once, in byte order. */
  ghost predicate WordsField(p: Para, name: string, given: seq<string>) {
    if given == [] then name !in p.fields
    else name in p.fields && IsSortedSetOf(W.Fields(p.fields[name]), given)
  }

  /** All fields but the tables. */
  ghost predicate HasHeader(p: Para, m: Manifest, now: string) {
    && Has(p, "Codename", m.codename) && Has(p, "Date", if m.date == "" then now else m.date)
    && HasUnlessEmpty(p, "Origin", m.origin) && HasUnlessEmpty(p, "Label", m.labelText)
    && HasUnlessEmpty(p, "Suite", m.suite) && HasUnlessEmpty(p, "Valid-Until", m.validUntil)
    && HasUnlessEmpty(p, "Description", m.description)
    && WordsField(p, "Architectures", m.architectures) && WordsField(p, "Components", m.components)
  }

  /** Words joined by blanks are found again. */
  lemma {:induction false} FieldsOfWords(words: seq<string>)
    requires forall i :: 0 <= i < |words| ==> words[i] != "" && W.IsWord(words[i])
    ensures W.Fields(Words(words)) == words
  {
    if words != [] {
      var w, others := words[0], words[1..];
      var rest := if others == [] then "" else " " + Words(others);
      assert Words(words) == w + rest;
      W.FieldsFirst(w, rest);
      FieldsOfWords(others);
      if others != [] { W.FieldsSkip(" ", Words(others)); }
      assert words == [w] + others;
    }
  }

  lemma WordsLearned(given: seq<string>, words: seq<string>)
    requires IsSortedSetOf(words, given) && forall w :: w in given ==> W.IsWord(w)
    ensures W.Fields(Words(words)) == words
  {
    forall i | 0 <= i < |words| ensures words[i] != "" && W.IsWord(words[i]) { assert words[i] in words; }
    FieldsOfWords(words);
  }

  lemma HeaderIsRead(p: Para, m: Manifest, now: string, archs: seq<string>, comps: seq<string>)
    requires PlainManifest(m, now) && IsSortedSetOf(archs, m.architectures) && IsSortedSetOf(comps, m.components)
    requires HeaderBack(p, m, if m.date == "" then now else m.date, archs, comps)
    ensures HasHeader(p, m, now)
  {
    var date := if m.date == "" then now else m.date;
    TextsAreRead(p, m, date, archs, comps);
    NameAndDateAreRead(p, m, date, archs, comps);
    WordListsAreRead(p, m, now, date, archs, comps);
  }

  lemma NameAndDateAreRead(p: Para, m: Manifest, date: string, archs: seq<string>, comps: seq<string>)
    requires HeaderBack(p, m, date, archs, comps)
    ensures Has(p, "Codename", m.codename) && Has(p, "Date", date)
  {
    assert KeyBack(p, m, date, archs, comps, Codename);
    assert KeyBack(p, m, date, archs, comps, Date);
  }

  lemma WordListsAreRead(p: Para, m: Manifest, now: string, date: string, archs: seq<string>, comps: seq<string>)
    requires PlainManifest(m, now) && IsSortedSetOf(archs, m.architectures) && IsSortedSetOf(comps, m.components)
    requires HeaderBack(p, m, date, archs, comps)
    ensures WordsField(p, "Architectures", m.architectures) && WordsField(p, "Components", m.components)
  {
    WordsLearned(m.architectures, archs);
    WordsLearned(m.components, comps);
    assert KeyBack(p, m, date, archs, comps, Architectures);
    assert KeyBack(p, m, date, archs, comps, Components);
  }

  lemma TextsAreRead(p: Para, m: Manifest, date: string, archs: seq<string>, comps: seq<string>)
    requires HeaderBack(p, m, date, archs, comps)
    ensures HasUnlessEmpty(p, "Origin", m.origin) && HasUnlessEmpty(p, "Label", m.labelText)
    ensures HasUnlessEmpty(p, "Suite", m.suite)
    ensures HasUnlessEmpty(p, "Valid-Until", m.validUntil) && HasUnlessEmpty(p, "Description", m.description)
  {
    assert KeyBack(p, m, date, archs, comps, Origin);
    assert KeyBack(p, m, date, archs, comps, Label);
    assert KeyBack(p, m, date, archs, comps, Suite);
    assert KeyBack(p, m, date, archs, comps, ValidUntil);
    assert KeyBack(p, m, date, archs, comps, Description);
  }

  /** What is read from a written Release: its texts and words under their names, in its four tables
      one line per index, with a hash, the size and the path, and all in the order of the file. */
  lemma ReleaseReadBack(m: Manifest, now: string, sorted: seq<Checksum>, text: string) returns (p: Para)
    requires PlainManifest(m, now) && IsRelease(m, now, sorted, text)
    ensures ParseText(text) == [p] && HasHeader(p, m, now) && HasTables(p, sorted) && InFileOrder(p)
  {
    var archs, comps :|
      && IsSortedSetOf(archs, m.architectures) && IsSortedSetOf(comps, m.components)
      && SortedIndices(sorted, m.indices)
      && text == Unlines(ReleaseLines(m, if m.date == "" then now else m.date, archs, comps, sorted));
    SameChecksums(sorted, m.indices);
    p := ReadBackWith(m, now, archs, comps, sorted);
    HeaderIsRead(p, m, now, archs, comps);
  }

  lemma SameChecksums(sorted: seq<Checksum>, indices: seq<Checksum>)
    requires multiset(sorted) == multiset(indices)
    ensures |sorted| == |indices| && forall c :: c in sorted <==> c in indices
  {
    assert |multiset(sorted)| == |sorted| && |multiset(indices)| == |indices|;
    forall c ensures c in sorted <==> c in indices {
      assert c in sorted <==> c in multiset(sorted);
      assert c in indices <==> c in multiset(indices);
    }
  }
}
