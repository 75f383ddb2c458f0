/** Reading back what was printed: one lemma says what comes back from any printable
    paragraphs, and from it follow shape preservation for every text and the exact
    domain on which the printer and the parser undo each other. */
module Deb822RoundTrip {
  import opened Text
  import opened Deb822

  // ----- names and values that can be printed without breaking the layout -----

  predicate PlainKey(k: string) {
    k != "" && Trimmed(k) && NoChar(k, ':') && NoChar(k, '\n') && k[0] != '#'
  }

  /** A piece of a multi-line value that does not print as a blank line. */
  predicate Solid(piece: string) { piece == "" || !Blank(piece) }

  predicate AllSolid(pieces: seq<string>) {
    forall i :: 0 <= i < |pieces| ==> Solid(pieces[i])
  }

  predicate Breakless(value: string) {
    var pieces := Split(value, '\n');
    |pieces| == 1 || AllSolid(pieces)
  }

  // ----- what a printed value is read back as -----

  /** The effect of one printed piece on the value being collected. */
  function Absorb(acc: string, piece: string): string {
    var line := DropCR(PieceLine(piece));
    if Comment(line) then acc else AppendCont(acc, line)
  }

  function AbsorbAll(acc: string, pieces: seq<string>): string
    decreases |pieces|
  {
    if pieces == [] then acc else AbsorbAll(Absorb(acc, pieces[0]), pieces[1..])
  }

  function Collected(value: string): string {
    var pieces := Split(value, '\n');
    if |pieces| == 1 then TrimSpace(value) else AbsorbAll("", pieces)
  }

  function ReadBack(value: string): string {
    TrimNewlines(Collected(value))
  }

  lemma StartsSolid(s: string)
    requires s != "" && !IsSpace(s[0])
    ensures TrimSpace(s) != "" && TrimSpace(s)[0] == s[0]
  {
    var lo, hi := TrimSpaceShape(s);
    assert forall i :: 0 <= i < lo ==> s[i] == s[..lo][i];
    assert forall i :: hi <= i < |s| ==> s[i] == s[hi..][i - hi];
  }

  /** The parser is between fields, or inside one: nothing is left over from an empty name. */
  predicate Clean(st: State) { st.key == "" ==> st.value == "" }

  /** A printed line that opens the field k. */
  lemma KeyLineStep(st: State, k: string, rest: string)
    requires PlainKey(k) && Clean(st)
    ensures Step(st, k + ":" + rest) == State(Flush(st).done, Flush(st).current, k, TrimSpace(rest))
  {
    var line := k + ":" + rest;
    StartsSolid(line);
    KeyLineParts(k, rest);
    TrimOfTrimmed(k);
    assert "" + TrimSpace(rest) == TrimSpace(rest);
  }

  lemma KeyLineParts(k: string, rest: string)
    requires NoChar(k, ':')
    ensures var line := k + ":" + rest; IndexOf(line, ':') == |k| && line[..|k|] == k && line[|k| + 1..] == rest
  {
    var line := k + ":" + rest;
    assert line[..|k|] == k && line[|k| + 1..] == rest;
    IndexOfIs(line, ':', |k|);
  }

  lemma TrimDropsCR(s: string)
    ensures TrimSpace(DropCR(s)) == TrimSpace(s)
  {
    if DropCR(s) != s {
      TrimPadded("", DropCR(s), "\r");
      assert "" + DropCR(s) + "\r" == s;
    }
  }

  lemma SingleLineStep(st: State, k: string, value: string)
    requires PlainKey(k) && Clean(st)
    ensures Step(st, DropCR(k + ": " + value)) == State(Flush(st).done, Flush(st).current, k, TrimSpace(value))
  {
    var rest := " " + value;
    assert k + ": " + value == k + ":" + rest;
    assert DropCR(k + ":" + rest) == k + ":" + DropCR(rest);
    KeyLineStep(st, k, DropCR(rest));
    TrimDropsCR(rest);
    TrimPadded(" ", value, "");
    assert " " + value + "" == rest;
  }

  lemma HeaderStep(st: State, k: string)
    requires PlainKey(k) && Clean(st)
    ensures Step(st, DropCR(k + ":")) == State(Flush(st).done, Flush(st).current, k, "")
  {
    KeyLineStep(st, k, "");
    assert k + ":" + "" == k + ":";
    assert DropCR(k + ":") == k + ":";
  }

  lemma SolidLine(piece: string)
    requires Solid(piece)
    ensures var line := DropCR(PieceLine(piece)); StartsBlank(line) && TrimSpace(line) != ""
  {
    var line := PieceLine(piece);
    assert !Blank(line) by {
      if piece == "" {
        assert line[1] == '.';
      } else {
        var i :| 0 <= i < |piece| && !IsSpace(piece[i]);
        assert line[if StartsBlank(piece) then i else i + 1] == piece[i];
      }
    }
    var j :| 0 <= j < |line| && !IsSpace(line[j]);
    assert j > 0 && DropCR(line)[j] == line[j];
    TrimEmptyIffBlank(DropCR(line));
  }

  lemma PieceStep(st: State, piece: string)
    requires Solid(piece) && st.key != ""
    ensures Step(st, DropCR(PieceLine(piece))) == st.(value := Absorb(st.value, piece))
  {
    SolidLine(piece);
  }

  lemma {:induction false} RunPieces(st: State, pieces: seq<string>)
    requires AllSolid(pieces) && st.key != ""
    ensures Run(st, DropCRs(PieceLines(pieces))) == st.(value := AbsorbAll(st.value, pieces))
    decreases |pieces|
  {
    if pieces != [] {
      PieceStep(st, pieces[0]);
      var lines := DropCRs(PieceLines(pieces));
      assert lines[1..] == DropCRs(PieceLines(pieces[1..]));
      RunPieces(Step(st, lines[0]), pieces[1..]);
    }
  }

  lemma DropCRsAppend(a: seq<string>, b: seq<string>)
    ensures DropCRs(a + b) == DropCRs(a) + DropCRs(b)
  {
  }

  /** Reading one printed field. */
  lemma RunField(st: State, k: string, value: string)
    requires PlainKey(k) && Clean(st) && Breakless(value)
    ensures Run(st, DropCRs(FieldLines(k, value)))
         == State(Flush(st).done, Flush(st).current, k, Collected(value))
  {
    var pieces := Split(value, '\n');
    var lines := DropCRs(FieldLines(k, value));
    if |pieces| == 1 {
      assert lines == [DropCR(k + ": " + value)];
      SingleLineStep(st, k, value);
      RunOne(st, lines[0]);
    } else {
      assert lines == [DropCR(k + ":")] + DropCRs(PieceLines(pieces));
      HeaderStep(st, k);
      RunAppend(st, [DropCR(k + ":")], DropCRs(PieceLines(pieces)));
      RunOne(st, DropCR(k + ":"));
      RunPieces(State(Flush(st).done, Flush(st).current, k, ""), pieces);
    }
  }

  // ----- reading back whole paragraphs -----

  predicate Printable(p: Para) {
    && WellFormed(p) && p.order != []
    && forall k :: k in p.fields ==> PlainKey(k) && Breakless(p.fields[k])
  }

  function BackFields(fields: map<string, string>): map<string, string> {
    map k | k in fields :: ReadBack(fields[k])
  }

  /** The paragraph that comes back: the same names in the same order. */
  function BackPara(p: Para): Para {
    Para(p.order, BackFields(p.fields))
  }

  function SetAll(p: Para, keys: seq<string>, fields: map<string, string>): Para
    requires forall k :: k in keys ==> k in fields
    decreases |keys|
  {
    if keys == [] then p else SetAll(SetField(p, keys[0], fields[keys[0]]), keys[1..], fields)
  }

  /** Setting new names appends them to the order. */
  lemma {:induction false} SetAllOrder(p: Para, keys: seq<string>, fields: map<string, string>)
    requires forall k :: k in keys ==> k in fields
    requires Distinct(keys) && forall k :: k in keys ==> k !in p.fields
    ensures SetAll(p, keys, fields).order == p.order + keys
    decreases |keys|
  {
    if keys != [] {
      var k0, rest := keys[0], keys[1..];
      var q := SetField(p, k0, fields[k0]);
      forall k | k in rest ensures k !in q.fields {
        var i :| 0 <= i < |rest| && rest[i] == k;
        assert keys[i + 1] == k;
      }
      SetAllOrder(q, rest, fields);
      AppendOne(p.order, k0, rest);
      assert keys == [k0] + rest;
    }
  }

  lemma AppendOne(a: seq<string>, k: string, rest: seq<string>)
    ensures a + [k] + rest == a + ([k] + rest)
  {
  }

  /** Whatever the names, the fields end up as given, and the others stay. */
  lemma {:induction false} SetAllFields(p: Para, keys: seq<string>, fields: map<string, string>)
    requires forall k :: k in keys ==> k in fields
    ensures var r := SetAll(p, keys, fields);
      forall k :: (k in r.fields <==> k in p.fields || k in keys)
               && (k in keys ==> r.fields[k] == fields[k])
               && (k in p.fields && k !in keys ==> r.fields[k] == p.fields[k])
    decreases |keys|
  {
    if keys != [] {
      var k0, rest := keys[0], keys[1..];
      SetAllFields(SetField(p, k0, fields[k0]), rest, fields);
      assert keys == [k0] + rest;
    }
  }

  /** Reading printed fields one after another sets them one after another. */
  lemma {:induction false} RunFields(st: State, keys: seq<string>, fields: map<string, string>)
    requires forall k :: k in keys ==> k in fields && PlainKey(k) && Breakless(fields[k])
    requires Clean(st)
    ensures var r := Run(st, DropCRs(FieldsLines(keys, fields)));
            && Clean(r)
            && Flush(r) == State(st.done, SetAll(Flush(st).current, keys, BackFields(fields)), "", "")
    decreases |keys|
  {
    if keys != [] {
      var a, b := FieldLines(keys[0], fields[keys[0]]), FieldsLines(keys[1..], fields);
      DropCRsAppend(a, b);
      RunAppend(st, DropCRs(a), DropCRs(b));
      RunField(st, keys[0], fields[keys[0]]);
      RunFields(Run(st, DropCRs(a)), keys[1..], fields);
    }
  }

  lemma RunPara(st: State, p: Para)
    requires Printable(p) && Clean(st) && Flush(st).current == EMPTY
    ensures var r := Run(st, DropCRs(ParaLines(p)));
            Clean(r) && Flush(r) == State(st.done, BackPara(p), "", "")
  {
    RunFields(st, p.order, p.fields);
    SetAllIsBack(p);
  }

  lemma SetAllIsBack(p: Para)
    requires WellFormed(p)
    ensures SetAll(EMPTY, p.order, BackFields(p.fields)) == BackPara(p)
  {
    var back := BackFields(p.fields);
    SetAllOrder(EMPTY, p.order, back);
    SetAllFields(EMPTY, p.order, back);
    var r := SetAll(EMPTY, p.order, back);
    assert r.order == p.order;
    SameMap(r.fields, back);
  }

  lemma SameMap(a: map<string, string>, b: map<string, string>)
    requires forall k :: k in a <==> k in b
    requires forall k :: k in b ==> a[k] == b[k]
    ensures a == b
  {
  }

  predicate AllPrintable(ps: seq<Para>) {
    forall i :: 0 <= i < |ps| ==> Printable(ps[i])
  }

  function BackParas(ps: seq<Para>): (r: seq<Para>)
    ensures |r| == |ps|
  {
    seq(|ps|, i requires 0 <= i < |ps| => BackPara(ps[i]))
  }

  lemma BackParasCons(done: seq<Para>, ps: seq<Para>)
    requires ps != []
    ensures done + BackParas(ps) == done + [BackPara(ps[0])] + BackParas(ps[1..])
  {
  }

  /** One printed paragraph and the empty line behind it. */
  lemma RunOnePara(done: seq<Para>, p: Para)
    requires Printable(p)
    ensures Run(State(done, EMPTY, "", ""), DropCRs(ParaLines(p) + [""]))
         == State(done + [BackPara(p)], EMPTY, "", "")
  {
    var st := State(done, EMPTY, "", "");
    var lines := DropCRs(ParaLines(p));
    DropCRsAppend(ParaLines(p), [""]);
    assert DropCRs([""]) == [""];
    RunAppend(st, lines, [""]);
    RunPara(st, p);
    RunOne(Run(st, lines), "");
  }

  lemma RunFirst(done: seq<Para>, ps: seq<Para>)
    requires AllPrintable(ps) && AllWellFormed(ps) && ps != []
    ensures Run(State(done, EMPTY, "", ""), DropCRs(ParasLines(ps)))
         == Run(State(done + [BackPara(ps[0])], EMPTY, "", ""), DropCRs(ParasLines(ps[1..])))
  {
    var a, b := ParaLines(ps[0]) + [""], ParasLines(ps[1..]);
    DropCRsAppend(a, b);
    RunAppend(State(done, EMPTY, "", ""), DropCRs(a), DropCRs(b));
    RunOnePara(done, ps[0]);
  }

  lemma {:induction false} RunParas(done: seq<Para>, ps: seq<Para>)
    requires AllPrintable(ps) && AllWellFormed(ps)
    ensures Run(State(done, EMPTY, "", ""), DropCRs(ParasLines(ps)))
         == State(done + BackParas(ps), EMPTY, "", "")
    decreases |ps|
  {
    if ps == [] {
      assert done + BackParas(ps) == done;
    } else {
      RunFirst(done, ps);
      RunParas(done + [BackPara(ps[0])], ps[1..]);
      BackParasCons(done, ps);
    }
  }

  lemma PieceLineIsLine(piece: string)
    requires NoChar(piece, '\n')
    ensures NoChar(PieceLine(piece), '\n')
  {
  }

  lemma FieldLinesAreLines(key: string, value: string)
    requires NoChar(key, '\n')
    ensures AllLines(FieldLines(key, value))
  {
    SplitPieces(value, '\n');
    SplitSingle(value, '\n');
    var pieces := Split(value, '\n');
    if |pieces| == 1 {
      assert NoChar(key + ": " + value, '\n');
    } else {
      assert NoChar(key + ":", '\n');
      forall i | 0 <= i < |pieces| ensures NoChar(PieceLines(pieces)[i], '\n') {
        PieceLineIsLine(pieces[i]);
      }
    }
  }

  lemma {:induction false} KeyLinesAreLines(keys: seq<string>, fields: map<string, string>)
    requires forall k :: k in keys ==> k in fields && NoChar(k, '\n')
    ensures AllLines(FieldsLines(keys, fields))
  {
    if keys != [] {
      FieldLinesAreLines(keys[0], fields[keys[0]]);
      KeyLinesAreLines(keys[1..], fields);
    }
  }

  lemma {:induction false} ParasLinesAreLines(ps: seq<Para>)
    requires AllPrintable(ps) && AllWellFormed(ps)
    ensures AllLines(ParasLines(ps))
  {
    if ps != [] {
      KeyLinesAreLines(ps[0].order, ps[0].fields);
      ParasLinesAreLines(ps[1..]);
    }
  }

  /** What is read back from printable paragraphs: every value replaced by its ReadBack. */
  lemma ReadBackParas(ps: seq<Para>)
    requires AllPrintable(ps) && AllWellFormed(ps)
    ensures ParseText(PrintParas(ps)) == BackParas(ps)
  {
    ParasLinesAreLines(ps);
    ScanUnlines(ParasLines(ps));
    RunParas([], ps);
    assert [] + BackParas(ps) == BackParas(ps);
  }
}
