/** The printed and the read form of control paragraphs, character by character: separators,
    continuation lines, empty lines, comments and paragraph breaks (deb822(5)). */
module Deb822Laws {
  import opened Text
  import opened Deb822
  import opened Deb822RoundTrip

  // ----- printing -----

  /** A paragraph with one field. */
  function Single(k: string, value: string): Para {
    Para([k], map[k := value])
  }

  lemma SingleLines(k: string, value: string)
    ensures WellFormed(Single(k, value)) && ParaLines(Single(k, value)) == FieldLines(k, value)
  {
    var p := Single(k, value);
    assert [k][1..] == [] && p.fields[k] == value;
    assert FieldsLines([k], p.fields) == FieldLines(k, value) + FieldsLines([], p.fields);
    assert FieldLines(k, value) + [] == FieldLines(k, value);
  }

  /** A value of one line follows the name on its line. */
  lemma OneLineIsPrinted(k: string, value: string)
    requires NoChar(value, '\n')
    ensures PrintPara(Single(k, value)) == k + ": " + value + "\n"
  {
    SingleLines(k, value);
    SplitNone(value, '\n');
    assert Unlines([k + ": " + value]) == k + ": " + value + "\n" + Unlines([]);
  }

  lemma FourLines(a: string, b: string, c: string, d: string)
    ensures Unlines([a] + [b, c, d]) == a + "\n" + (b + "\n" + (c + "\n" + (d + "\n")))
  {
    assert ([a] + [b, c, d])[1..] == [b, c, d] && [b, c, d][1..] == [c, d] && [c, d][1..] == [d] && [d][1..] == [];
    assert Unlines([d]) == d + "\n" + "";
    assert Unlines([c, d]) == c + "\n" + Unlines([d]);
    assert Unlines([b, c, d]) == b + "\n" + Unlines([c, d]);
  }

  lemma ThreePieces(a: string, b: string)
    requires NoChar(a, '\n') && NoChar(b, '\n')
    ensures Split(a + "\n" + ("" + "\n" + b), '\n') == [a, "", b]
  {
    SplitSep(a, "" + "\n" + b, '\n');
    SplitSep("", b, '\n');
    SplitNone(a, '\n');
    SplitNone("", '\n');
    SplitNone(b, '\n');
    assert [a] + ([""] + [b]) == [a, "", b];
  }

  /** A value of several lines stands below its name: a line of its own gets one blank in front, an
      empty line is a dot, and a line that is indented already stays as it is. */
  lemma LinesArePrinted(k: string, a: string, b: string)
    requires NoChar(a, '\n') && NoChar(b, '\n') && a != "" && a[0] != ' ' && a[0] != '\t'
    requires b != "" && (b[0] == ' ' || b[0] == '\t')
    ensures PrintPara(Single(k, a + "\n" + ("" + "\n" + b)))
         == k + ":" + "\n" + (" " + a + "\n" + (" ." + "\n" + (b + "\n")))
  {
    var value := a + "\n" + ("" + "\n" + b);
    SingleLines(k, value);
    ThreePieces(a, b);
    assert PieceLines([a, "", b]) == [" " + a, " .", b];
    FourLines(k + ":", " " + a, " .", b);
  }

  lemma FieldsCons(keys: seq<string>, fields: map<string, string>)
    requires keys != [] && forall x :: x in keys ==> x in fields
    ensures FieldsLines(keys, fields) == FieldLines(keys[0], fields[keys[0]]) + FieldsLines(keys[1..], fields)
  {
  }

  lemma LinesAssoc(a: seq<string>, b: seq<string>, c: seq<string>)
    ensures a + (b + c) == a + b + c
  {
  }

  lemma {:induction false} FieldsSnoc(keys: seq<string>, fields: map<string, string>, k: string, value: string)
    requires k !in keys && forall x :: x in keys ==> x in fields
    ensures FieldsLines(keys + [k], fields[k := value]) == FieldsLines(keys, fields) + FieldLines(k, value)
  {
    var all, fields' := keys + [k], fields[k := value];
    FieldsCons(all, fields');
    if keys == [] {
      assert all[0] == k && all[1..] == [];
      assert FieldLines(k, value) + [] == [] + FieldLines(k, value);
    } else {
      assert all[0] == keys[0] && all[1..] == keys[1..] + [k];
      FieldsCons(keys, fields);
      FieldsSnoc(keys[1..], fields, k, value);
      LinesAssoc(FieldLines(keys[0], fields[keys[0]]), FieldsLines(keys[1..], fields), FieldLines(k, value));
    }
  }

  /** A field that is set anew is printed behind the others. */
  lemma NextFieldIsPrinted(p: Para, k: string, value: string)
    requires WellFormed(p) && k !in p.fields
    ensures WellFormed(SetField(p, k, value)) && WellFormed(Single(k, value))
    ensures PrintPara(SetField(p, k, value)) == PrintPara(p) + PrintPara(Single(k, value))
  {
    SingleLines(k, value);
    FieldsSnoc(p.order, p.fields, k, value);
    UnlinesAppend(ParaLines(p), FieldLines(k, value));
  }

  /** Every printed paragraph of an index is followed by an empty line. */
  lemma ParagraphIsPrinted(p: Para, ps: seq<Para>)
    requires WellFormed(p) && AllWellFormed(ps)
    ensures AllWellFormed([p] + ps) && PrintParas([p] + ps) == PrintPara(p) + "\n" + PrintParas(ps)
  {
    ParasCons(p, ps);
    UnlinesAppend(ParaLines(p) + [""], ParasLines(ps));
    UnlinesEmpty(ParaLines(p));
  }

  lemma ParasCons(p: Para, ps: seq<Para>)
    requires WellFormed(p) && AllWellFormed(ps)
    ensures AllWellFormed([p] + ps) && ParasLines([p] + ps) == ParaLines(p) + [""] + ParasLines(ps)
  {
    var all := [p] + ps;
    forall i | 0 <= i < |all| ensures WellFormed(all[i]) {
      if i > 0 { assert all[i] == ps[i - 1]; }
    }
    assert all[1..] == ps;
  }

  // ----- reading, line by line -----

  /** A text that stands on one line and is not empty. */
  predicate Filled(s: string) {
    OneLine(s) && s != ""
  }

  lemma NoCR(front: string, s: string)
    requires Filled(s)
    ensures DropCR(front + s) == front + s
  {
    assert (front + s)[|front + s| - 1] == s[|s| - 1];
  }

  /** A name and a value, with blanks around the value. */
  lemma FieldLineIsRead(st: State, k: string, pad: string, value: string)
    requires PlainKey(k) && Clean(st) && Filled(value) && Blank(pad)
    ensures Step(st, DropCR(k + ":" + (pad + value))) == State(Flush(st).done, Flush(st).current, k, value)
  {
    NoCR(k + ":" + pad, value);
    assert k + ":" + pad + value == k + ":" + (pad + value);
    KeyLineStep(st, k, pad + value);
    TrimPadded(pad, value, "");
    assert pad + value + "" == pad + value;
    TrimOfTrimmed(value);
  }

  lemma CommentIsSkipped(st: State, x: string)
    ensures Step(st, DropCR("#" + x)) == st
  {
    StartsSolid(DropCR("#" + x));
  }

  lemma BlankLineEnds(st: State, gap: string)
    requires Blank(gap)
    ensures Step(st, DropCR(gap)) == Push(Flush(st))
  {
    TrimEmptyIffBlank(DropCR(gap));
    assert DropCR(gap) != "" ==> Blank(DropCR(gap));
  }

  /** A line of a value that is not a comment and not a dot. */
  predicate Textual(c: string) {
    Filled(c) && c[0] != '#' && c != "."
  }

  lemma IndentedLine(pad: char, c: string)
    requires Filled(c) && c[0] != '#' && (pad == ' ' || pad == '\t')
    ensures DropCR([pad] + c) == [pad] + c && TrimSpace([pad] + c) == c && !Comment([pad] + c)
  {
    NoCR([pad], c);
    TrimPadded([pad], c, "");
    assert [pad] + c + "" == [pad] + c;
    TrimOfTrimmed(c);
  }

  /** An indented line goes on the value, on a new line unless the value is at the start of one. */
  lemma ContinuationIsRead(st: State, pad: char, c: string)
    requires st.key != "" && Textual(c) && (pad == ' ' || pad == '\t')
    ensures Step(st, DropCR([pad] + c))
         == st.(value := if st.value == "" || st.value[|st.value| - 1] == '\n' then st.value + c
                         else st.value + "\n" + c)
  {
    IndentedLine(pad, c);
    assert ([pad] + c)[1..] == c;
    assert TrimPrefixChar(c, '\t') == c;
  }

  lemma DotIsRead(st: State)
    requires st.key != ""
    ensures Step(st, DropCR(" .")) == st.(value := st.value + "\n")
  {
    IndentedLine(' ', ".");
    assert [' '] + "." == " .";
    assert " ."[1..] == ".";
  }

  // ----- reading whole texts -----

  lemma TwoLines(a: string, b: string)
    requires NoChar(a, '\n') && NoChar(b, '\n')
    ensures ScanLines(a + "\n" + (b + "\n")) == [DropCR(a)] + [DropCR(b)]
  {
    FirstLine(a, b + "\n");
    OneLineScan(b);
  }

  lemma OneLineScan(a: string)
    requires NoChar(a, '\n')
    ensures ScanLines(a + "\n") == [DropCR(a)]
  {
    FirstLine(a, "");
    assert a + "\n" + "" == a + "\n";
    assert [DropCR(a)] + [] == [DropCR(a)];
  }

  lemma ThreeLines(a: string, b: string, c: string)
    requires NoChar(a, '\n') && NoChar(b, '\n') && NoChar(c, '\n')
    ensures ScanLines(a + "\n" + (b + "\n" + (c + "\n"))) == [DropCR(a)] + ([DropCR(b)] + [DropCR(c)])
  {
    FirstLine(a, b + "\n" + (c + "\n"));
    TwoLines(b, c);
  }

  lemma RunThree(st: State, a: string, b: string, c: string)
    ensures Run(st, [a] + ([b] + [c])) == Step(Step(Step(st, a), b), c)
  {
    RunAppend(st, [a], [b] + [c]);
    RunAppend(Step(st, a), [b], [c]);
    RunOne(st, a);
    RunOne(Step(st, a), b);
    RunOne(Step(Step(st, a), b), c);
  }

  lemma NoNewline(k: string, rest: string)
    requires NoChar(k, '\n') && NoChar(rest, '\n')
    ensures NoChar(k + ":" + rest, '\n')
  {
  }

  lemma EndsClosed(value: string)
    requires value == "" || value[|value| - 1] != '\n'
    ensures TrimNewlines(value) == value
  {
  }

  /** A pending value without a newline at its end goes into the paragraph as it is. */
  lemma FlushFirst(done: seq<Para>, k: string, value: string)
    requires k != "" && value != "" && value[|value| - 1] != '\n'
    ensures Flush(State(done, EMPTY, k, value)) == State(done, Single(k, value), "", "")
    ensures Push(Flush(State(done, EMPTY, k, value))) == State(done + [Single(k, value)], EMPTY, "", "")
  {
    EndsClosed(value);
    assert [] + [k] == [k];
  }

  lemma FlushSecond(k: string, v: string, m: string, w: string)
    requires m != "" && k != m && Filled(w)
    ensures Finish(State([], Single(k, v), m, w)) == [Para([k, m], map[k := v, m := w])]
  {
    EndsClosed(w);
    assert [k] + [m] == [k, m];
    assert [] + [Para([k, m], map[k := v, m := w])] == [Para([k, m], map[k := v, m := w])];
  }

  /** Two fields, with a comment between them. */
  lemma FieldsAreRead(k: string, pad: string, v: string, x: string, m: string, w: string)
    requires PlainKey(k) && PlainKey(m) && k != m && Filled(v) && Filled(w)
    requires Blank(pad) && NoChar(pad, '\n') && NoChar(x, '\n')
    ensures ParseText(k + ":" + (pad + v) + "\n" + ("#" + x + "\n" + (m + ":" + w + "\n")))
         == [Para([k, m], map[k := v, m := w])]
  {
    var a, b, c := k + ":" + (pad + v), "#" + x, m + ":" + w;
    NoNewline(k, pad + v);
    NoNewline(m, w);
    ThreeLines(a, b, c);
    RunThree(START, DropCR(a), DropCR(b), DropCR(c));
    FieldLineIsRead(START, k, pad, v);
    var st := State([], EMPTY, k, v);
    CommentIsSkipped(st, x);
    NextFieldIsRead(st, m, w);
    FlushFirst([], k, v);
    FlushSecond(k, v, m, w);
  }

  lemma NextFieldIsRead(st: State, k: string, value: string)
    requires PlainKey(k) && Clean(st) && Filled(value)
    ensures Step(st, DropCR(k + ":" + value)) == State(Flush(st).done, Flush(st).current, k, value)
  {
    assert "" + value == value;
    FieldLineIsRead(st, k, "", value);
  }

  /** Blank lines separate paragraphs. */
  lemma BreakIsRead(k: string, v: string, gap: string, m: string, w: string)
    requires PlainKey(k) && PlainKey(m) && Filled(v) && Filled(w) && Blank(gap) && NoChar(gap, '\n')
    ensures ParseText(k + ":" + v + "\n" + (gap + "\n" + (m + ":" + w + "\n"))) == [Single(k, v), Single(m, w)]
  {
    var a, c := k + ":" + v, m + ":" + w;
    NoNewline(k, v);
    NoNewline(m, w);
    ThreeLines(a, gap, c);
    RunThree(START, DropCR(a), DropCR(gap), DropCR(c));
    NextFieldIsRead(START, k, v);
    BlankLineEnds(State([], EMPTY, k, v), gap);
    FlushFirst([], k, v);
    NextFieldIsRead(State([] + [Single(k, v)], EMPTY, "", ""), m, w);
    FlushFirst([] + [Single(k, v)], m, w);
  }

  /** Indented lines go on the value. A dot is only the end of a line, so the empty line that it
      stands for is lost behind other lines. */
  lemma LinesAreRead(k: string, c: string, d: string)
    requires PlainKey(k) && Textual(c) && Textual(d)
    ensures ParseText(k + ":" + c + "\n" + (" ." + "\n" + ("\t" + d + "\n"))) == [Single(k, c + "\n" + d)]
    ensures ParseText(k + ":" + c + "\n" + (" " + d + "\n")) == [Single(k, c + "\n" + d)]
  {
    DottedIsRead(k, c, d);
    var a, b := k + ":" + c, " " + d;
    NoNewline(k, c);
    TwoLines(a, b);
    RunAppend(START, [DropCR(a)], [DropCR(b)]);
    RunOne(START, DropCR(a));
    NextFieldIsRead(START, k, c);
    RunOne(State([], EMPTY, k, c), DropCR(b));
    assert [' '] + d == " " + d;
    ContinuationIsRead(State([], EMPTY, k, c), ' ', d);
    FlushFirst([], k, c + "\n" + d);
  }

  lemma DottedIsRead(k: string, c: string, d: string)
    requires PlainKey(k) && Textual(c) && Textual(d)
    ensures ParseText(k + ":" + c + "\n" + (" ." + "\n" + ("\t" + d + "\n"))) == [Single(k, c + "\n" + d)]
  {
    var a, b := k + ":" + c, "\t" + d;
    NoNewline(k, c);
    ThreeLines(a, " .", b);
    RunThree(START, DropCR(a), DropCR(" ."), DropCR(b));
    NextFieldIsRead(START, k, c);
    DotIsRead(State([], EMPTY, k, c));
    assert ['\t'] + d == "\t" + d;
    ContinuationIsRead(State([], EMPTY, k, c + "\n"), '\t', d);
    FlushFirst([], k, c + "\n" + d);
  }

  lemma WiderLine(pad: string, c: string)
    requires Filled(c) && c[0] != '#' && Blank(pad) && pad != ""
    ensures DropCR(pad + c) == pad + c && TrimSpace(pad + c) == c && !Comment(pad + c)
  {
    NoCR(pad, c);
    TrimPadded(pad, c, "");
    assert pad + c + "" == pad + c;
    TrimOfTrimmed(c);
  }

  /** Of the indentation one blank goes, and a tab behind it; the rest stays. */
  lemma IndentationIsRead(k: string, c: string, d: string)
    requires PlainKey(k) && Textual(c) && Textual(d)
    ensures ParseText(k + ":" + c + "\n" + ("  " + d + "\n")) == [Single(k, c + "\n" + (" " + d))]
    ensures ParseText(k + ":" + c + "\n" + (" \t" + d + "\n")) == [Single(k, c + "\n" + d)]
  {
    WiderIsRead(k, c, "  ", " ", d);
    WiderIsRead(k, c, " \t", "", d);
    assert "" + d == d;
  }

  lemma WiderIsRead(k: string, c: string, pad: string, left: string, d: string)
    requires PlainKey(k) && Textual(c) && Textual(d) && Blank(pad) && NoChar(pad, '\n')
    requires (pad == "  " && left == " ") || (pad == " \t" && left == "")
    ensures ParseText(k + ":" + c + "\n" + (pad + d + "\n")) == [Single(k, c + "\n" + (left + d))]
  {
    var a, b := k + ":" + c, pad + d;
    NoNewline(k, c);
    TwoLines(a, b);
    RunAppend(START, [DropCR(a)], [DropCR(b)]);
    RunOne(START, DropCR(a));
    NextFieldIsRead(START, k, c);
    RunOne(State([], EMPTY, k, c), DropCR(b));
    WiderLine(pad, d);
    WiderStep(State([], EMPTY, k, c), pad, left, d);
    var value := c + "\n" + (left + d);
    assert value[|value| - 1] == d[|d| - 1];
    FlushFirst([], k, value);
  }

  lemma WiderStep(st: State, pad: string, left: string, d: string)
    requires st.key != "" && Filled(st.value) && Textual(d)
    requires (pad == "  " && left == " ") || (pad == " \t" && left == "")
    requires TrimSpace(pad + d) == d && !Comment(pad + d)
    ensures Step(st, pad + d) == st.(value := st.value + "\n" + (left + d))
  {
    assert (pad + d)[1..] == pad[1..] + d;
    assert pad[1..] == [pad[1]];
    if left == "" {
      assert (pad[1..] + d)[1..] == d && left + d == d;
    } else {
      assert pad[1..] + d == left + d && (left + d)[0] == ' ';
      assert |left + d| == |d| + 1 && d != "";
    }
  }

  lemma CRIsDropped(line: string)
    ensures DropCR(line + "\r") == line
  {
    assert (line + "\r")[..|line|] == line;
  }

  lemma LastLine(a: string, b: string)
    requires NoChar(a, '\n') && NoChar(b, '\n') && b != ""
    ensures ScanLines(a + "\n" + b) == [DropCR(a)] + [DropCR(b)]
  {
    FirstLine(a, b);
    IndexOfIs(b, '\n', |b|);
    assert b[..|b|] == b;
  }

  /** Lines may end in a carriage return and a newline, and the last one in nothing. */
  lemma LineEndsAreRead(k: string, c: string, d: string)
    requires PlainKey(k) && Textual(c) && Textual(d)
    ensures ParseText(k + ":" + c + "\r" + "\n" + (" " + d + "\r")) == [Single(k, c + "\n" + d)]
    ensures ParseText(k + ":" + c + "\n" + (" " + d)) == [Single(k, c + "\n" + d)]
  {
    var a, b := k + ":" + c, " " + d;
    NoNewline(k, c);
    assert [' '] + d == b;
    NoCR(k + ":", c);
    NoCR(" ", d);
    CRIsDropped(a);
    CRIsDropped(b);
    LastLine(a + "\r", b + "\r");
    LastLine(a, b);
    RunAppend(START, [a], [b]);
    RunOne(START, a);
    NextFieldIsRead(START, k, c);
    RunOne(State([], EMPTY, k, c), b);
    ContinuationIsRead(State([], EMPTY, k, c), ' ', d);
    FlushFirst([], k, c + "\n" + d);
  }

  lemma JunkStep(st: State, junk: string)
    requires Filled(junk) && NoChar(junk, ':') && junk[0] != '#'
    ensures Step(st, DropCR(junk)) == Flush(st)
  {
    NoCR("", junk);
    assert "" + junk == junk;
    TrimOfTrimmed(junk);
    IndexOfIs(junk, ':', |junk|);
  }

  /** A line without a colon ends the field before it, and is lost. */
  lemma JunkIsSkipped(k: string, v: string, junk: string, m: string, w: string)
    requires PlainKey(k) && PlainKey(m) && k != m && Filled(v) && Filled(w)
    requires Filled(junk) && NoChar(junk, ':') && junk[0] != '#'
    ensures ParseText(k + ":" + v + "\n" + (junk + "\n" + (m + ":" + w + "\n")))
         == [Para([k, m], map[k := v, m := w])]
  {
    var a, c := k + ":" + v, m + ":" + w;
    NoNewline(k, v);
    NoNewline(m, w);
    ThreeLines(a, junk, c);
    RunThree(START, DropCR(a), DropCR(junk), DropCR(c));
    NextFieldIsRead(START, k, v);
    JunkStep(State([], EMPTY, k, v), junk);
    FlushFirst([], k, v);
    NextFieldIsRead(State([], Single(k, v), "", ""), m, w);
    FlushSecond(k, v, m, w);
  }

  /** An indented line that follows no field is lost. */
  lemma LoneLineIsSkipped(c: string, k: string, v: string)
    requires PlainKey(k) && Filled(v) && Textual(c)
    ensures ParseText(" " + c + "\n" + (k + ":" + v + "\n")) == [Single(k, v)]
  {
    var a, b := " " + c, k + ":" + v;
    NoNewline(k, v);
    TwoLines(a, b);
    assert [' '] + c == a;
    IndentedLine(' ', c);
    RunAppend(START, [DropCR(a)], [DropCR(b)]);
    RunOne(START, DropCR(a));
    NextFieldIsRead(START, k, v);
    RunOne(START, DropCR(b));
    FlushFirst([], k, v);
  }

  lemma OrphanLine(x: string)
    requires Filled(x)
    ensures DropCR(":" + x) == ":" + x && TrimSpace(":" + x) != "" && !Comment(":" + x) && !StartsBlank(":" + x)
    ensures IndexOf(":" + x, ':') == 0 && (":" + x)[1..] == x && TrimSpace(x) == x && TrimSpace("") == ""
  {
    NoCR(":", x);
    StartsSolid(":" + x);
    IndexOfIs(":" + x, ':', 0);
    TrimOfTrimmed(x);
  }

  lemma OrphanStep(st: State, x: string)
    requires st.key != "" && Filled(x)
    ensures Step(st, DropCR(":" + x)) == State(Flush(st).done, Flush(st).current, "", x)
  {
    OrphanLine(x);
    assert (":" + x)[..0] == "";
    assert Step(st, ":" + x) == NewField(Flush(st), ":" + x);
    assert "" + x == x;
  }

  lemma NamedLine(m: string, w: string)
    requires PlainKey(m) && Filled(w)
    ensures var line := m + ":" + w;
      && DropCR(line) == line && TrimSpace(line) != "" && !Comment(line) && !StartsBlank(line)
      && IndexOf(line, ':') == |m| && TrimSpace(line[..|m|]) == m && TrimSpace(line[|m| + 1..]) == w
  {
    NoCR(m + ":", w);
    StartsSolid(m + ":" + w);
    KeyLineParts(m, w);
    TrimOfTrimmed(m);
    TrimOfTrimmed(w);
  }

  lemma AfterOrphan(st: State, m: string, w: string)
    requires st.key == "" && PlainKey(m) && Filled(w)
    ensures Step(st, DropCR(m + ":" + w)) == st.(key := m, value := st.value + w)
  {
    NamedLine(m, w);
    assert Step(st, m + ":" + w) == NewField(st, m + ":" + w);
  }

  lemma Runs(x: string, w: string)
    requires Filled(x) && Filled(w)
    ensures Filled(x + w)
  {
    assert (x + w)[0] == x[0] && (x + w)[|x + w| - 1] == w[|w| - 1];
  }

  /** The value of a line without a name runs into the value of the next field. */
  lemma OrphanRunsOn(k: string, v: string, x: string, m: string, w: string)
    requires PlainKey(k) && PlainKey(m) && k != m && Filled(v) && Filled(w) && Filled(x)
    ensures ParseText(k + ":" + v + "\n" + (":" + x + "\n" + (m + ":" + w + "\n")))
         == [Para([k, m], map[k := v, m := x + w])]
  {
    var a, b, c := k + ":" + v, ":" + x, m + ":" + w;
    NoNewline(k, v);
    NoNewline(m, w);
    ThreeLines(a, b, c);
    RunThree(START, DropCR(a), DropCR(b), DropCR(c));
    NextFieldIsRead(START, k, v);
    OrphanStep(State([], EMPTY, k, v), x);
    FlushFirst([], k, v);
    AfterOrphan(State([], Single(k, v), "", x), m, w);
    Runs(x, w);
    FlushSecond(k, v, m, x + w);
  }
}
