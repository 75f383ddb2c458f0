/** Every text, however malformed, parses into paragraphs that can be printed: the shape of
    the parse survives printing and parsing again. */
module Deb822Shape {
  import opened Text
  import opened Deb822
  import opened Deb822RoundTrip

  predicate SolidValue(value: string) { AllSolid(Split(value, '\n')) }

  predicate Fields(p: Para) {
    && WellFormed(p)
    && forall k :: k in p.fields ==> PlainKey(k) && SolidValue(p.fields[k])
  }

  /** What the parser keeps at every line. The pending value may be left over from a line with
      an empty name; it still cannot print a blank line. */
  predicate GoodState(st: State) {
    && (forall i :: 0 <= i < |st.done| ==> Fields(st.done[i]) && st.done[i].order != [])
    && Fields(st.current)
    && (st.key != "" ==> PlainKey(st.key))
    && SolidValue(st.value)
  }

  lemma SolidSep(a: string, b: string)
    requires SolidValue(a) && SolidValue(b)
    ensures SolidValue(a + "\n" + b)
  {
    SplitSep(a, b, '\n');
    assert "\n" == ['\n'];
  }

  lemma SolidEmpty()
    ensures SolidValue("")
  {
    SplitNone("", '\n');
  }

  lemma SolidOne(s: string)
    requires NoChar(s, '\n') && Solid(s)
    ensures SolidValue(s)
  {
    SplitNone(s, '\n');
  }

  lemma LastPiece(front: string)
    ensures Split(front + "\n", '\n') == Split(front, '\n') + [""]
  {
    SplitSep(front, "", '\n');
    SplitNone("", '\n');
    assert front + ['\n'] + "" == front + "\n";
  }

  /** Text added to the last piece keeps it solid when the piece was empty or non-blank. */
  lemma SolidExtend(a: string, t: string)
    requires SolidValue(a) && NoChar(t, '\n') && Solid(t)
    ensures SolidValue(a + t)
  {
    SplitExtend(a, t, '\n');
    var ps, qs := Split(a, '\n'), Split(a + t, '\n');
    var last := ps[|ps| - 1];
    assert Solid(last + t) by {
      if last != "" {
        var i :| 0 <= i < |last| && !IsSpace(last[i]);
        assert !IsSpace((last + t)[i]);
      } else {
        assert last + t == t;
      }
    }
    forall i | 0 <= i < |qs| ensures Solid(qs[i]) {
      if i < |qs| - 1 { assert qs[i] == qs[..|qs| - 1][i] == ps[i]; }
    }
  }

  lemma SolidFront(front: string)
    requires SolidValue(front + "\n")
    ensures SolidValue(front)
  {
    LastPiece(front);
    var pieces := Split(front, '\n');
    forall i | 0 <= i < |pieces| ensures Solid(pieces[i]) {
      assert pieces[i] == Split(front + "\n", '\n')[i];
    }
  }

  lemma {:induction false} SolidTrimmed(a: string)
    requires SolidValue(a)
    ensures SolidValue(TrimNewlines(a))
  {
    if a != "" && a[|a| - 1] == '\n' {
      assert a == a[..|a| - 1] + "\n";
      SolidFront(a[..|a| - 1]);
      SolidTrimmed(a[..|a| - 1]);
    }
  }

  lemma ContKeepsSolid(acc: string, line: string)
    requires SolidValue(acc) && NoChar(line, '\n') && TrimSpace(line) != "" && StartsBlank(line)
    ensures SolidValue(AppendCont(acc, line))
  {
    var c := ContLine(line);
    TrimEmptyIffBlank(line);
    assert !Blank(c) by {
      var i :| 0 <= i < |line| && !IsSpace(line[i]);
      assert c[i - (|line| - |c|)] == line[i];
    }
    SolidEmpty();
    SolidOne(c);
    SolidSep(acc, "");
    SolidSep(acc, c);
    SolidExtend(acc, c);
    assert acc + "\n" + "" == acc + "\n";
  }

  lemma TrimKeeps(s: string, c: char)
    requires NoChar(s, c)
    ensures NoChar(TrimSpace(s), c) && Solid(TrimSpace(s))
  {
    var lo, hi := TrimSpaceShape(s);
    assert forall i :: 0 <= i < hi - lo ==> s[lo..hi][i] == s[lo + i];
    assert lo < hi ==> TrimSpace(s)[0] == s[lo];
  }

  lemma FirstLetter(a: string, b: string)
    requires TrimSpace(a) != ""
    ensures TrimSpace(a + b) != "" && TrimSpace(a + b)[0] == TrimSpace(a)[0]
  {
    var lo, hi := TrimSpaceShape(a);
    var s := a[lo..] + b;
    assert a + b == a[..lo] + s + "";
    TrimPadded(a[..lo], s, "");
    assert s[0] == a[lo];
    StartsSolid(s);
  }

  lemma KeyIsPlain(line: string)
    requires NoChar(line, '\n') && !Comment(line)
    ensures var k := TrimSpace(line[..IndexOf(line, ':')]); k != "" ==> PlainKey(k)
  {
    var i := IndexOf(line, ':');
    var name := line[..i];
    assert forall j :: 0 <= j < i ==> name[j] == line[j];
    TrimKeeps(name, ':');
    TrimKeeps(name, '\n');
    var lo, hi := TrimSpaceShape(name);
    if TrimSpace(name) != "" {
      FirstLetter(name, line[i..]);
      assert name + line[i..] == line;
    }
  }

  lemma FlushKeepsGood(st: State)
    requires GoodState(st)
    ensures GoodState(Flush(st))
  {
    SolidEmpty();
    SolidTrimmed(st.value);
  }

  lemma StepKeepsGood(st: State, line: string)
    requires GoodState(st) && NoChar(line, '\n')
    ensures GoodState(Step(st, line))
  {
    FlushKeepsGood(st);
    if Comment(line) {
    } else if TrimSpace(line) == "" {
    } else if StartsBlank(line) {
      ContKeepsSolid(st.value, line);
    } else {
      var i := IndexOf(line, ':');
      if i < |line| {
        KeyIsPlain(line);
        ValueKeepsSolid(Flush(st).value, line, i + 1);
      }
    }
  }

  lemma ValueKeepsSolid(value: string, line: string, i: nat)
    requires SolidValue(value) && NoChar(line, '\n') && i <= |line|
    ensures SolidValue(value + TrimSpace(line[i..]))
  {
    var rest := line[i..];
    assert forall j :: 0 <= j < |rest| ==> rest[j] == line[i + j];
    TrimKeeps(rest, '\n');
    SolidExtend(value, TrimSpace(rest));
  }

  lemma {:induction false} RunKeepsGood(st: State, lines: seq<string>)
    requires GoodState(st) && AllLines(lines)
    ensures GoodState(Run(st, lines))
    decreases |lines|
  {
    if lines != [] {
      StepKeepsGood(st, lines[0]);
      assert AllLines(lines[1..]) by {
        assert forall i :: 0 <= i < |lines| - 1 ==> lines[1..][i] == lines[i + 1];
      }
      RunKeepsGood(Step(st, lines[0]), lines[1..]);
    }
  }

  /** No parsed value prints a line that acts as a paragraph break, whatever the text. */
  lemma ParsedIsPrintable(text: string)
    ensures AllPrintable(ParseText(text)) && AllWellFormed(ParseText(text))
  {
    ScanLinesAreLines(text);
    SolidEmpty();
    RunKeepsGood(START, ScanLines(text));
    var st := Run(START, ScanLines(text));
    FlushKeepsGood(st);
    assert GoodState(Push(Flush(st)));
  }

  /** For every text: printing the parse and parsing again gives the same number of paragraphs
      with the same names in the same order. */
  lemma ShapePreserved(text: string)
    ensures AllPrintable(ParseText(text)) && AllWellFormed(ParseText(text))
    ensures var ps := ParseText(text); var again := ParseText(PrintParas(ps));
            |again| == |ps| && forall i :: 0 <= i < |ps| ==> again[i].order == ps[i].order
  {
    ParsedIsPrintable(text);
    ReadBackParas(ParseText(text));
  }
}
