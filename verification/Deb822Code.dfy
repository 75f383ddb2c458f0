/** The imperative printer, parser and typed conversions, each proved against its function. */
module Deb822Code {
  import opened Text
  import opened Deb822
  import opened Stanzas

  class Paragraph {
    var order: seq<string>
    var fields: map<string, string>

    ghost function Value(): Para
      reads this
    {
      Para(order, fields)
    }

    constructor ()
      ensures Value() == EMPTY
    {
      order := [];
      fields := map[];
    }

    method Set(key: string, value: string)
      modifies this
      ensures Value() == SetField(old(Value()), key, value)
    {
      if key !in fields {
        order := order + [key];
      }
      fields := fields[key := value];
    }

    /** The exact name first, then any name that differs only in case. */
    method Get(key: string) returns (v: string)
      ensures CanGet(Value(), key, v)
    {
      if key in fields {
        return fields[key];
      }
      var lower := ToLower(key);
      var left := fields.Keys;
      while left != {}
        invariant left <= fields.Keys
        invariant forall k :: k in fields && k !in left ==> !SameName(k, key)
        decreases |left|
      {
        var k :| k in left;
        if ToLower(k) == lower {
          return fields[k];
        }
        left := left - {k};
      }
      return "";
    }

    method String() returns (text: string)
      requires WellFormed(Value())
      ensures text == PrintPara(Value())
    {
      text := "";
      ghost var all := PrintPara(Value());
      assert order[0..] == order;
      for i := 0 to |order|
        invariant text + Unlines(FieldsLines(order[i..], fields)) == all
      {
        var lines := FieldText(order[i], fields[order[i]]);
        FieldsStep(order, fields, i);
        Associates(text, lines, Unlines(FieldsLines(order[i + 1..], fields)));
        text := text + lines;
      }
      assert text + Unlines(FieldsLines([], fields)) == text;
    }
  }

  lemma FieldsStep(keys: seq<string>, fields: map<string, string>, i: nat)
    requires i < |keys| && forall k :: k in keys ==> k in fields
    ensures Unlines(FieldsLines(keys[i..], fields))
         == Unlines(FieldLines(keys[i], fields[keys[i]])) + Unlines(FieldsLines(keys[i + 1..], fields))
  {
    assert keys[i..][1..] == keys[i + 1..];
    UnlinesAppend(FieldLines(keys[i], fields[keys[i]]), FieldsLines(keys[i + 1..], fields));
  }

  /** One field as String writes it. */
  method FieldText(key: string, value: string) returns (text: string)
    ensures text == Unlines(FieldLines(key, value))
  {
    var pieces := Split(value, '\n');
    if |pieces| == 1 {
      text := key + ": " + value + "\n";
      assert Unlines([key + ": " + value]) == key + ": " + value + "\n" + Unlines([]);
    } else {
      text := key + ":" + "\n";
      ghost var all := Unlines(FieldLines(key, value));
      ConsUnlines(key + ":", PieceLines(pieces));
      assert pieces[0..] == pieces;
      for i := 0 to |pieces|
        invariant text + Unlines(PieceLines(pieces[i..])) == all
      {
        var piece := pieces[i];
        var line;
        if piece == "" {
          line := " ." + "\n";
        } else if piece[0] == ' ' || piece[0] == '\t' {
          line := piece + "\n";
        } else {
          line := " " + piece + "\n";
        }
        PiecesStep(pieces, i);
        Associates(text, line, Unlines(PieceLines(pieces[i + 1..])));
        text := text + line;
      }
      assert text + Unlines(PieceLines([])) == text;
    }
  }

  lemma ConsUnlines(line: string, lines: seq<string>)
    ensures Unlines([line] + lines) == line + "\n" + Unlines(lines)
  {
    assert ([line] + lines)[1..] == lines;
  }

  lemma PiecesStep(pieces: seq<string>, i: nat)
    requires i < |pieces|
    ensures Unlines(PieceLines(pieces[i..])) == PieceLine(pieces[i]) + "\n" + Unlines(PieceLines(pieces[i + 1..]))
  {
    assert PieceLines(pieces[i..])[1..] == PieceLines(pieces[i + 1..]);
  }

  // ----- ParseParagraphs -----

  ghost function Values(ps: seq<Paragraph>): (r: seq<Para>)
    reads ps
    ensures |r| == |ps| && forall i :: 0 <= i < |ps| ==> r[i] == ps[i].Value()
  {
    if ps == [] then [] else Values(ps[..|ps| - 1]) + [ps[|ps| - 1].Value()]
  }

  lemma ValuesSnoc(ps: seq<Paragraph>, p: Paragraph)
    ensures Values(ps + [p]) == Values(ps) + [p.Value()]
  {
    assert (ps + [p])[..|ps|] == ps;
  }

  /** The variables of ParseParagraphs, which its flushing closure shares. */
  class Parser {
    var paragraphs: seq<Paragraph>
    var current: Paragraph
    var currentKey: string
    var currentValue: string

    ghost predicate Valid()
      reads this
    {
      current !in paragraphs
    }

    ghost function Abstract(): State
      reads this, current, paragraphs
    {
      State(Values(paragraphs), current.Value(), currentKey, currentValue)
    }

    constructor ()
      ensures Valid() && Abstract() == START && fresh(current) && paragraphs == []
    {
      paragraphs, currentKey, currentValue := [], "", "";
      current := new Paragraph();
    }

    method FlushField()
      requires Valid()
      modifies this`currentKey, this`currentValue, current
      ensures Valid() && Abstract() == Flush(old(Abstract()))
    {
      if currentKey != "" {
        var val := TrimNewlines(currentValue);
        current.Set(currentKey, val);
        currentKey := "";
        currentValue := "";
      }
    }

    method EndParagraph()
      requires Valid()
      modifies this`paragraphs, this`current
      ensures Valid() && Abstract() == Push(old(Abstract()))
      ensures current == old(current) || fresh(current)
      ensures paragraphs == old(paragraphs) || paragraphs == old(paragraphs) + [old(current)]
    {
      if |current.order| > 0 {
        ValuesSnoc(paragraphs, current);
        paragraphs := paragraphs + [current];
        current := new Paragraph();
      }
    }

    /** What happens behind the last line. */
    method EndOfText()
      requires Valid()
      modifies this, current
      ensures Values(paragraphs) == Finish(old(Abstract()))
      ensures paragraphs == old(paragraphs) || paragraphs == old(paragraphs) + [old(current)]
    {
      ghost var start := Abstract();
      FlushField();
      assert Abstract() == Flush(start);
      EndParagraph();
      assert Abstract() == Push(Flush(start));
    }

    method Continue(line: string)
      requires Valid() && StartsBlank(line)
      modifies this`currentValue
      ensures Valid() && Abstract() == old(Abstract()).(value :=
        if currentKey == "" then old(currentValue) else AppendCont(old(currentValue), line))
    {
      if currentKey != "" {
        var contLine := TrimPrefixChar(line, ' ');
        contLine := TrimPrefixChar(contLine, '\t');
        if contLine == "." {
          currentValue := currentValue + "\n";
        } else {
          if currentValue != "" && currentValue[|currentValue| - 1] != '\n' {
            currentValue := currentValue + "\n";
          }
          currentValue := currentValue + contLine;
        }
      }
    }

    /** The body of the scanning loop. */
    method Line(line: string)
      requires Valid()
      modifies this, current
      ensures Valid() && Abstract() == Step(old(Abstract()), line)
      ensures current == old(current) || fresh(current)
      ensures paragraphs == old(paragraphs) || paragraphs == old(paragraphs) + [old(current)]
    {
      var trimmed := TrimSpace(line);
      if trimmed != "" && trimmed[0] == '#' {
        return;
      }
      if trimmed == "" {
        FlushField();
        EndParagraph();
        return;
      }
      if line[0] == ' ' || line[0] == '\t' {
        Continue(line);
        return;
      }
      FlushField();
      var colon := IndexOf(line, ':');
      if colon < |line| {
        currentKey := TrimSpace(line[..colon]);
        currentValue := currentValue + TrimSpace(line[colon + 1..]);
      }
    }
  }

  lemma RunStep(st: State, lines: seq<string>, i: nat)
    requires i < |lines|
    ensures Run(st, lines[i..]) == Run(Step(st, lines[i]), lines[i + 1..])
  {
    assert lines[i..][1..] == lines[i + 1..];
  }

  /** The scanning loop. */
  method ScanAll(parser: Parser, lines: seq<string>)
    requires parser.Valid()
    modifies parser, parser.current
    ensures parser.Valid() && parser.Abstract() == Run(old(parser.Abstract()), lines)
    ensures parser.current == old(parser.current) || fresh(parser.current)
    ensures forall p :: p in parser.paragraphs ==> p in old(parser.paragraphs) || p == old(parser.current) || fresh(p)
  {
    ghost var start := parser.Abstract();
    assert lines[0..] == lines;
    for i := 0 to |lines|
      invariant parser.Valid()
      invariant parser.current == old(parser.current) || fresh(parser.current)
      invariant forall p :: p in parser.paragraphs ==>
          p in old(parser.paragraphs) || p == old(parser.current) || fresh(p)
      invariant Run(parser.Abstract(), lines[i..]) == Run(start, lines)
    {
      RunStep(parser.Abstract(), lines, i);
      parser.Line(lines[i]);
    }
    assert lines[|lines|..] == [];
  }

  /** For every text the paragraphs are those of ParseText. */
  method ParseParagraphs(text: string) returns (paragraphs: seq<Paragraph>)
    ensures Values(paragraphs) == ParseText(text)
    ensures forall p :: p in paragraphs ==> fresh(p)
  {
    var parser := new Parser();
    ScanAll(parser, ScanLines(text));
    parser.EndOfText();
    paragraphs := parser.paragraphs;
  }
}
