/** The exact domain of the round trip. A value comes back unchanged if and only if it is
    canonical; a paragraph, if and only if its names are plain and its values canonical. */
module Deb822Canonical {
  import opened Text
  import opened Deb822
  import opened Deb822RoundTrip
  import opened Deb822Shape

  /** A piece that the printer indents and the parser takes back as it was. */
  predicate CanonicalPiece(piece: string) {
    && !Blank(piece) && piece != "." && !StartsBlank(piece)
    && piece[|piece| - 1] != '\r' && !Comment(piece)
  }

  /** Empty pieces are kept only in front of the first piece with text. */
  predicate CanonicalFrom(open: bool, pieces: seq<string>)
    decreases |pieces|
  {
    if pieces == [] then true
    else if pieces[0] == "" then !open && CanonicalFrom(false, pieces[1..])
    else CanonicalPiece(pieces[0]) && CanonicalFrom(true, pieces[1..])
  }

  predicate CanonicalValue(value: string) {
    var pieces := Split(value, '\n');
    if |pieces| == 1 then Trimmed(value)
    else CanonicalFrom(false, pieces) && pieces[|pieces| - 1] != ""
  }

  predicate CanonicalPara(p: Para) {
    && WellFormed(p) && p.order != []
    && forall k :: k in p.fields ==> PlainKey(k) && CanonicalValue(p.fields[k])
  }

  // ----- one piece -----

  /** Where the text of the next piece would start. */
  function Next(acc: string): nat {
    if EndsOpen(acc) then |acc| + 1 else |acc|
  }

  lemma CommentOfLine(piece: string)
    requires !StartsBlank(piece) && piece != "" && piece[|piece| - 1] != '\r'
    ensures DropCR(PieceLine(piece)) == " " + piece
    ensures Comment(" " + piece) <==> Comment(piece)
  {
    TrimPadded(" ", piece, "");
    assert " " + piece + "" == " " + piece;
  }

  /** A canonical piece is absorbed whole, behind a line break if text came before. */
  lemma AbsorbCanonical(acc: string, piece: string)
    requires CanonicalPiece(piece)
    ensures Absorb(acc, piece) == if EndsOpen(acc) then acc + "\n" + piece else acc + piece
  {
    CommentOfLine(piece);
    assert (" " + piece)[1..] == piece;
  }

  lemma AbsorbEmpty(acc: string)
    ensures Absorb(acc, "") == acc + "\n"
  {
    assert DropCR(PieceLine("")) == " .";
    TrimPadded(" ", ".", "");
    assert " " + "." + "" == " .";
    TrimOfTrimmed(".");
    assert " ."[1..] == ".";
  }

  /** Any other piece loses at least one byte. */
  lemma AbsorbOther(acc: string, piece: string)
    requires piece != "" && Solid(piece) && !CanonicalPiece(piece)
    ensures Next(Absorb(acc, piece)) <= Next(acc) + |piece|
  {
    if !StartsBlank(piece) && piece[|piece| - 1] != '\r' {
      CommentOfLine(piece);
      if piece == "." { assert (" " + piece)[1..] == piece; }
    }
  }

  // ----- all pieces: no byte is lost exactly when every piece is canonical -----

  /** The length of the pieces joined, and one more. */
  function Room(pieces: seq<string>): nat {
    if pieces == [] then 0 else |pieces[0]| + 1 + Room(pieces[1..])
  }

  lemma {:induction false} JoinRoom(pieces: seq<string>)
    requires |pieces| >= 1
    ensures |Join(pieces, '\n')| + 1 == Room(pieces)
  {
    if |pieces| > 1 { JoinRoom(pieces[1..]); } else { assert Room(pieces[1..]) == 0; }
  }

  lemma AbsorbGain(acc: string, piece: string)
    requires Solid(piece) && NoChar(piece, '\n')
    ensures Next(Absorb(acc, piece)) <= Next(acc) + |piece| + 1
    ensures Next(Absorb(acc, piece)) == Next(acc) + |piece| + 1 ==>
            if piece == "" then !EndsOpen(acc) && !EndsOpen(Absorb(acc, piece))
                else CanonicalPiece(piece) && EndsOpen(Absorb(acc, piece))
  {
    if piece == "" {
      AbsorbEmpty(acc);
    } else if CanonicalPiece(piece) {
      AbsorbCanonical(acc, piece);
      assert piece[|piece| - 1] != '\n';
    } else {
      AbsorbOther(acc, piece);
    }
  }

  lemma {:induction false} NothingGained(acc: string, open: bool, pieces: seq<string>)
    requires AllSolid(pieces) && AllLines(pieces) && open == EndsOpen(acc)
    ensures Next(AbsorbAll(acc, pieces)) <= Next(acc) + Room(pieces)
    ensures Next(AbsorbAll(acc, pieces)) == Next(acc) + Room(pieces) ==> CanonicalFrom(open, pieces)
    decreases |pieces|
  {
    if pieces != [] {
      AbsorbGain(acc, pieces[0]);
      var acc' := Absorb(acc, pieces[0]);
      NothingGained(acc', EndsOpen(acc'), pieces[1..]);
    }
  }

  /** The later pieces, each behind a line break. */
  function Tail(pieces: seq<string>): string {
    if pieces == [] then "" else "\n" + Join(pieces, '\n')
  }

  lemma TailCons(pieces: seq<string>)
    requires pieces != []
    ensures Join(pieces, '\n') == pieces[0] + Tail(pieces[1..])
    ensures Tail(pieces) == "\n" + pieces[0] + Tail(pieces[1..])
  {
  }

  /** What absorbing does to a canonical or empty piece. */
  function Glue(acc: string, piece: string): string {
    if piece == "" then acc + "\n" else if EndsOpen(acc) then acc + "\n" + piece else acc + piece
  }

  function GlueAll(acc: string, pieces: seq<string>): string
    decreases |pieces|
  {
    if pieces == [] then acc else GlueAll(Glue(acc, pieces[0]), pieces[1..])
  }

  predicate EmptiesFirst(open: bool, pieces: seq<string>)
    decreases |pieces|
  {
    pieces != [] ==> (pieces[0] == "" ==> !open) && EmptiesFirst(pieces[0] != "", pieces[1..])
  }

  lemma {:induction false} AbsorbIsGlue(acc: string, open: bool, pieces: seq<string>)
    requires CanonicalFrom(open, pieces)
    ensures AbsorbAll(acc, pieces) == GlueAll(acc, pieces) && EmptiesFirst(open, pieces)
    decreases |pieces|
  {
    if pieces != [] {
      var p := pieces[0];
      if p == "" { AbsorbEmpty(acc); } else { AbsorbCanonical(acc, p); }
      AbsorbIsGlue(Glue(acc, p), p != "", pieces[1..]);
    }
  }

  lemma GlueOpens(acc: string, piece: string)
    requires piece != "" && NoChar(piece, '\n')
    ensures EndsOpen(Glue(acc, piece))
  {
    assert piece[|piece| - 1] != '\n';
  }

  lemma {:induction false} GlueOpen(acc: string, pieces: seq<string>)
    requires EndsOpen(acc) && EmptiesFirst(true, pieces) && AllLines(pieces)
    ensures GlueAll(acc, pieces) == acc + Tail(pieces)
    ensures EndsOpen(GlueAll(acc, pieces))
    decreases |pieces|
  {
    if pieces != [] {
      var p, rest := pieces[0], pieces[1..];
      GlueOpens(acc, p);
      GlueOpen(Glue(acc, p), rest);
      TailCons(pieces);
      assert acc + ("\n" + p + Tail(rest)) == acc + "\n" + p + Tail(rest);
    }
  }

  lemma JoinEmptyHead(pieces: seq<string>)
    requires |pieces| > 1 && pieces[0] == ""
    ensures Join(pieces, '\n') == "\n" + Join(pieces[1..], '\n')
  {
  }

  lemma {:induction false} GlueClosed(acc: string, pieces: seq<string>)
    requires !EndsOpen(acc) && EmptiesFirst(false, pieces) && AllLines(pieces)
    requires pieces != [] && pieces[|pieces| - 1] != ""
    ensures GlueAll(acc, pieces) == acc + Join(pieces, '\n') && EndsOpen(GlueAll(acc, pieces))
    decreases |pieces|
  {
    var p, rest := pieces[0], pieces[1..];
    if p == "" {
      GlueClosed(acc + "\n", rest);
      JoinEmptyHead(pieces);
      Associates(acc, "\n", Join(rest, '\n'));
    } else {
      GlueOpens(acc, p);
      GlueOpen(acc + p, rest);
      TailCons(pieces);
      Associates(acc, p, Tail(rest));
    }
  }

  lemma {:induction false} CanonicalIsSolid(open: bool, pieces: seq<string>)
    requires CanonicalFrom(open, pieces)
    ensures AllSolid(pieces)
    decreases |pieces|
  {
    if pieces != [] {
      CanonicalIsSolid(pieces[0] != "", pieces[1..]);
      assert forall i :: 1 <= i < |pieces| ==> pieces[i] == pieces[1..][i - 1];
    }
  }

  lemma LastPieceEmpty(value: string)
    requires var ps := Split(value, '\n'); |ps| > 1 && ps[|ps| - 1] == ""
    ensures value != "" && value[|value| - 1] == '\n'
  {
    var ps := Split(value, '\n');
    SplitPieces(value, '\n');
    var front := ps[..|ps| - 1];
    assert ps == front + [""];
    JoinSnoc(front, "", '\n');
  }

  lemma SingleReadBack(value: string)
    requires NoChar(value, '\n')
    ensures ReadBack(value) == value <==> Trimmed(value)
  {
    SplitSingle(value, '\n');
    TrimKeeps(value, '\n');
    TrimOfTrimmed(value);
    var k := TrimNewlinesShape(TrimSpace(value));
    assert k == |TrimSpace(value)|;
  }

  lemma MultiKept(value: string, pieces: seq<string>)
    requires pieces == Split(value, '\n') && CanonicalFrom(false, pieces) && pieces[|pieces| - 1] != ""
    ensures AbsorbAll("", pieces) == value && TrimNewlines(value) == value
  {
    SplitPieces(value, '\n');
    AbsorbIsGlue("", false, pieces);
    GlueClosed("", pieces);
    assert "" + value == value;
  }

  /** Trimming line breaks off r cannot make up for a lost byte. */
  lemma TrimmedRoom(r: string, value: string)
    requires TrimNewlines(r) == value && value != ""
    ensures Next(r) >= |value| + 1 && value[|value| - 1] != '\n'
  {
    var k := TrimNewlinesShape(r);
  }

  lemma ManyPieces(value: string)
    requires |Split(value, '\n')| > 1
    ensures value != ""
  {
  }

  lemma MultiNothingLost(value: string, pieces: seq<string>)
    requires pieces == Split(value, '\n') && |pieces| > 1
    requires TrimNewlines(AbsorbAll("", pieces)) == value
    ensures Next(AbsorbAll("", pieces)) >= Room(pieces) && pieces[|pieces| - 1] != ""
  {
    SplitPieces(value, '\n');
    ManyPieces(value);
    TrimmedRoom(AbsorbAll("", pieces), value);
    JoinRoom(pieces);
    if pieces[|pieces| - 1] == "" { LastPieceEmpty(value); }
  }

  /** A printable value is read back unchanged if and only if it is canonical. */
  lemma ValueRoundTrip(value: string)
    requires Breakless(value)
    ensures ReadBack(value) == value <==> CanonicalValue(value)
  {
    SplitSingle(value, '\n');
    var pieces := Split(value, '\n');
    if |pieces| == 1 {
      SingleReadBack(value);
    } else {
      if CanonicalValue(value) { MultiKept(value, pieces); }
      if ReadBack(value) == value {
        MultiNothingLost(value, pieces);
        SplitPieces(value, '\n');
        NothingGained("", false, pieces);
      }
    }
  }

  lemma CanonicalIsBreakless(value: string)
    requires CanonicalValue(value)
    ensures Breakless(value)
  {
    var pieces := Split(value, '\n');
    if |pieces| > 1 { CanonicalIsSolid(false, pieces); }
  }

  // ----- whole paragraphs -----

  lemma CanonicalIsPrintable(p: Para)
    requires CanonicalPara(p)
    ensures Printable(p) && BackPara(p) == p
  {
    forall k | k in p.fields ensures Breakless(p.fields[k]) && ReadBack(p.fields[k]) == p.fields[k] {
      CanonicalIsBreakless(p.fields[k]);
      ValueRoundTrip(p.fields[k]);
    }
    SameMap(BackFields(p.fields), p.fields);
  }

  lemma PrintableIsCanonical(p: Para)
    requires Printable(p) && BackPara(p) == p
    ensures CanonicalPara(p)
  {
    forall k | k in p.fields ensures CanonicalValue(p.fields[k]) {
      assert BackFields(p.fields)[k] == ReadBack(p.fields[k]);
      ValueRoundTrip(p.fields[k]);
    }
  }

  /** Printed paragraphs are parsed back exactly if and only if every one is canonical. */
  lemma ParasRoundTrip(ps: seq<Para>)
    requires AllWellFormed(ps)
    ensures ParseText(PrintParas(ps)) == ps <==> forall i :: 0 <= i < |ps| ==> CanonicalPara(ps[i])
  {
    if forall i :: 0 <= i < |ps| ==> CanonicalPara(ps[i]) {
      forall i | 0 <= i < |ps| ensures Printable(ps[i]) && BackPara(ps[i]) == ps[i] {
        CanonicalIsPrintable(ps[i]);
      }
      ReadBackParas(ps);
      assert BackParas(ps) == ps;
    }
    if ParseText(PrintParas(ps)) == ps {
      ParsedIsPrintable(PrintParas(ps));
      ReadBackParas(ps);
      forall i | 0 <= i < |ps| ensures CanonicalPara(ps[i]) {
        assert BackParas(ps)[i] == BackPara(ps[i]);
        PrintableIsCanonical(ps[i]);
      }
    }
  }

  lemma SplitTwo(a: string, b: string)
    requires NoChar(a, '\n') && NoChar(b, '\n')
    ensures Split(a + "\n" + b, '\n') == [a, b]
  {
    SplitNone(a, '\n');
    SplitNone(b, '\n');
    SplitSep(a, b, '\n');
    assert "\n" == ['\n'];
  }

  lemma AbsorbTwo(acc: string, a: string, b: string)
    ensures AbsorbAll(acc, [a, b]) == Absorb(Absorb(acc, a), b)
  {
    assert [a, b][1..] == [b];
    assert AbsorbAll(Absorb(acc, a), [b]) == Absorb(Absorb(acc, a), b);
  }

  lemma AbsorbIndented(acc: string, piece: string)
    requires CanonicalPiece(piece) && EndsOpen(acc)
    ensures Absorb(acc, " " + piece) == acc + "\n" + piece
  {
    CommentOfLine(piece);
    assert Absorb(acc, " " + piece) == Absorb(acc, piece);
    AbsorbCanonical(acc, piece);
  }

  lemma FirstAbsorbed(first: string)
    requires CanonicalPiece(first)
    ensures Absorb("", first) == first
  {
    AbsorbCanonical("", first);
    assert "" + first == first;
  }

  lemma IndentCollected(first: string, piece: string)
    requires CanonicalPiece(first) && CanonicalPiece(piece) && EndsOpen(first)
    ensures AbsorbAll("", [first, " " + piece]) == first + "\n" + piece
  {
    FirstAbsorbed(first);
    AbsorbIndented(first, piece);
    AbsorbTwo("", first, " " + piece);
  }

  /** Outside the domain: every printing and reading takes one blank of indentation away. */
  lemma IndentErodes(first: string, piece: string)
    requires CanonicalPiece(first) && CanonicalPiece(piece) && NoChar(first, '\n') && NoChar(piece, '\n')
    ensures ReadBack(first + "\n" + (" " + piece)) == first + "\n" + piece
  {
    SplitTwo(first, " " + piece);
    TwoPieces(first + "\n" + (" " + piece), first, " " + piece);
    PieceEndsOpen(first);
    IndentCollected(first, piece);
    EndIsKept(first + "\n", piece);
  }

  lemma PieceEndsOpen(piece: string)
    requires CanonicalPiece(piece) && NoChar(piece, '\n')
    ensures piece != "" && EndsOpen(piece)
  {
    assert piece[|piece| - 1] != '\n';
  }

  lemma EndIsKept(front: string, piece: string)
    requires CanonicalPiece(piece) && NoChar(piece, '\n')
    ensures TrimNewlines(front + piece) == front + piece
  {
    PieceEndsOpen(piece);
    assert (front + piece)[|front + piece| - 1] == piece[|piece| - 1];
  }

  lemma TwoPieces(value: string, first: string, second: string)
    requires Split(value, '\n') == [first, second]
    ensures Collected(value) == AbsorbAll("", [first, second])
  {
  }
}
