/** The deb822 printer and the line-driven parser, section 5.1 of the Debian Policy Manual
    and deb822(5), as functions on values. Deb822Code proves the imperative code against them. */
module Deb822 {
  import opened Text

  /** A paragraph: field names in order of first appearance, and their values. */
  datatype Para = Para(order: seq<string>, fields: map<string, string>)

  const EMPTY: Para := Para([], map[])

  function SetField(p: Para, key: string, value: string): Para {
    Para(if key in p.fields then p.order else p.order + [key], p.fields[key := value])
  }

  predicate Distinct(keys: seq<string>) {
    forall i, j :: 0 <= i < j < |keys| ==> keys[i] != keys[j]
  }

  /** What Set keeps: the order lists every field once. */
  predicate WellFormed(p: Para) {
    Distinct(p.order) && (forall k :: k in p.order ==> k in p.fields) && (forall k :: k in p.fields ==> k in p.order)
  }

  predicate Has(p: Para, name: string, value: string) {
    name in p.fields && p.fields[name] == value
  }

  /** The field has this value, and is left out when that is empty. */
  predicate HasUnlessEmpty(p: Para, name: string, value: string) {
    if value == "" then name !in p.fields else Has(p, name, value)
  }

  // ----- printing -----

  predicate StartsBlank(s: string) { s != "" && (s[0] == ' ' || s[0] == '\t') }

  function PieceLine(piece: string): string {
    if piece == "" then " ." else if StartsBlank(piece) then piece else " " + piece
  }

  function PieceLines(pieces: seq<string>): (r: seq<string>)
    ensures |r| == |pieces|
  {
    seq(|pieces|, i requires 0 <= i < |pieces| => PieceLine(pieces[i]))
  }

  function FieldLines(key: string, value: string): seq<string> {
    var pieces := Split(value, '\n');
    if |pieces| == 1 then [key + ": " + value] else [key + ":"] + PieceLines(pieces)
  }

  function FieldsLines(keys: seq<string>, fields: map<string, string>): seq<string>
    requires forall k :: k in keys ==> k in fields
  {
    if keys == [] then [] else FieldLines(keys[0], fields[keys[0]]) + FieldsLines(keys[1..], fields)
  }

  function ParaLines(p: Para): seq<string>
    requires WellFormed(p)
  {
    FieldsLines(p.order, p.fields)
  }

  /** Paragraph.String */
  function PrintPara(p: Para): string
    requires WellFormed(p)
  {
    Unlines(ParaLines(p))
  }

  predicate AllWellFormed(ps: seq<Para>) {
    forall i :: 0 <= i < |ps| ==> WellFormed(ps[i])
  }

  /** Paragraphs one after another, each followed by an empty line, as Index.Serialize writes them. */
  function ParasLines(ps: seq<Para>): seq<string>
    requires AllWellFormed(ps)
  {
    if ps == [] then [] else ParaLines(ps[0]) + [""] + ParasLines(ps[1..])
  }

  function PrintParas(ps: seq<Para>): string
    requires AllWellFormed(ps)
  {
    Unlines(ParasLines(ps))
  }

  // ----- parsing -----

  /** The mutable state of the line loop. */
  datatype State = State(done: seq<Para>, current: Para, key: string, value: string)

  const START: State := State([], EMPTY, "", "")

  /** The pending value is cleared only together with a pending key. */
  function Flush(st: State): State {
    if st.key == "" then st
    else State(st.done, SetField(st.current, st.key, TrimNewlines(st.value)), "", "")
  }

  function Push(st: State): State {
    if st.current.order == [] then st else st.(done := st.done + [st.current], current := EMPTY)
  }

  predicate Comment(line: string) {
    var t := TrimSpace(line);
    t != "" && t[0] == '#'
  }

  function ContLine(line: string): string {
    TrimPrefixChar(TrimPrefixChar(line, ' '), '\t')
  }

  predicate EndsOpen(acc: string) { acc != "" && acc[|acc| - 1] != '\n' }

  function AppendCont(acc: string, line: string): string {
    var c := ContLine(line);
    if c == "." then acc + "\n"
    else if EndsOpen(acc) then acc + "\n" + c
    else acc + c
  }

  function NewField(st: State, line: string): State {
    var i := IndexOf(line, ':');
    if i == |line| then st
    else st.(key := TrimSpace(line[..i]), value := st.value + TrimSpace(line[i + 1..]))
  }

  function Step(st: State, line: string): State {
    if Comment(line) then st
    else if TrimSpace(line) == "" then Push(Flush(st))
    else if StartsBlank(line) then
      if st.key == "" then st else st.(value := AppendCont(st.value, line))
    else NewField(Flush(st), line)
  }

  function Run(st: State, lines: seq<string>): State
    decreases |lines|
  {
    if lines == [] then st else Run(Step(st, lines[0]), lines[1..])
  }

  function Finish(st: State): seq<Para> {
    Push(Flush(st)).done
  }

  /** ParseParagraphs */
  function ParseText(text: string): seq<Para> {
    Finish(Run(START, ScanLines(text)))
  }

  lemma {:induction false} RunAppend(st: State, a: seq<string>, b: seq<string>)
    ensures Run(st, a + b) == Run(Run(st, a), b)
    decreases |a|
  {
    if a == [] {
      assert a + b == b;
    } else {
      assert (a + b)[1..] == a[1..] + b;
      RunAppend(Step(st, a[0]), a[1..], b);
    }
  }

  lemma RunOne(st: State, line: string)
    ensures Run(st, [line]) == Step(st, line)
  {
    assert Run(Step(st, line), []) == Step(st, line);
  }
}
