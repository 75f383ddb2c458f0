/** strings.Fields: the words between runs of blanks. */
module Words {
  import opened Text

  predicate IsWord(s: string) {
    forall i :: 0 <= i < |s| ==> !IsSpace(s[i])
  }

  /** The position of the first blank, or the length. */
  function BlankIndex(s: string): (i: nat)
    ensures i <= |s| && (forall j :: 0 <= j < i ==> !IsSpace(s[j])) && (i < |s| ==> IsSpace(s[i]))
  {
    if s == "" || IsSpace(s[0]) then 0 else 1 + BlankIndex(s[1..])
  }

  lemma {:induction false} TrimLeftShrinks(s: string)
    ensures |TrimLeft(s)| <= |s| && (TrimLeft(s) != "" ==> !IsSpace(TrimLeft(s)[0]))
  {
    if s != "" && IsSpace(s[0]) { TrimLeftShrinks(s[1..]); }
  }

  /** The words between runs of blanks. */
  function Fields(s: string): seq<string>
    decreases |s|
  {
    TrimLeftShrinks(s);
    var t := TrimLeft(s);
    if t == "" then [] else
    var n := BlankIndex(t);
    [t[..n]] + Fields(t[n..])
  }

  lemma {:induction false} BlankIndexIs(w: string, rest: string)
    requires IsWord(w) && (rest == "" || IsSpace(rest[0]))
    ensures BlankIndex(w + rest) == |w|
  {
    if w == "" {
      assert w + rest == rest;
    } else {
      assert (w + rest)[1..] == w[1..] + rest;
      BlankIndexIs(w[1..], rest);
    }
  }

  lemma {:induction false} TrimGap(gap: string, rest: string)
    requires Blank(gap)
    ensures TrimLeft(gap + rest) == TrimLeft(rest)
  {
    if gap == "" {
      assert gap + rest == rest;
    } else {
      assert (gap + rest)[1..] == gap[1..] + rest;
      TrimGap(gap[1..], rest);
    }
  }

  /** Blanks in front do not count. */
  lemma FieldsSkip(gap: string, rest: string)
    requires Blank(gap)
    ensures Fields(gap + rest) == Fields(rest)
  {
    TrimGap(gap, rest);
  }

  /** A word at the front, up to the end or to blanks, is the first one. */
  lemma FieldsFirst(w: string, rest: string)
    requires w != "" && IsWord(w) && (rest == "" || IsSpace(rest[0]))
    ensures Fields(w + rest) == [w] + Fields(rest)
  {
    var t := w + rest;
    assert t[0] == w[0] && TrimLeft(t) == t;
    BlankIndexIs(w, rest);
    assert t[..|w|] == w && t[|w|..] == rest;
  }

  /** Three words with blanks between them. */
  lemma ThreeFields(a: string, gap: string, b: string, gap': string, c: string)
    requires a != "" && b != "" && c != "" && IsWord(a) && IsWord(b) && IsWord(c)
    requires gap != "" && gap' != "" && Blank(gap) && Blank(gap')
    ensures Fields(a + (gap + (b + (gap' + c)))) == [a, b, c]
  {
    FieldsFirst(a, gap + (b + (gap' + c)));
    FieldsSkip(gap, b + (gap' + c));
    FieldsFirst(b, gap' + c);
    FieldsSkip(gap', c);
    FieldsFirst(c, "");
    assert c + "" == c && Fields("") == [];
  }
}
