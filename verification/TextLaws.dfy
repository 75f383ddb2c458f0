/** What the comparison of texts and the printing of numbers give, apart from how they are computed. */
module TextLaws {
  import opened Text

  // ----- byte order -----

  /** The first different byte decides. */
  lemma {:induction false} SmallerByteFirst(u: string, c: char, s: string, d: char, t: string)
    requires c < d
    ensures Compare(u + [c] + s, u + [d] + t) == -1
  {
    var a, b := u + [c] + s, u + [d] + t;
    if u == "" {
      assert a[0] == c && b[0] == d;
    } else {
      assert a[1..] == u[1..] + [c] + s && b[1..] == u[1..] + [d] + t;
      SmallerByteFirst(u[1..], c, s, d, t);
    }
  }

  /** A text sorts before its continuations. */
  lemma {:induction false} ShorterFirst(u: string, t: string)
    requires t != ""
    ensures Compare(u, u + t) == -1
  {
    if u == "" {
      assert u + t == t;
    } else {
      assert (u + t)[1..] == u[1..] + t;
      ShorterFirst(u[1..], t);
    }
  }

  // ----- decimal numbers -----

  const DIGITS: string := "0123456789"

  /** The digits of a number: one for a number below ten, one more for ten times a number. */
  lemma Decimal(n: nat, d: nat)
    requires d < 10
    ensures FormatInt(d) == [DIGITS[d]]
    ensures n > 0 ==> FormatInt(10 * n + d) == FormatInt(n) + [DIGITS[d]]
    ensures n > 0 ==> FormatInt(-(n as int)) == "-" + FormatInt(n)
  {
    assert (10 * n + d) / 10 == n && (10 * n + d) % 10 == d;
    DigitIs(d);
  }

  lemma DigitIs(d: nat)
    requires d < 10
    ensures DigitChar(d) == DIGITS[d]
  {
  }

  /** A number is read by its digits, behind an optional sign; nothing else is one, and none outside
      64 bits. */
  lemma Reads(n: nat)
    ensures var text := FormatInt(n);
      && (IsInt64(n) ==> ParseInt(text) == Some(n) && ParseInt("+" + text) == Some(n))
      && (IsInt64(-(n as int)) ==> ParseInt("-" + text) == Some(-(n as int)))
      && (n >= 0x8000_0000_0000_0000 ==> ParseInt(text) == None)
  {
    var text := FormatInt(n);
    assert IsDigit(text[0]);
    assert ("+" + text)[1..] == text && ("-" + text)[1..] == text;
  }

  lemma OnlyNumbersRead(s: string)
    ensures ParseInt(s).Some? ==>
      s != "" && var digits := if s[0] == '-' || s[0] == '+' then s[1..] else s;
                 digits != "" && forall i :: 0 <= i < |digits| ==> digits[i] in DIGITS
  {
    if ParseInt(s).Some? {
      var digits := if s[0] == '-' || s[0] == '+' then s[1..] else s;
      forall i | 0 <= i < |digits| ensures digits[i] in DIGITS { DigitListed(digits[i]); }
    }
  }

  lemma DigitListed(c: char)
    requires IsDigit(c)
    ensures c in DIGITS
  {
    assert c == DIGITS[c as int - '0' as int];
  }
}
