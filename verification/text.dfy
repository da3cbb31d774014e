/** The two string operations the page filters rely on: lower-casing and
    substring search (`String.prototype.toLowerCase` and `includes`).
    Lower-casing is modelled on ASCII letters only. */
module Text {

  function LowerChar(c: char): char
  {
    if 'A' <= c <= 'Z' then (c as int + 32) as char else c
  }

  /** `s.toLowerCase()` restricted to ASCII: same length, each character
      lower-cased on its own. */
  function Lower(s: string): (r: string)
    ensures |r| == |s|
    ensures forall i :: 0 <= i < |s| ==> r[i] == LowerChar(s[i])
  {
    if s == [] then [] else [LowerChar(s[0])] + Lower(s[1..])
  }

  /** Lower-casing twice is lower-casing once. */
  lemma LowerIdempotent(s: string)
    ensures Lower(Lower(s)) == Lower(s)
  {
    assert forall i :: 0 <= i < |s| ==> Lower(Lower(s))[i] == Lower(s)[i];
  }

  /** `needle` sits in `hay` starting at offset `i`. */
  ghost predicate At(needle: string, hay: string, i: int)
  {
    0 <= i && i + |needle| <= |hay| && hay[i..i + |needle|] == needle
  }

  /** The independent definition of "contains": some offset holds the needle. */
  ghost predicate Occurs(needle: string, hay: string)
  {
    exists i :: At(needle, hay, i)
  }

  /** An occurrence in a non-empty haystack is either at its front or in its tail. */
  lemma OccursStep(needle: string, hay: string)
    requires hay != []
    ensures Occurs(needle, hay) <==> needle <= hay || Occurs(needle, hay[1..])
  {
    if Occurs(needle, hay) {
      var i :| At(needle, hay, i);
      if i > 0 {
        assert hay[1..][i - 1..i - 1 + |needle|] == hay[i..i + |needle|];
        assert At(needle, hay[1..], i - 1);
      } else {
        assert hay[..|needle|] == needle;
      }
    }
    if needle <= hay {
      assert hay[0..|needle|] == needle;
      assert At(needle, hay, 0);
    }
    if Occurs(needle, hay[1..]) {
      var j :| At(needle, hay[1..], j);
      assert hay[j + 1..j + 1 + |needle|] == hay[1..][j..j + |needle|];
      assert At(needle, hay, j + 1);
    }
  }

  /** `hay.includes(needle)`: true exactly when the needle occurs somewhere. */
  function Includes(hay: string, needle: string): (b: bool)
    ensures b <==> Occurs(needle, hay)
    decreases |hay|
  {
    if needle <= hay then
      assert At(needle, hay, 0) by { assert hay[0..|needle|] == needle; }
      true
    else if hay == [] then
      false
    else
      OccursStep(needle, hay);
      Includes(hay[1..], needle)
  }

  /** Every string contains the empty string. */
  lemma IncludesEmpty(hay: string)
    ensures Includes(hay, "")
  {
  }

  /** Lower-cased containment: the comparison every page filter makes. */
  function MatchesIgnoringCase(text: string, filter: string): (b: bool)
    ensures b <==> Occurs(Lower(filter), Lower(text))
  {
    Includes(Lower(text), Lower(filter))
  }

  /** A text matches a filter whose lower-case form sits inside the text's
      lower-case form; in particular a filter equal to the text ignoring
      case matches. */
  lemma MatchesSelf(text: string)
    ensures MatchesIgnoringCase(text, text)
  {
    assert At(Lower(text), Lower(text), 0);
  }

  /** The value of one decimal digit (0 for any other character). */
  function DigitValue(c: char): (d: nat)
    ensures d < 10
  {
    if '0' <= c <= '9' then c as int - 48 else 0
  }

  /** The number a string of decimal digits denotes, most significant first:
      the inverse `String(n)` is checked against. */
  function DigitsValue(ds: string): nat
    decreases |ds|
  {
    if ds == [] then 0 else DigitsValue(ds[..|ds| - 1]) * 10 + DigitValue(ds[|ds| - 1])
  }

  /** Decimal digits of a natural number, most significant first (`String(n)`):
      digits only, no leading zero, and denoting `n`. */
  function NatToString(n: nat): (r: string)
    ensures |r| > 0
    ensures forall i :: 0 <= i < |r| ==> '0' <= r[i] <= '9'
    ensures |r| > 1 ==> r[0] != '0'
    ensures DigitsValue(r) == n
    decreases n
  {
    if n < 10 then [(48 + n) as char]
    else
      var front := NatToString(n / 10);
      var r := front + [(48 + n % 10) as char];
      assert r[..|r| - 1] == front;
      r
  }

  /** `String(n)` for an integer: a leading '-' for negatives, then the
      decimal digits of the magnitude. */
  function IntToString(n: int): (r: string)
    ensures |r| > 0
    ensures (n < 0) <==> r[0] == '-'
    ensures forall i :: (if n < 0 then 1 else 0) <= i < |r| ==> '0' <= r[i] <= '9'
    ensures n >= 0 && |r| > 1 ==> r[0] != '0'
    ensures n < 0 && |r| > 2 ==> r[1] != '0'
    ensures n >= 0 ==> DigitsValue(r) == n
    ensures n < 0 ==> |r| > 1 && DigitsValue(r[1..]) == -n
  {
    if n < 0 then
      var r := "-" + NatToString(-n);
      assert r[1..] == NatToString(-n);
      r
    else NatToString(n)
  }

  /** Distinct integers print differently. */
  lemma IntToStringInjective(a: int, b: int)
    requires IntToString(a) == IntToString(b)
    ensures a == b
  {
    if a < 0 {
      assert IntToString(a)[1..] == IntToString(b)[1..];
    }
  }
}
