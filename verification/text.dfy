/** The string primitives the component relies on: `String.prototype.trim`,
    the decimal rendering of a number inside a template literal,
    `split(' ')[0]`, and substring containment for stating prompt contents. */
module Text {

  /** The ECMAScript WhiteSpace and LineTerminator code points, the set that
      `String.prototype.trim` strips (section 22.1.3.32 of ECMA-262); the
      space separators are the Unicode category Zs. */
  predicate IsWhitespace(c: char) {
    || c == '\t' || c == '\U{000B}' || c == '\U{000C}' || c == '\U{FEFF}'
    || c == ' ' || c == '\U{00A0}' || c == '\U{1680}'
    || ('\U{2000}' <= c <= '\U{200A}')
    || c == '\U{202F}' || c == '\U{205F}' || c == '\U{3000}'
    || c == '\n' || c == '\r' || c == '\U{2028}' || c == '\U{2029}'
  }

  /** Every character of `s` is whitespace (vacuously true of ""). */
  predicate Blank(s: string) {
    forall i :: 0 <= i < |s| ==> IsWhitespace(s[i])
  }

  /** `s` with its leading whitespace removed. */
  function TrimStart(s: string): (r: string)
    ensures |r| <= |s| && r == s[|s| - |r|..]
    ensures Blank(s[..|s| - |r|])
    ensures r == [] || !IsWhitespace(r[0])
  {
    if |s| > 0 && IsWhitespace(s[0]) then
      var rest := s[1..];
      var t := TrimStart(rest);
      var k := |s| - |t|;
      assert rest[k - 1..] == s[k..];
      var dropped := s[..k];
      var droppedRest := rest[..k - 1];
      assert Blank(dropped) by {
        forall i | 0 <= i < |dropped| ensures IsWhitespace(dropped[i]) {
          if i > 0 {
            assert dropped[i] == droppedRest[i - 1];
          }
        }
      }
      t
    else s
  }

  /** `s` with its trailing whitespace removed. */
  function TrimEnd(s: string): (r: string)
    ensures |r| <= |s| && r == s[..|r|]
    ensures Blank(s[|r|..])
    ensures r == [] || !IsWhitespace(r[|r| - 1])
  {
    if |s| > 0 && IsWhitespace(s[|s| - 1]) then
      var init := s[..|s| - 1];
      var t := TrimEnd(init);
      assert t == s[..|t|] by {
        assert init[..|t|] == s[..|t|];
      }
      assert Blank(s[|t|..]) by {
        forall i | 0 <= i < |s| - |t| ensures IsWhitespace(s[|t|..][i]) {
          if i < |s| - 1 - |t| {
            assert s[|t|..][i] == init[|t|..][i];
          } else {
            assert s[|t|..][i] == s[|s| - 1];
          }
        }
      }
      t
    else s
  }

  /** `String.prototype.trim`: both ends stripped. The result is a slice of
      `s` that neither begins nor ends with whitespace, and everything cut
      off on either side is whitespace. */
  function Trim(s: string): (r: string)
    ensures exists i :: 0 <= i <= |s| - |r| && r == s[i..i + |r|] && Blank(s[..i]) && Blank(s[i + |r|..])
    ensures r == [] || (!IsWhitespace(r[0]) && !IsWhitespace(r[|r| - 1]))
  {
    var t := TrimStart(s);
    var r := TrimEnd(t);
    var i := |s| - |t|;
    assert s[i..i + |r|] == t[..|r|];
    assert Blank(s[i + |r|..]) by {
      assert s[i + |r|..] == t[|r|..];
    }
    r
  }

  /** The outline check `!outline.trim()`: the trimmed text is the empty
      string exactly when the text is whitespace only. */
  lemma TrimEmptyIffBlank(s: string)
    ensures Blank(s) ==> Trim(s) == ""
    ensures Trim(s) == "" ==> Blank(s)
  {
  }

  /** The digit character for `d`. */
  function DigitChar(d: nat): char
    requires d < 10
  {
    "0123456789"[d]
  }

  predicate IsDigit(c: char) {
    '0' <= c <= '9'
  }

  function DigitValue(c: char): nat
    requires IsDigit(c)
  {
    (c as int - '0' as int) as nat
  }

  /** The text `${n}` yields for a non-negative integer `n`: its decimal
      digits, most significant first, without leading zeros. */
  function ShowNat(n: nat): (r: string)
    ensures |r| > 0
    ensures forall i :: 0 <= i < |r| ==> IsDigit(r[i])
    ensures r[0] == '0' ==> n == 0
  {
    if n < 10 then [DigitChar(n)] else ShowNat(n / 10) + [DigitChar(n % 10)]
  }

  /** The value of a string of decimal digits. */
  function ParseNat(s: string): nat
    requires forall i :: 0 <= i < |s| ==> IsDigit(s[i])
  {
    if |s| == 0 then 0 else 10 * ParseNat(s[..|s| - 1]) + DigitValue(s[|s| - 1])
  }

  /** Reading the rendered digits back gives the number that was rendered. */
  lemma {:induction false} ParseShowNat(n: nat)
    ensures ParseNat(ShowNat(n)) == n
  {
    var r := ShowNat(n);
    if n >= 10 {
      ParseShowNat(n / 10);
      assert r[..|r| - 1] == ShowNat(n / 10);
    }
  }

  /** Distinct numbers render differently. */
  lemma ShowNatInjective(m: nat, n: nat)
    ensures ShowNat(m) == ShowNat(n) ==> m == n
  {
    ParseShowNat(m);
    ParseShowNat(n);
  }

  /** `split(sep)[0]`: the text before the first `sep`, or all of `s` when
      `sep` does not occur. */
  function BeforeFirst(s: string, sep: char): (r: string)
    ensures |r| <= |s| && r == s[..|r|]
    ensures sep !in r
    ensures |r| < |s| ==> s[|r|] == sep
  {
    if |s| == 0 || s[0] == sep then "" else [s[0]] + BeforeFirst(s[1..], sep)
  }

  /** Splitting at the first separator recovers a separator-free prefix. */
  lemma {:induction false} BeforeFirstOf(a: string, sep: char, b: string)
    requires sep !in a
    ensures BeforeFirst(a + [sep] + b, sep) == a
  {
    if |a| > 0 {
      BeforeFirstOf(a[1..], sep, b);
      assert (a + [sep] + b)[1..] == a[1..] + [sep] + b;
    }
  }

  /** Splitting text that continues with the separator right after a
      separator-free head yields that head. */
  lemma BeforeFirstAt(a: string, sep: char, b: string)
    requires sep !in a && |b| > 0 && b[0] == sep
    ensures BeforeFirst(a + b, sep) == a
  {
    assert a + b == a + [sep] + b[1..];
    BeforeFirstOf(a, sep, b[1..]);
  }

  /** `needle` occurs in `hay` starting at index `i`. */
  predicate OccursAt(hay: string, needle: string, i: int) {
    0 <= i && i + |needle| <= |hay| && hay[i..i + |needle|] == needle
  }

  /** `hay.includes(needle)`. */
  predicate Contains(hay: string, needle: string) {
    exists i | 0 <= i <= |hay| :: OccursAt(hay, needle, i)
  }
}
