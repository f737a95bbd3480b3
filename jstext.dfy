/**
 * Models of the ECMAScript string operations the code relies on:
 * template literals, `String.prototype.trim`, and the decimal text a
 * template literal gives an integer.
 */
module JsText {
  import opened Wrappers

  /** `t` occurs in `s` as a contiguous infix. */
  predicate Contains(s: string, t: string) {
    exists i :: 0 <= i <= |s| - |t| && OccursAt(s, t, i)
  }

  predicate OccursAt(s: string, t: string, i: int) {
    0 <= i <= |s| - |t| && s[i..i + |t|] == t
  }

  lemma ContainsMiddle(a: string, b: string, c: string)
    ensures Contains(a + b + c, b)
  {
    var s := a + b + c;
    assert OccursAt(s, b, |a|);
  }

  /** The two halves of `a + b`, read back. */
  lemma AppendParts(a: string, b: string)
    ensures |a + b| == |a| + |b| && (a + b)[..|a|] == a && (a + b)[|a|..] == b
    ensures forall i :: |a| <= i < |a + b| ==> (a + b)[i] == b[i - |a|]
  {
  }

  /** A template literal's text: its fixed parts and substitutions joined in order. */
  function Concat(ps: seq<string>): string {
    if ps == [] then [] else ps[0] + Concat(ps[1..])
  }

  lemma {:induction false} ConcatAppend(ps: seq<string>, qs: seq<string>)
    ensures Concat(ps + qs) == Concat(ps) + Concat(qs)
  {
    if ps == [] {
      assert ps + qs == qs;
    } else {
      ConcatAppend(ps[1..], qs);
      assert (ps + qs)[1..] == ps[1..] + qs;
      assert ps[0] + (Concat(ps[1..]) + Concat(qs)) == ps[0] + Concat(ps[1..]) + Concat(qs);
    }
  }

  lemma Concat3(a: string, b: string, c: string)
    ensures Concat([a, b, c]) == a + b + c
  {
    assert [a, b, c][1..] == [b, c];
    assert [b, c][1..] == [c];
    assert [c][1..] == [];
    assert Concat([c]) == c + [] == c;
    assert a + (b + c) == a + b + c;
  }

  /** The joined text around piece `k`: what comes before it, the piece, what comes after. */
  lemma ConcatAround(ps: seq<string>, k: nat)
    requires k < |ps|
    ensures Concat(ps) == Concat(ps[..k]) + ps[k] + Concat(ps[k + 1..])
  {
    assert ps == ps[..k] + ps[k..];
    ConcatAppend(ps[..k], ps[k..]);
    assert ps[k..][1..] == ps[k + 1..];
  }

  lemma ConcatSplit(ps: seq<string>, k: nat)
    requires k <= |ps|
    ensures Concat(ps) == Concat(ps[..k]) + Concat(ps[k..])
  {
    assert ps == ps[..k] + ps[k..];
    ConcatAppend(ps[..k], ps[k..]);
  }

  /** The pieces from `i` on join as the pieces from `i` to `j` followed by the rest. */
  lemma ConcatFrom(ps: seq<string>, i: nat, j: nat)
    requires i <= j <= |ps|
    ensures Concat(ps[i..]) == Concat(ps[i..j]) + Concat(ps[j..])
  {
    var tail := ps[i..];
    ConcatSplit(tail, j - i);
    assert tail[..j - i] == ps[i..j];
    assert tail[j - i..] == ps[j..];
  }

  lemma ContainsInfix(a: string, b: string, c: string)
    ensures Contains(a + (b + c), b)
  {
    assert a + (b + c) == a + b + c;
    ContainsMiddle(a, b, c);
  }

  /** Any run of consecutive pieces occurs in the joined text. */
  lemma ConcatInfix(ps: seq<string>, i: nat, j: nat)
    requires i <= j <= |ps|
    ensures Contains(Concat(ps), Concat(ps[i..j]))
  {
    ConcatSplit(ps, i);
    ConcatFrom(ps, i, j);
    ContainsInfix(Concat(ps[..i]), Concat(ps[i..j]), Concat(ps[j..]));
  }

  /** Two piece lists that agree except at piece `k` join to the same text only if piece `k` agrees too. */
  lemma ConcatCancel(ps: seq<string>, qs: seq<string>, k: nat)
    requires k < |ps| == |qs| && ps[..k] == qs[..k] && ps[k + 1..] == qs[k + 1..]
    requires Concat(ps) == Concat(qs)
    ensures ps[k] == qs[k]
  {
    ConcatAround(ps, k);
    ConcatAround(qs, k);
    var n := |Concat(ps[..k])|;
    var m := |Concat(ps[k + 1..])|;
    assert |ps[k]| == |qs[k]|;
    assert Concat(ps)[n..n + |ps[k]|] == ps[k];
    assert Concat(qs)[n..n + |qs[k]|] == qs[k];
  }

  /**
   * Two piece lists that agree before piece `k` and whose `k`-th pieces
   * differ at position `j` join to different texts.
   */
  lemma ConcatDiffer(ps: seq<string>, qs: seq<string>, k: nat, j: nat)
    requires k < |ps| && k < |qs| && ps[..k] == qs[..k]
    requires j < |ps[k]| && j < |qs[k]| && ps[k][j] != qs[k][j]
    ensures Concat(ps) != Concat(qs)
  {
    ConcatAround(ps, k);
    ConcatAround(qs, k);
    var n := |Concat(ps[..k])|;
    assert Concat(ps)[n + j] == ps[k][j];
    assert Concat(qs)[n + j] == qs[k][j];
  }

  // ---------------------------------------------------------------------
  // String.prototype.trim

  /**
   * The code points `trim` strips: the WhiteSpace production (tab,
   * vertical tab, form feed, zero-width no-break space and every Zs
   * space separator) and the LineTerminator production (line feed,
   * carriage return, line and paragraph separators) of ECMA-262.
   */
  predicate IsJsWhiteSpace(c: char) {
    || c == '\t' || c == '\U{000B}' || c == '\U{000C}' || c == ' '
    || c == '\U{00A0}' || c == '\U{1680}' || ('\U{2000}' <= c <= '\U{200A}')
    || c == '\U{202F}' || c == '\U{205F}' || c == '\U{3000}' || c == '\U{FEFF}'
    || c == '\n' || c == '\r' || c == '\U{2028}' || c == '\U{2029}'
  }

  predicate AllWhiteSpace(s: string) {
    forall i :: 0 <= i < |s| ==> IsJsWhiteSpace(s[i])
  }

  /** Drops leading white space: what is left is a suffix of `s` that starts with a visible character. */
  function TrimStart(s: string): (r: string)
    ensures |r| <= |s| && r == s[|s| - |r|..]
    ensures AllWhiteSpace(s[..|s| - |r|])
    ensures r == [] || !IsJsWhiteSpace(r[0])
  {
    if s != [] && IsJsWhiteSpace(s[0]) then
      var r := TrimStart(s[1..]);
      assert s[..|s| - |r|] == [s[0]] + s[1..][..|s[1..]| - |r|];
      r
    else s
  }

  /** Drops trailing white space: what is left is a prefix of `s` that ends with a visible character. */
  function TrimEnd(s: string): (r: string)
    ensures |r| <= |s| && r == s[..|r|]
    ensures AllWhiteSpace(s[|r|..])
    ensures r == [] || !IsJsWhiteSpace(r[|r| - 1])
  {
    if s != [] && IsJsWhiteSpace(s[|s| - 1]) then
      var r := TrimEnd(s[..|s| - 1]);
      assert s[|r|..] == s[..|s| - 1][|r|..] + [s[|s| - 1]];
      r
    else s
  }

  /** `s.trim()` */
  function Trim(s: string): string {
    TrimEnd(TrimStart(s))
  }

  /** Leading white space is all there is exactly when nothing is left after dropping it. */
  lemma {:induction false} TrimStartBlank(s: string)
    ensures AllWhiteSpace(s) <==> TrimStart(s) == []
  {
    if s != [] && IsJsWhiteSpace(s[0]) {
      TrimStartBlank(s[1..]);
      assert forall i :: 1 <= i < |s| ==> s[i] == s[1..][i - 1];
    }
  }

  lemma {:induction false} TrimEndBlank(s: string)
    ensures AllWhiteSpace(s) <==> TrimEnd(s) == []
  {
    if s != [] && IsJsWhiteSpace(s[|s| - 1]) {
      TrimEndBlank(s[..|s| - 1]);
      assert forall i :: 0 <= i < |s| - 1 ==> s[i] == s[..|s| - 1][i];
    }
  }

  /** `s.trim()` is empty exactly when every character of `s` is white space. */
  lemma TrimEmptyIff(s: string)
    ensures Trim(s) == [] <==> AllWhiteSpace(s)
  {
    TrimStartBlank(s);
    TrimEndBlank(TrimStart(s));
  }

  // ---------------------------------------------------------------------
  // Decimal text of an integer, as `${n}` gives it

  predicate IsDigit(c: char) {
    '0' <= c <= '9'
  }

  function DigitChar(d: nat): (c: char)
    requires d < 10
    ensures IsDigit(c) && c as int - '0' as int == d
  {
    (48 + d) as char
  }

  /** The value of a string of decimal digits, most significant first. */
  function DigitsValue(s: string): int
    requires forall i :: 0 <= i < |s| ==> IsDigit(s[i])
  {
    if s == [] then 0
    else DigitsValue(s[..|s| - 1]) * 10 + (s[|s| - 1] as int - '0' as int)
  }

  /** Shortest decimal digits of `n`: no leading zero, and they read back as `n`. */
  function NatText(n: nat): (r: string)
    ensures |r| >= 1 && (forall i :: 0 <= i < |r| ==> IsDigit(r[i]))
    ensures |r| > 1 ==> r[0] != '0'
    ensures DigitsValue(r) == n
    decreases n
  {
    if n < 10 then [DigitChar(n)]
    else
      var high := NatText(n / 10);
      var r := high + [DigitChar(n % 10)];
      assert r[..|r| - 1] == high;
      r
  }

  /** Reads back a decimal integer with an optional leading minus sign. */
  function ParseInt(s: string): Option<int> {
    if |s| > 0 && s[0] == '-' then
      var d := s[1..];
      if |d| > 0 && forall i :: 0 <= i < |d| ==> IsDigit(d[i]) then Some(-DigitsValue(d)) else None
    else if |s| > 0 && forall i :: 0 <= i < |s| ==> IsDigit(s[i]) then Some(DigitsValue(s))
    else None
  }

  /** The text a template literal gives an integer: its shortest digits, with a minus sign when negative. */
  function IntText(n: int): (r: string)
    ensures ParseInt(r) == Some(n)
    ensures |r| > 0 && (IsDigit(r[0]) <==> n >= 0)
    ensures n < 0 ==> |r| >= 2 && r[0] == '-'
    ensures var d := if n < 0 then r[1..] else r; |d| > 1 ==> d[0] != '0'
  {
    if n < 0 then
      var r := "-" + NatText(-n);
      assert r[1..] == NatText(-n);
      r
    else NatText(n)
  }
}
