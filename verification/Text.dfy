/** The string methods the program leans on: `isspace`, `strip`, one-character `replace`, `str(int)`. */
module Text {

  /** `str.isspace` for one character. */
  predicate IsSpace(c: char) {
    || '\t' <= c <= '\r' || '\U{1C}' <= c <= ' ' || c == '\U{85}' || c == '\U{A0}' || c == '\U{1680}'
    || '\U{2000}' <= c <= '\U{200A}' || c == '\U{2028}' || c == '\U{2029}' || c == '\U{202F}'
    || c == '\U{205F}' || c == '\U{3000}'
  }

  const SPACES := [
    '\t', '\n', '\U{B}', '\U{C}', '\r', '\U{1C}', '\U{1D}', '\U{1E}', '\U{1F}', ' ', '\U{85}', '\U{A0}', '\U{1680}',
    '\U{2000}', '\U{2001}', '\U{2002}', '\U{2003}', '\U{2004}', '\U{2005}', '\U{2006}', '\U{2007}', '\U{2008}', '\U{2009}',
    '\U{200A}', '\U{2028}', '\U{2029}', '\U{202F}', '\U{205F}', '\U{3000}'
  ]

  lemma SpacesAre(c: char)
    ensures IsSpace(c) <==> c in SPACES
  {
  }

  function StripLeft(s: string): (r: string)
    ensures |r| <= |s| && r == s[|s| - |r|..]
    ensures r != [] ==> !IsSpace(r[0])
  {
    if s != [] && IsSpace(s[0]) then StripLeft(s[1..]) else s
  }

  function StripRight(s: string): (r: string)
    ensures |r| <= |s| && r == s[..|r|]
    ensures r != [] ==> !IsSpace(r[|r| - 1])
  {
    if s != [] && IsSpace(s[|s| - 1]) then StripRight(s[..|s| - 1]) else s
  }

  function Strip(s: string): string {
    StripRight(StripLeft(s))
  }

  /** No white space at either end: what `s == s.strip()` tests. */
  predicate Trimmed(s: string) {
    s == [] || (!IsSpace(s[0]) && !IsSpace(s[|s| - 1]))
  }

  lemma TrimmedIffStripKeeps(s: string)
    ensures Trimmed(s) <==> Strip(s) == s
    ensures Trimmed(Strip(s))
  {
    var left := StripLeft(s);
    var r := StripRight(left);
    if r != [] { assert r[0] == left[0]; }
  }

  predicate AllSpace(s: string) {
    forall c :: c in s ==> IsSpace(c)
  }

  /** What is left of a text without the white space around it. */
  ghost predicate IsCore(text: string, r: string) {
    r != [] && Trimmed(r) && exists a, b :: AllSpace(a) && AllSpace(b) && text == a + r + b
  }

  lemma MoreSpace(c: char, s: string)
    requires IsSpace(c) && AllSpace(s)
    ensures AllSpace([c] + s) && AllSpace(s + [c])
  {
    hide IsSpace;
  }

  lemma {:induction false} SpaceOnTheLeft(s: string)
    ensures AllSpace(s[..|s| - |StripLeft(s)|])
  {
    hide AllSpace, IsSpace;
    var n := |s| - |StripLeft(s)|;
    if s != [] && IsSpace(s[0]) {
      SpaceOnTheLeft(s[1..]);
      MoreSpace(s[0], s[1..][..n - 1]);
      FrontOf(s, n);
    } else {
      assert s[..n] == [];
      NoSpace();
    }
  }

  lemma {:induction false} SpaceOnTheRight(s: string)
    ensures AllSpace(s[|StripRight(s)|..])
  {
    hide AllSpace, IsSpace;
    var m, n := |StripRight(s)|, |s| - 1;
    if s != [] && IsSpace(s[n]) {
      SpaceOnTheRight(s[..n]);
      MoreSpace(s[n], s[..n][m..]);
      BackOf(s, m);
    } else {
      assert s[m..] == [];
      NoSpace();
    }
  }

  lemma FrontOf(s: string, n: nat)
    requires 1 <= n <= |s|
    ensures s[..n] == [s[0]] + s[1..][..n - 1]
  {
  }

  lemma BackOf(s: string, m: nat)
    requires m < |s|
    ensures s[m..] == s[..|s| - 1][m..] + [s[|s| - 1]]
  {
  }

  lemma NoSpace()
    ensures AllSpace([])
  {
  }

  lemma Cut(s: string, i: nat, j: nat)
    requires i <= |s| && j <= |s[i..]|
    ensures s == s[..i] + s[i..][..j] + s[i..][j..]
  {
  }

  /** `strip` takes the white space around a text and nothing else; of nothing but white space it leaves nothing. */
  lemma StripLeavesCore(text: string)
    ensures Strip(text) == "" <==> AllSpace(text)
    ensures Strip(text) != "" ==> IsCore(text, Strip(text))
  {
    hide StripLeft, StripRight, AllSpace, Trimmed, IsCore;
    var left, r := StripLeft(text), Strip(text);
    var k := |text| - |left|;
    SpaceOnTheLeft(text);
    SpaceOnTheRight(left);
    TrimmedIffStripKeeps(text);
    Cut(text, k, |r|);
    SpaceJoins(text, text[..k], r, left[|r|..]);
  }

  lemma SpaceJoins(text: string, a: string, r: string, b: string)
    requires text == a + r + b && AllSpace(a) && AllSpace(b) && Trimmed(r)
    ensures AllSpace(text) <==> r == ""
    ensures r != "" ==> IsCore(text, r)
  {
    hide IsSpace;
    if r != "" { assert text[|a|] == r[0] && text[|a|] in text; }
  }

  /** There is only one such core. */
  lemma CoreIsOne(text: string, r: string, q: string)
    requires IsCore(text, r) && IsCore(text, q)
    ensures r == q
  {
    var a, b :| AllSpace(a) && AllSpace(b) && text == a + r + b;
    var c, d :| AllSpace(c) && AllSpace(d) && text == c + q + d;
    CoreStartsNoLater(a, r, b, c, q, d);
    CoreStartsNoLater(c, q, d, a, r, b);
    assert text[|a|..|a| + |r|] == r && text[|c|..|c| + |q|] == q;
  }

  lemma CoreStartsNoLater(a: string, r: string, b: string, c: string, q: string, d: string)
    requires a + r + b == c + q + d && AllSpace(a) && AllSpace(b)
    requires Trimmed(q) && q != []
    ensures |a| <= |c| && |b| <= |d|
  {
    var text := a + r + b;
    assert text == c + q + d;
    assert forall i :: 0 <= i < |a| ==> text[i] == a[i] && a[i] in a;
    assert forall i :: 0 <= i < |b| ==> text[|text| - |b| + i] == b[i] && b[i] in b;
    var first, last := |c|, |text| - |d| - 1;
    assert text[first] == q[0] && text[last] == q[|q| - 1];
    assert last == |text| - |b| + (last - |text| + |b|);
  }

  /** `s.replace(c, by)` for a single character c. */
  function ReplaceChar(s: string, c: char, with: string): string {
    if s == [] then []
    else (if s[0] == c then with else [s[0]]) + ReplaceChar(s[1..], c, with)
  }

  function Digit(d: nat): char
    requires d < 10
  {
    '0' + d as char
  }

  function Natural(n: nat): (r: string)
    ensures r != [] && forall c :: c in r ==> '0' <= c <= '9'
  {
    if n < 10 then [Digit(n)] else Natural(n / 10) + [Digit(n % 10)]
  }

  /** `str(n)`. */
  function Decimal(n: int): (r: string)
    ensures r != [] && forall c :: c in r ==> '0' <= c <= '9' || c == '-'
    ensures '0' <= r[|r| - 1] <= '9'
  {
    if n < 0 then "-" + Natural(-n) else Natural(n)
  }

  /** The number a row of digits stands for. */
  function ValueOf(digits: string): int {
    if digits == [] then 0 else 10 * ValueOf(digits[..|digits| - 1]) + (digits[|digits| - 1] as int - '0' as int)
  }

  /** A number's digits stand for it, and none of them is a leading zero. */
  lemma {:induction false} NaturalReadsBack(n: nat)
    ensures ValueOf(Natural(n)) == n && (|Natural(n)| > 1 ==> Natural(n)[0] != '0')
  {
    if n < 10 {
      assert [Digit(n)][..0] == [];
    } else {
      var front := Natural(n / 10);
      NaturalReadsBack(n / 10);
      assert (front + [Digit(n % 10)])[..|front|] == front;
      assert |front| == 1 ==> ValueOf(front) == 10 * ValueOf(front[..0]) + (front[0] as int - '0' as int);
    }
  }

  /** `int(str(n)) == n`: the digits of n behind a sign, which only a negative number has. */
  lemma DecimalReadsBack(n: int)
    ensures
      var r := Decimal(n);
      if r[0] == '-' then n < 0 && |r| > 1 && ValueOf(r[1..]) == -n else n >= 0 && ValueOf(r) == n
  {
    NaturalReadsBack(if n < 0 then -n else n);
    assert n < 0 ==> Decimal(n)[1..] == Natural(-n);
    assert n >= 0 ==> Decimal(n)[0] in Natural(n);
  }
}
