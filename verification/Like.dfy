/**
 Searching for a keyword with LIKE: the wildcards escaped, so that it means substring.

 `Like` is the LIKE predicate with ESCAPE '\' of section 8.5 of ISO/IEC 9075:1992,
 with SQLite's folding of the ASCII letters.
 */
module Like {
  import opened Text

  const ESCAPE := '\\'
  const WILDCARDS := ['\\', '%', '_']

  function Fold(c: char): char {
    if 'A' <= c <= 'Z' then c - 'A' + 'a' else c
  }

  /** Two characters fold together if they are the same, or one ASCII letter in its two cases. */
  lemma FoldIff(a: char, b: char)
    ensures Fold(a) == Fold(b) <==>
      || a == b
      || ('A' <= a <= 'Z' && b as int - a as int == 32)
      || ('A' <= b <= 'Z' && a as int - b as int == 32)
  {
  }

  predicate Like(pattern: string, text: string)
    decreases |pattern| + |text|
  {
    if pattern == [] then text == []
    else if pattern[0] == '%' then Like(pattern[1..], text) || (text != [] && Like(pattern, text[1..]))
    else if text == [] then false
    else if pattern[0] == '_' then Like(pattern[1..], text[1..])
    else if pattern[0] == ESCAPE then
      |pattern| >= 2 && Fold(pattern[1]) == Fold(text[0]) && Like(pattern[2..], text[1..])
    else Fold(pattern[0]) == Fold(text[0]) && Like(pattern[1..], text[1..])
  }

  /** One character, made to stand for itself. */
  function Escaped(c: char): string {
    if c in WILDCARDS then [ESCAPE, c] else [c]
  }

  /** Character by character, left to right. */
  function EscapedText(text: string): string {
    if text == [] then [] else Escaped(text[0]) + EscapedText(text[1..])
  }

  /** The first n replacements. */
  function Passes(text: string, n: nat): string
    requires n <= 3
  {
    if n == 0 then text else ReplaceChar(Passes(text, n - 1), WILDCARDS[n - 1], [ESCAPE, WILDCARDS[n - 1]])
  }

  /** One replacement after another over the whole text, the escape itself first. */
  method EscapeLike(text: string) returns (r: string)
    ensures r == EscapedText(text)
  {
    r := text;
    for i := 0 to |WILDCARDS|
      invariant r == Passes(text, i)
    {
      r := ReplaceChar(r, WILDCARDS[i], [ESCAPE, WILDCARDS[i]]);
    }
    ThreePasses(text);
  }

  lemma {:induction false} ReplaceJoins(a: string, b: string, c: char, with: string)
    ensures ReplaceChar(a + b, c, with) == ReplaceChar(a, c, with) + ReplaceChar(b, c, with)
  {
    if a == [] {
      assert a + b == b;
    } else {
      assert (a + b)[1..] == a[1..] + b;
      ReplaceJoins(a[1..], b, c, with);
    }
  }

  lemma {:induction false} PassesJoin(a: string, b: string, n: nat)
    requires n <= 3
    ensures Passes(a + b, n) == Passes(a, n) + Passes(b, n)
  {
    if n > 0 {
      PassesJoin(a, b, n - 1);
      ReplaceJoins(Passes(a, n - 1), Passes(b, n - 1), WILDCARDS[n - 1], [ESCAPE, WILDCARDS[n - 1]]);
    }
  }

  lemma ReplaceOne(c: char, d: char)
    ensures ReplaceChar([c], d, [ESCAPE, d]) == if c == d then [ESCAPE, d] else [c]
  {
    assert [c][1..] == [];
  }

  lemma PassesOne(c: char)
    ensures Passes([c], 3) == Escaped(c)
  {
    ReplaceOne(c, '\\');
    ReplaceOne(c, '%');
    ReplaceOne(c, '_');
    ReplaceOne(ESCAPE, '%');
    ReplaceOne(ESCAPE, '_');
    ReplaceJoins([ESCAPE], [c], '%', [ESCAPE, '%']);
    ReplaceJoins([ESCAPE], [c], '_', [ESCAPE, '_']);
    assert [ESCAPE] + [c] == [ESCAPE, c];
    assert Passes([c], 0) == [c];
    var one := Passes([c], 1);
    assert one == ReplaceChar([c], ESCAPE, [ESCAPE, ESCAPE]);
    assert one == if c == ESCAPE then [ESCAPE, c] else [c];
    var two := Passes([c], 2);
    assert two == if c in ['\\', '%'] then [ESCAPE, c] else [c];
  }

  /** The three replacements, one after the other, are one escape of each character. */
  lemma {:induction false} ThreePasses(text: string)
    ensures Passes(text, 3) == EscapedText(text)
  {
    if text == [] {
      assert Passes(text, 1) == [];
      assert Passes(text, 2) == [];
    } else {
      assert text == [text[0]] + text[1..];
      PassesJoin([text[0]], text[1..], 3);
      PassesOne(text[0]);
      ThreePasses(text[1..]);
    }
  }

  /** The keyword stands at place i of the text, up to ASCII case. */
  predicate OccursAt(keyword: string, text: string, i: nat) {
    i + |keyword| <= |text| && forall j :: 0 <= j < |keyword| ==> Fold(keyword[j]) == Fold(text[i + j])
  }

  /** A leading `%` takes any front of the text. */
  lemma {:induction false} PercentMatches(pattern: string, text: string)
    ensures Like("%" + pattern, text) <==> exists i :: 0 <= i <= |text| && Like(pattern, text[i..])
  {
    assert ("%" + pattern)[1..] == pattern && text[0..] == text;
    if text != [] {
      PercentMatches(pattern, text[1..]);
      assert forall i :: 0 <= i <= |text[1..]| ==> text[1..][i..] == text[i + 1..];
      if exists i :: 0 <= i <= |text| && Like(pattern, text[i..]) {
        var i :| 0 <= i <= |text| && Like(pattern, text[i..]);
        if i > 0 { assert text[1..][i - 1..] == text[i..]; }
      }
    }
  }

  /** An escaped keyword takes itself, and nothing else. */
  lemma {:induction false} EscapedMatchesItself(keyword: string, rest: string, text: string)
    ensures Like(EscapedText(keyword) + rest, text)
       <==> OccursAt(keyword, text, 0) && Like(rest, text[|keyword|..])
  {
    var pattern := EscapedText(keyword) + rest;
    if keyword == [] {
      assert pattern == rest && text[0..] == text;
    } else {
      var c, more := keyword[0], EscapedText(keyword[1..]) + rest;
      assert pattern == Escaped(c) + more;
      assert pattern[|Escaped(c)|..] == more;
      if text != [] {
        EscapedMatchesItself(keyword[1..], rest, text[1..]);
        if |keyword| <= |text| { assert text[1..][|keyword| - 1..] == text[|keyword|..]; }
        OccursFromNext(keyword, text);
      }
    }
  }

  lemma OccursFromNext(keyword: string, text: string)
    requires keyword != [] && text != []
    ensures OccursAt(keyword, text, 0) <==> Fold(keyword[0]) == Fold(text[0]) && OccursAt(keyword[1..], text[1..], 0)
  {
    if OccursAt(keyword[1..], text[1..], 0) && Fold(keyword[0]) == Fold(text[0]) {
      forall j | 0 <= j < |keyword| ensures Fold(keyword[j]) == Fold(text[0 + j]) {
        if j > 0 { assert keyword[1..][j - 1] == keyword[j] && text[1..][0 + (j - 1)] == text[j]; }
      }
    }
  }

  lemma OccursFrom(keyword: string, text: string, i: nat)
    requires i + |keyword| <= |text|
    ensures OccursAt(keyword, text[i..], 0) <==> OccursAt(keyword, text, i)
  {
    var tail := text[i..];
    forall j | 0 <= j < |keyword| ensures Fold(keyword[j]) == Fold(tail[0 + j]) <==> Fold(keyword[j]) == Fold(text[i + j]) {
      assert tail[j] == text[i + j];
    }
  }

  /** `%`, the escaped keyword, `%`: matches exactly the texts the keyword occurs in. */
  lemma PatternMeansSubstring(keyword: string, text: string)
    ensures Like("%" + EscapedText(keyword) + "%", text) <==> exists i :: OccursAt(keyword, text, i)
  {
    var inner := EscapedText(keyword) + "%";
    assert "%" + EscapedText(keyword) + "%" == "%" + inner;
    PercentMatches(inner, text);
    forall i | 0 <= i <= |text| ensures Like(inner, text[i..]) <==> OccursAt(keyword, text, i) {
      EscapedMatchesItself(keyword, "%", text[i..]);
      if i + |keyword| <= |text| {
        PercentMatches("", text[i..][|keyword|..]);
        var tail := text[i..][|keyword|..];
        assert tail[|tail|..] == "" && "%" + "" == "%";
        assert Like("", tail[|tail|..]);
        OccursFrom(keyword, text, i);
      }
    }
  }
}
