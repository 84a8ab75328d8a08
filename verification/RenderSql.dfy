/**
 The statement as the audit trail shows it, with its parameters put in.

 The program splits once and interleaves; the reference reads the statement from
 left to right and never looks at what it has put in.
 */
module RenderSql {
  import opened Wrappers

  predicate StartsWith(text: string, mark: string) {
    |mark| <= |text| && text[..|mark|] == mark
  }

  /** Where the mark first occurs; the length of the text if it does not. */
  function FirstAt(text: string, mark: string): (n: nat)
    requires mark != ""
    ensures n <= |text|
    ensures n < |text| ==> StartsWith(text[n..], mark)
    ensures forall i :: 0 <= i < n ==> !StartsWith(text[i..], mark)
  {
    if text == "" then 0
    else if StartsWith(text, mark) then
      assert text[0..] == text;
      0
    else
      var n := 1 + FirstAt(text[1..], mark);
      assert text[1..][n - 1..] == text[n..];
      assert forall i :: 1 <= i < n ==> text[1..][i - 1..] == text[i..];
      assert text[0..] == text;
      n
  }

  /** `text.split(mark)`: one more piece than there are marks. */
  function Split(text: string, mark: string): (pieces: seq<string>)
    requires mark != ""
    ensures pieces != []
    decreases |text|
  {
    var n := FirstAt(text, mark);
    if n == |text| then [text] else [text[..n]] + Split(text[n + |mark|..], mark)
  }

  function Joined(pieces: seq<string>): string {
    if pieces == [] then "" else Joined(pieces[..|pieces| - 1]) + pieces[|pieces| - 1]
  }

  /** Left to right: the i-th mark met becomes the i-th parameter, if there is one; nothing put in is read again. */
  function Substituted(sql: string, params: seq<string>, mark: string): string
    requires mark != ""
    decreases |sql|
  {
    if sql == "" then ""
    else if StartsWith(sql, mark) then
      (if params != [] then params[0] else mark) + Substituted(sql[|mark|..], if params != [] then params[1..] else [], mark)
    else [sql[0]] + Substituted(sql[1..], params, mark)
  }

  /** `params` holds each parameter's `repr`; splitting on an empty mark raises. */
  method RenderSql(sql: string, params: seq<string>, mark: string) returns (r: Option<string>)
    ensures mark == "" <==> r.None?
    ensures r.Some? ==> r.value == Substituted(sql, params, mark)
  {
    if mark == "" {
      return None;
    }
    hide *;
    var pieces := Split(sql, mark);
    var rendered := [pieces[0]];
    JoinedOne(pieces[0]);
    PiecesSubstitute(sql, params, mark);
    InterleavedNone(params, 0, mark);
    for i := 1 to |pieces|
      invariant Joined(rendered) + Interleaved(pieces[i..], Past(params, i - 1), mark)
             == pieces[0] + Interleaved(pieces[1..], params, mark)
    {
      InterleavedStep(pieces, params, mark, i);
      var shown := if i - 1 < |params| then params[i - 1] else mark;
      JoinTwo(rendered, shown, pieces[i]);
      Regroup(Joined(rendered), shown, pieces[i], Interleaved(pieces[i + 1..], Past(params, i), mark));
      rendered := rendered + [shown];
      rendered := rendered + [pieces[i]];
    }
    InterleavedNone(params, |pieces| - 1, mark);
    assert pieces[|pieces|..] == [];
    r := Some(Joined(rendered));
  }

  lemma Regroup(a: string, b: string, c: string, d: string)
    ensures a + (b + c + d) == a + (b + c) + d && a + (b + c + d) == a + (b + (c + d))
  {
  }

  lemma JoinedOne(piece: string)
    ensures Joined([piece]) == piece
  {
    assert [piece][..0] == [];
  }

  lemma InterleavedNone(params: seq<string>, n: nat, mark: string)
    ensures Interleaved([], Past(params, n), mark) == "" && Past(params, 0) == params
  {
  }

  lemma InterleavedStep(pieces: seq<string>, params: seq<string>, mark: string, i: nat)
    requires 1 <= i < |pieces|
    ensures Past(params, 0) == params
    ensures Interleaved(pieces[i..], Past(params, i - 1), mark)
         == (if i - 1 < |params| then params[i - 1] else mark) + pieces[i] + Interleaved(pieces[i + 1..], Past(params, i), mark)
  {
    assert pieces[i..][1..] == pieces[i + 1..] && pieces[i..][0] == pieces[i];
    assert Past(Past(params, i - 1), 1) == Past(params, i);
  }

  function Past(params: seq<string>, n: nat): seq<string> {
    if n <= |params| then params[n..] else []
  }

  /** Each piece after the first, behind what stands for the mark before it. */
  function Interleaved(tails: seq<string>, params: seq<string>, mark: string): string {
    if tails == [] then ""
    else (if params != [] then params[0] else mark) + tails[0] + Interleaved(tails[1..], Past(params, 1), mark)
  }

  lemma JoinTwo(rendered: seq<string>, a: string, b: string)
    ensures Joined(rendered + [a] + [b]) == Joined(rendered) + (a + b)
  {
    assert (rendered + [a] + [b])[..|rendered| + 1] == rendered + [a];
    assert (rendered + [a])[..|rendered|] == rendered;
  }

  /** Reading up to the first mark changes nothing. */
  lemma {:induction false} FrontStays(sql: string, params: seq<string>, mark: string, n: nat)
    requires mark != "" && n <= |sql| && forall i :: 0 <= i < n ==> !StartsWith(sql[i..], mark)
    ensures Substituted(sql, params, mark) == sql[..n] + Substituted(sql[n..], params, mark)
    decreases |sql|
  {
    assert sql[0..] == sql;
    if n > 0 {
      assert !StartsWith(sql[0..], mark);
      assert forall i :: 0 <= i < n - 1 ==> sql[1..][i..] == sql[i + 1..];
      FrontStays(sql[1..], params, mark, n - 1);
      assert sql[1..][n - 1..] == sql[n..];
      assert sql[..n] == [sql[0]] + sql[1..][..n - 1];
    }
  }

  lemma SubstitutedAtMark(text: string, params: seq<string>, mark: string)
    requires mark != "" && StartsWith(text, mark)
    ensures Substituted(text, params, mark)
         == (if params != [] then params[0] else mark) + Substituted(text[|mark|..], Past(params, 1), mark)
  {
  }

  lemma SplitAtMark(sql: string, mark: string)
    requires mark != ""
    ensures
      var n, pieces := FirstAt(sql, mark), Split(sql, mark);
      if n == |sql| then pieces == [sql]
      else
        && pieces == [sql[..n]] + Split(sql[n + |mark|..], mark)
        && StartsWith(sql[n..], mark) && sql[n..][|mark|..] == sql[n + |mark|..]
  {
    hide FirstAt;
    var n := FirstAt(sql, mark);
    if n < |sql| {
      assert |mark| <= |sql[n..]|;
      assert sql[n..][|mark|..] == sql[n + |mark|..];
    }
  }

  lemma {:induction false} PiecesSubstitute(sql: string, params: seq<string>, mark: string)
    requires mark != ""
    ensures
      var pieces := Split(sql, mark);
      pieces[0] + Interleaved(pieces[1..], params, mark) == Substituted(sql, params, mark)
    decreases |sql|
  {
    hide *;
    var n, pieces := FirstAt(sql, mark), Split(sql, mark);
    FrontStays(sql, params, mark, n);
    SplitAtMark(sql, mark);
    InterleavedNone(params, 0, mark);
    if n == |sql| {
      assert sql[..n] == sql && sql[n..] == "";
      SubstitutedNothing(params, mark);
      assert pieces[1..] == [];
    } else {
      SplitShrinks(sql, mark, n);
      var rest := sql[n + |mark|..];
      var more := Split(rest, mark);
      PiecesSubstitute(rest, Past(params, 1), mark);
      SubstitutedAtMark(sql[n..], params, mark);
      InterleavedStep(pieces, params, mark, 1);
      assert pieces[1..] == more && pieces[2..] == more[1..];
      Regroup(pieces[0], if params != [] then params[0] else mark, more[0], Interleaved(more[1..], Past(params, 1), mark));
    }
  }

  lemma SplitShrinks(sql: string, mark: string, n: nat)
    requires mark != "" && n < |sql| && StartsWith(sql[n..], mark)
    ensures n + |mark| <= |sql|
  {
  }

  lemma SubstitutedNothing(params: seq<string>, mark: string)
    requires mark != ""
    ensures Substituted("", params, mark) == "" && Interleaved([], params, mark) == ""
  {
  }

  /** With no parameters the statement comes out as it went in: joining undoes splitting. */
  lemma {:induction false} NoParametersIsIdentity(sql: string, mark: string)
    requires mark != ""
    ensures Substituted(sql, [], mark) == sql
    decreases |sql|
  {
    if sql != "" {
      if StartsWith(sql, mark) {
        NoParametersIsIdentity(sql[|mark|..], mark);
        assert sql == mark + sql[|mark|..];
      } else {
        NoParametersIsIdentity(sql[1..], mark);
      }
    }
  }

  /** How many marks a left-to-right reading meets. */
  function Marks(sql: string, mark: string): nat
    requires mark != ""
    decreases |sql|
  {
    if sql == "" then 0
    else if StartsWith(sql, mark) then 1 + Marks(sql[|mark|..], mark)
    else Marks(sql[1..], mark)
  }

  /** Parameters beyond the last mark change nothing. */
  lemma {:induction false} SurplusChangesNothing(sql: string, params: seq<string>, surplus: seq<string>, mark: string)
    requires mark != "" && |params| >= Marks(sql, mark)
    ensures Substituted(sql, params + surplus, mark) == Substituted(sql, params, mark)
    decreases |sql|
  {
    if sql != "" {
      if StartsWith(sql, mark) {
        assert (params + surplus)[1..] == params[1..] + surplus;
        SurplusChangesNothing(sql[|mark|..], params[1..], surplus, mark);
      } else {
        SurplusChangesNothing(sql[1..], params, surplus, mark);
      }
    }
  }

  /** Marks beyond the last parameter stay, with everything around them. */
  lemma {:induction false} MissingStayMarks(sql: string, params: seq<string>, mark: string)
    requires mark != ""
    ensures Substituted(sql, params, mark) == Substituted(sql, params + [mark], mark)
    decreases |sql|
  {
    if sql != "" {
      if StartsWith(sql, mark) {
        if params == [] {
          NoParametersIsIdentity(sql[|mark|..], mark);
          assert ([] + [mark])[1..] == [];
        } else {
          assert (params + [mark])[1..] == params[1..] + [mark];
          MissingStayMarks(sql[|mark|..], params[1..], mark);
        }
      } else {
        MissingStayMarks(sql[1..], params, mark);
      }
    }
  }
}
