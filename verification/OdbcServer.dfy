/**
 The `SERVER=` value of a connection string, for an error message.

 Found by splitting at every `;`, so it is the value that was printed only where
 the printed string has no other `;` in the way.
 */
module OdbcServer {
  import opened Wrappers
  import opened Text
  import opened Odbc

  /** `text.split(c)`: never empty. */
  function Split(text: string, c: char): (parts: seq<string>)
    ensures parts != []
    decreases |text|
  {
    var part := Until(text, c);
    if |part| == |text| then [text] else [part] + Split(text[|part| + 1..], c)
  }

  /** `upper`, as far as the letters of SERVER are concerned: U+017F is the other small s. */
  function Upper(text: string): string {
    seq(|text|, i requires 0 <= i < |text| =>
      if 'a' <= text[i] <= 'z' then text[i] - 'a' + 'A' else if text[i] == '\U{17F}' then 'S' else text[i])
  }

  predicate IsBrace(c: char) { c == '{' || c == '}' }

  function StripBracesLeft(s: string): (r: string)
    ensures |r| <= |s| && r == s[|s| - |r|..]
    ensures r != [] ==> !IsBrace(r[0])
  {
    if s != [] && IsBrace(s[0]) then StripBracesLeft(s[1..]) else s
  }

  function StripBracesRight(s: string): (r: string)
    ensures |r| <= |s| && r == s[..|r|]
    ensures r != [] ==> !IsBrace(r[|r| - 1])
  {
    if s != [] && IsBrace(s[|s| - 1]) then StripBracesRight(s[..|s| - 1]) else s
  }

  predicate NamesServer(part: string) {
    Upper(Strip(Until(part, '='))) == "SERVER"
  }

  /** What `partition` leaves after the first `=`, unwrapped. */
  function ValueNamed(part: string): string {
    var keyword := Until(part, '=');
    var value := if |keyword| == |part| then "" else part[|keyword| + 1..];
    var bare := StripBracesRight(StripBracesLeft(Strip(value)));
    if bare == "" then "the server" else bare
  }

  function FirstServer(parts: seq<string>): string {
    if parts == [] then "the server"
    else if NamesServer(parts[0]) then ValueNamed(parts[0])
    else FirstServer(parts[1..])
  }

  method ServerOf(connectionString: string) returns (server: string)
    ensures server == FirstServer(Split(connectionString, ';'))
    ensures IsFirstServer(Split(connectionString, ';'), server)
  {
    hide NamesServer, ValueNamed, Split, IsFirstServer;
    var parts := Split(connectionString, ';');
    FirstServerTells(parts);
    assert parts[0..] == parts;
    for i := 0 to |parts|
      invariant FirstServer(parts[i..]) == FirstServer(parts)
    {
      assert parts[i..][1..] == parts[i + 1..];
      if NamesServer(parts[i]) {
        return ValueNamed(parts[i]);
      }
    }
    server := "the server";
  }

  /** The parts of a text, put together again with the separator between them, are the text; none has it inside. */
  lemma {:induction false} SplitTells(text: string)
    ensures Join(Split(text, ';')) == text && forall part :: part in Split(text, ';') ==> ';' !in part
    decreases |text|
  {
    var part := Until(text, ';');
    if |part| < |text| {
      var rest := text[|part| + 1..];
      SplitTells(rest);
      assert text == part + (";" + rest);
      JoinMore(part, Split(rest, ';'));
    }
  }

  /** The first part that names the server gives it; where none does, it is only called the server. */
  ghost predicate IsFirstServer(parts: seq<string>, server: string) {
    && ((forall i :: 0 <= i < |parts| ==> !NamesServer(parts[i])) ==> server == "the server")
    && forall i :: 0 <= i < |parts| && NamesServer(parts[i]) && (forall j :: 0 <= j < i ==> !NamesServer(parts[j]))
         ==> server == ValueNamed(parts[i])
  }

  lemma {:induction false} FirstServerTells(parts: seq<string>)
    ensures IsFirstServer(parts, FirstServer(parts))
  {
    hide NamesServer, ValueNamed;
    if parts != [] {
      FirstServerTells(parts[1..]);
      assert forall i :: 0 < i < |parts| ==> parts[i] == parts[1..][i - 1];
    }
  }

  lemma SplitOne(front: string, c: char, rest: string)
    requires c !in front
    ensures Split(front + [c] + rest, c) == [front] + Split(rest, c)
  {
    hide Until;
    var text := front + [c] + rest;
    UntilFront(front, c, [c] + rest);
    assert text == front + ([c] + rest);
    assert text[|front| + 1..] == rest;
  }

  lemma {:induction false} SplitJoins(a: string, b: string, c: char)
    ensures Split(a + [c] + b, c) == Split(a, c) + Split(b, c)
    decreases |a|
  {
    hide Until;
    var part := Until(a, c);
    if |part| == |a| {
      SplitOne(a, c, b);
    } else {
      var rest := a[|part| + 1..];
      assert a == part + [c] + rest;
      assert a + [c] + b == part + [c] + (rest + [c] + b);
      SplitOne(part, c, rest + [c] + b);
      SplitJoins(rest, b, c);
    }
  }

  lemma {:induction false} FirstServerJoins(a: seq<string>, b: seq<string>)
    ensures FirstServer(a + b)
         == if exists i :: 0 <= i < |a| && NamesServer(a[i]) then FirstServer(a) else FirstServer(b)
  {
    hide NamesServer, ValueNamed;
    if a == [] {
      assert a + b == b;
    } else {
      assert (a + b)[1..] == a[1..] + b;
      FirstServerJoins(a[1..], b);
      assert forall i :: 0 < i < |a| ==> a[i] == a[1..][i - 1];
    }
  }

  // ---- unwrapping one value ----

  /** The value of a SERVER setting, as the split finds it: up to the first `;`, spaces and outer braces off. */
  function Unwrapped(printed: string): string {
    var bare := StripBracesRight(StripBracesLeft(Strip(Until(printed, ';'))));
    if bare == "" then "the server" else bare
  }

  /** What makes a `host,port` survive: no `;` and no `}` in it, and no `{` in front. */
  predicate Survives(host: string) {
    ';' !in host && '}' !in host && (host == "" || host[0] != '{')
  }

  function Doubled(s: string): string {
    ReplaceChar(s, '}', "}}")
  }

  lemma {:induction false} DoubledSame(s: string)
    ensures |Doubled(s)| >= |s| && ('}' in s ==> |Doubled(s)| > |s|) && ('}' !in s ==> Doubled(s) == s)
  {
    if s != [] {
      DoubledSame(s[1..]);
      assert s == [s[0]] + s[1..];
    }
  }

  lemma {:induction false} DoubledWithin(s: string)
    ensures Within(Doubled(s), s)
  {
    if s != [] {
      DoubledWithin(s[1..]);
      assert s == [s[0]] + s[1..];
    }
  }

  lemma {:induction false} DoubledEnds(s: string)
    requires s != [] && !IsBrace(s[|s| - 1])
    ensures
      var r := Doubled(s);
      r != [] && r[|r| - 1] == s[|s| - 1] && r[0] == s[0]
  {
    if |s| > 1 {
      DoubledEnds(s[1..]);
      var head := if s[0] == '}' then "}}" else [s[0]];
      assert Doubled(s) == head + Doubled(s[1..]);
    } else {
      assert s[1..] == [];
      assert Doubled(s[1..]) == [];
      assert Doubled(s) == [s[0]] + [];
    }
  }

  predicate Within(s: string, whole: string) {
    forall c :: c in s ==> c in whole
  }

  lemma {:induction false} StripLeftStops(s: string, tail: string)
    requires s != [] && !IsBrace(s[|s| - 1])
    ensures StripBracesLeft(s + tail) == StripBracesLeft(s) + tail
    ensures StripBracesLeft(s) != [] && StripBracesLeft(s)[|StripBracesLeft(s)| - 1] == s[|s| - 1]
  {
    assert (s + tail)[0] == s[0];
    if IsBrace(s[0]) {
      assert (s + tail)[1..] == s[1..] + tail;
      StripLeftStops(s[1..], tail);
    }
  }

  lemma StripRightStops(s: string)
    requires s != [] && !IsBrace(s[|s| - 1])
    ensures StripBracesRight(s + "}") == s
  {
    var t := s + "}";
    assert t[..|t| - 1] == s;
    assert StripBracesRight(s) == s;
  }

  lemma BracedIsTrimmed(inner: string)
    ensures Strip("{" + inner + "}") == "{" + inner + "}"
  {
    hide Strip;
    TrimmedIffStripKeeps("{" + inner + "}");
  }

  lemma LeftBraceOff(inner: string)
    ensures StripBracesLeft("{" + inner + "}") == StripBracesLeft(inner + "}")
  {
    assert ("{" + inner + "}")[1..] == inner + "}";
  }

  /** A braced value loses its own braces, and any it starts with. */
  lemma BracesOff(inner: string)
    requires inner != [] && !IsBrace(inner[|inner| - 1])
    ensures StripBracesRight(StripBracesLeft(Strip("{" + inner + "}"))) == StripBracesLeft(inner)
  {
    hide *;
    BracedIsTrimmed(inner);
    LeftBraceOff(inner);
    StripLeftStops(inner, "}");
    StripRightStops(StripBracesLeft(inner));
  }

  lemma PlainUnwraps(value: string)
    requires value != [] && Strip(value) == value && !IsBrace(value[0]) && !IsBrace(value[|value| - 1]) && ';' !in value
    ensures Unwrapped(value) == value
  {
    UntilFront(value, ';', "");
    assert value + "" == value;
    hide Strip;
  }

  lemma HostAndPortEnds(host: string, port: int)
    ensures
      var hp := host + "," + Decimal(port);
      && hp != [] && !IsBrace(hp[|hp| - 1])
      && (hp[0] == if host == "" then ',' else host[0])
      && (';' in hp <==> ';' in host) && ('}' in hp <==> '}' in host) && ('{' in hp <==> '{' in host)
  {
    hide Decimal;
  }

  lemma SliceWithin(whole: string, i: nat, j: nat)
    requires i <= j <= |whole|
    ensures Within(whole[i..j], whole)
  {
  }

  lemma StripWithin(s: string)
    ensures Within(StripBracesRight(StripBracesLeft(Strip(s))), s)
  {
    hide StripLeft, StripRight, StripBracesLeft, StripBracesRight;
    var left := StripLeft(s);
    var right := Strip(s);
    SliceWithin(s, |s| - |left|, |s|);
    SliceWithin(left, 0, |right|);
    var open := StripBracesLeft(right);
    SliceWithin(right, |right| - |open|, |right|);
    SliceWithin(open, 0, |StripBracesRight(open)|);
    assert s[|s| - |left|..|s|] == left && right[|right| - |open|..|right|] == open;
    assert left[0..|right|] == right && open[0..|StripBracesRight(open)|] == StripBracesRight(open);
  }

  lemma SemicolonIsLost(value: string, hp: string)
    requires ';' in hp
    ensures Unwrapped(value) != hp
  {
    hide Strip, StripBracesRight, StripBracesLeft, Until;
    StripWithin(Until(value, ';'));
    assert ';' !in "the server";
  }

  /** Printing `host,port` as a value and unwrapping it as the error message does. */
  lemma UnwrapsIff(host: string, port: int)
    ensures Unwrapped(OdbcValue(host + "," + Decimal(port))) == host + "," + Decimal(port) <==> Survives(host)
  {
    hide Decimal, Unwrapped, Strip, ReplaceChar, StripBracesLeft;
    var hp := host + "," + Decimal(port);
    HostAndPortEnds(host, port);
    if ';' in host {
      SemicolonIsLost(OdbcValue(hp), hp);
    } else if IsPlain(hp) {
      assert hp[0] in hp;
      PlainUnwraps(hp);
      PlainSurvives(host);
    } else {
      DoubledEnds(hp);
      DoubledWithin(hp);
      BracedUnwraps(Doubled(hp));
      UnbracedIff(hp);
    }
  }

  lemma PlainSurvives(host: string)
    requires ';' !in host && '}' !in host && '{' !in host
    ensures Survives(host)
  {
    assert host != "" ==> host[0] in host;
  }

  lemma BracedUnwraps(inner: string)
    requires inner != [] && !IsBrace(inner[|inner| - 1]) && ';' !in inner
    ensures Unwrapped("{" + inner + "}") == StripBracesLeft(inner)
  {
    var text := "{" + inner + "}";
    UntilFront(text, ';', "");
    assert text + "" == text;
    BracesOff(inner);
    StripLeftStops(inner, "");
    hide Strip, StripBracesLeft, StripBracesRight;
  }

  lemma UnbracedIff(hp: string)
    requires hp != [] && !IsBrace(hp[|hp| - 1])
    ensures StripBracesLeft(Doubled(hp)) == hp <==> '}' !in hp && hp[0] != '{'
  {
    hide Doubled;
    var inner := Doubled(hp);
    DoubledSame(hp);
    DoubledEnds(hp);
    if IsBrace(hp[0]) {
      assert hp[0] in hp;
    }
  }

  // ---- the printed string ----

  /** A `;` in the driver puts a `SERVER=` of its own in front of the real one. */
  predicate DriverNamesServer(login: Login) {
    var parts := Split(DriverPart(login), ';');
    exists i :: 0 <= i < |parts| && NamesServer(parts[i])
  }

  /** Without a `;` in the driver there is no such setting. */
  lemma PlainDriverNamesNone(login: Login)
    requires ';' !in login.driver
    ensures !DriverNamesServer(login)
  {
    var part := DriverPart(login);
    assert ';' !in part;
    UntilFront(part, ';', "");
    assert part + "" == part;
    assert Split(part, ';') == [part];
    assert part == "DRIVER" + ("={" + login.driver + "}");
    UntilFront("DRIVER", '=', "={" + login.driver + "}");
    TrimmedIffStripKeeps("DRIVER");
    assert Upper("DRIVER")[0] == 'D';
    hide Upper, Split, Strip;
  }

  lemma SplitFront(front: string, printed: string)
    requires ';' !in front
    ensures Split(front + printed, ';')[0] == front + Until(printed, ';')
  {
    var first := Until(printed, ';');
    assert printed == first + printed[|first|..];
    assert front + printed == (front + first) + printed[|first|..];
    UntilFront(front + first, ';', printed[|first|..]);
  }

  lemma IsServerKeyword()
    ensures Upper(Strip("SERVER")) == "SERVER"
  {
    hide Strip;
    TrimmedIffStripKeeps("SERVER");
    assert Upper("SERVER") == "SERVER";
  }

  lemma ServerPartNamesIt(printed: string)
    ensures
      var parts := Split("SERVER=" + printed, ';');
      NamesServer(parts[0]) && ValueNamed(parts[0]) == Unwrapped(printed)
  {
    hide Split, Upper, Strip, StripBracesLeft, StripBracesRight, Until;
    var first := Until(printed, ';');
    var part := "SERVER=" + first;
    SplitFront("SERVER=", printed);
    assert part == "SERVER" + ("=" + first);
    UntilFront("SERVER", '=', "=" + first);
    assert part[7..] == first;
    IsServerKeyword();
  }

  /** Which value the error message shows: the driver's own, if it has one, else the printed server. */
  lemma ServerShown(login: Login)
    ensures FirstServer(Split(Printed(login), ';'))
         == if DriverNamesServer(login) then FirstServer(Split(DriverPart(login), ';'))
            else Unwrapped(OdbcValue(HostAndPort(login)))
  {
    hide OdbcValue, HostAndPort, Join, DriverPart, Decimal, Timeout, Identity, When, Split, FirstServer, NamesServer, ValueNamed, Unwrapped;
    var printed := OdbcValue(HostAndPort(login));
    var parts := Parts(Intended(login));
    var rest := Join(parts[1..]);
    var after := "SERVER=" + printed + ";" + rest;
    JoinMore(DriverPart(login), parts);
    JoinMore(parts[0], parts[1..]);
    assert parts == [parts[0]] + parts[1..];
    assert Printed(login) == DriverPart(login) + ";" + after;
    hide Parts, Intended, Printed, Split, FirstServer, OdbcValue, HostAndPort, NamesServer, ValueNamed, Unwrapped, DriverPart;
    SplitJoins(DriverPart(login), after, ';');
    FirstServerJoins(Split(DriverPart(login), ';'), Split(after, ';'));
    SplitJoins("SERVER=" + printed, rest, ';');
    ServerPartNamesIt(printed);
    FirstOfMore(Split("SERVER=" + printed, ';'), Split(rest, ';'));
  }

  lemma FirstOfMore(parts: seq<string>, more: seq<string>)
    requires parts != [] && NamesServer(parts[0])
    ensures FirstServer(parts + more) == ValueNamed(parts[0])
  {
    hide NamesServer, ValueNamed;
  }

  /**
   With a driver that names no server, the error message names the `host,port` it
   was printed with, exactly when that has no `;` and no `}` and starts with no `{`.
   */
  lemma ServerIsNamedIff(login: Login)
    requires !DriverNamesServer(login)
    ensures FirstServer(Split(Printed(login), ';')) == HostAndPort(login) <==> Survives(login.host)
  {
    hide Printed, Split, FirstServer, OdbcValue, Unwrapped, DriverPart, DriverNamesServer, Survives, Decimal;
    ServerShown(login);
    UnwrapsIff(login.host, login.port);
  }
}
