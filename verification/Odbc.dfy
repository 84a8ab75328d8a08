/**
 The ODBC connection string: printed by the adapter, read by the driver manager.

 The grammar is the one given under SQLDriverConnect in the ODBC Programmer's
 Reference: `keyword=value` settings separated by `;`, a value in braces taken
 literally up to the closing brace, with `}}` for a brace inside it.
 */
module Odbc {
  import opened Wrappers
  import opened Text

  datatype Login = Login(
    driver: string,
    host: string,
    port: int,
    user: Option<string>,
    password: Option<string>,
    database: string,
    trustServerCertificate: bool,
    loginTimeout: Option<int>)

  datatype Setting = Setting(keyword: string, value: string)

  function HostAndPort(login: Login): string {
    login.host + "," + Decimal(login.port)
  }

  function When(present: bool, setting: Setting): seq<Setting> {
    if present then [setting] else []
  }

  function Timeout(seconds: Option<int>): seq<Setting> {
    if seconds.Some? then [Setting("Connection Timeout", Decimal(seconds.value))] else []
  }

  /** A login, or the caller's Windows identity where none is named. */
  function Identity(user: Option<string>, password: Option<string>): seq<Setting> {
    if user.Some? && user.value != "" then
      [Setting("UID", user.value), Setting("PWD", if password.Some? then password.value else "")]
    else [Setting("Trusted_Connection", "yes")]
  }

  /** What the settings are meant to say, driver apart, in the order they are printed. */
  function Intended(login: Login): seq<Setting> {
    [Setting("SERVER", HostAndPort(login)), Setting("Encrypt", "yes")]
    + When(login.trustServerCertificate, Setting("TrustServerCertificate", "yes"))
    + Timeout(login.loginTimeout)
    + When(login.database != "", Setting("DATABASE", login.database))
    + Identity(login.user, login.password)
  }

  /** The settings a login means, one by one; what is not given is not said, and without a user it is the caller's own identity. */
  predicate Means(login: Login, s: Setting) {
    || s == Setting("SERVER", login.host + "," + Decimal(login.port))
    || s == Setting("Encrypt", "yes")
    || (login.trustServerCertificate && s == Setting("TrustServerCertificate", "yes"))
    || (login.loginTimeout.Some? && s == Setting("Connection Timeout", Decimal(login.loginTimeout.value)))
    || (login.database != "" && s == Setting("DATABASE", login.database))
    || (if login.user.None? || login.user.value == "" then s == Setting("Trusted_Connection", "yes")
        else s == Setting("UID", login.user.value) || s == Setting("PWD", if login.password.Some? then login.password.value else ""))
  }

  lemma IntendedIff(login: Login, s: Setting)
    ensures s in Intended(login) <==> Means(login, s)
  {
    hide Decimal;
  }

  // ---- printing ----

  predicate IsPlain(value: string) {
    Strip(value) == value && ';' !in value && '{' !in value && '}' !in value
  }

  /** How a setting's value is printed. */
  function OdbcValue(value: string): string {
    if IsPlain(value) then value else "{" + ReplaceChar(value, '}', "}}") + "}"
  }

  function Part(setting: Setting): string {
    setting.keyword + "=" + OdbcValue(setting.value)
  }

  function Parts(settings: seq<Setting>): seq<string> {
    seq(|settings|, i requires 0 <= i < |settings| => Part(settings[i]))
  }

  /** `";".join(parts)`. */
  function Join(parts: seq<string>): string {
    if parts == [] then ""
    else if |parts| == 1 then parts[0]
    else parts[0] + ";" + Join(parts[1..])
  }

  /** The driver goes out in braces as it is; everything else through `OdbcValue`. */
  function DriverPart(login: Login): string {
    "DRIVER={" + login.driver + "}"
  }

  function Printed(login: Login): string {
    Join([DriverPart(login)] + Parts(Intended(login)))
  }

  method BuildConnectionString(login: Login) returns (text: string)
    ensures text == Printed(login)
  {
    hide Part, OdbcValue, Join, Decimal, Parts, DriverPart, Intended, When, Timeout, Identity;
    IntendedParts(login);
    PlainWords();
    FirstParts(login);
    PartsWhen(login.trustServerCertificate, Setting("TrustServerCertificate", "yes"));
    PartsWhen(login.database != "", Setting("DATABASE", login.database));
    PartsLogin(login.loginTimeout, login.user, login.password);
    AppendAll([DriverPart(login)], Parts([Setting("SERVER", HostAndPort(login)), Setting("Encrypt", "yes")]),
              Parts(When(login.trustServerCertificate, Setting("TrustServerCertificate", "yes"))),
              Parts(Timeout(login.loginTimeout)), Parts(When(login.database != "", Setting("DATABASE", login.database))),
              Parts(Identity(login.user, login.password)));
    var parts := [
      "DRIVER={" + login.driver + "}",
      Part(Setting("SERVER", login.host + "," + Decimal(login.port))),
      "Encrypt=yes"
    ];
    if login.trustServerCertificate {
      parts := parts + ["TrustServerCertificate=yes"];
    } else {
      assert parts == parts + [];
    }
    if login.loginTimeout.Some? {
      parts := parts + ["Connection Timeout=" + Decimal(login.loginTimeout.value)];
    } else {
      assert parts == parts + [];
    }
    if login.database != "" {
      parts := parts + [Part(Setting("DATABASE", login.database))];
    } else {
      assert parts == parts + [];
    }
    if login.user.Some? && login.user.value != "" {
      var uid, pwd :=
        Part(Setting("UID", login.user.value)), Part(Setting("PWD", if login.password.Some? then login.password.value else ""));
      assert parts + [uid] + [pwd] == parts + [uid, pwd];
      parts := parts + [uid];
      parts := parts + [pwd];
    } else {
      parts := parts + ["Trusted_Connection=yes"];
    }
    text := Join(parts);
  }

  lemma PartsJoin(a: seq<Setting>, b: seq<Setting>)
    ensures Parts(a + b) == Parts(a) + Parts(b)
  {
    hide Part;
  }

  lemma PartsWhen(present: bool, setting: Setting)
    ensures Parts(When(present, setting)) == if present then [Part(setting)] else []
  {
    hide Part;
  }

  lemma PartsLogin(seconds: Option<int>, user: Option<string>, password: Option<string>)
    ensures Parts(Timeout(seconds)) == if seconds.Some? then ["Connection Timeout=" + Decimal(seconds.value)] else []
    ensures Parts(Identity(user, password)) ==
      if user.Some? && user.value != "" then
        [Part(Setting("UID", user.value)), Part(Setting("PWD", if password.Some? then password.value else ""))]
      else ["Trusted_Connection=yes"]
  {
    hide Part;
    PlainWords();
    if seconds.Some? { TimeoutPart(seconds.value); }
  }

  /** The intended settings, printed group by group. */
  lemma IntendedParts(login: Login)
    ensures Parts(Intended(login))
         == Parts([Setting("SERVER", HostAndPort(login)), Setting("Encrypt", "yes")])
            + Parts(When(login.trustServerCertificate, Setting("TrustServerCertificate", "yes")))
            + Parts(Timeout(login.loginTimeout))
            + Parts(When(login.database != "", Setting("DATABASE", login.database)))
            + Parts(Identity(login.user, login.password))
  {
    hide Part, Parts, When, Timeout, Identity, HostAndPort;
    var server := [Setting("SERVER", HostAndPort(login)), Setting("Encrypt", "yes")];
    var trust := When(login.trustServerCertificate, Setting("TrustServerCertificate", "yes"));
    var database := When(login.database != "", Setting("DATABASE", login.database));
    PartsJoin(server, trust);
    PartsJoin(server + trust, Timeout(login.loginTimeout));
    PartsJoin(server + trust + Timeout(login.loginTimeout), database);
    PartsJoin(server + trust + Timeout(login.loginTimeout) + database, Identity(login.user, login.password));
  }

  lemma AppendAll(a: seq<string>, b: seq<string>, c: seq<string>, d: seq<string>, e: seq<string>, f: seq<string>)
    ensures a + (b + c + d + e + f) == a + b + c + d + e + f
  {
  }

  lemma FirstParts(login: Login)
    ensures
      var server := Setting("SERVER", HostAndPort(login));
      ["DRIVER={" + login.driver + "}", Part(server), "Encrypt=yes"]
      == [DriverPart(login)] + Parts([server, Setting("Encrypt", "yes")])
  {
    hide Part, HostAndPort;
    PlainWords();
  }

  lemma TimeoutPart(n: int)
    ensures Part(Setting("Connection Timeout", Decimal(n))) == "Connection Timeout=" + Decimal(n)
  {
    DecimalIsPlain(n);
    hide OdbcValue, Decimal;
    assert "Connection Timeout" + "=" == "Connection Timeout=";
  }

  // ---- the grammar ----

  /** The text from here to the first c, or to the end. */
  function Until(text: string, c: char): (r: string)
    ensures |r| <= |text| && r == text[..|r|] && c !in r
    ensures |r| < |text| ==> text[|r|] == c
  {
    if text == [] || text[0] == c then [] else [text[0]] + Until(text[1..], c)
  }

  datatype Scan = Unclosed | Scan(value: string, rest: string)

  /** A value after its opening brace: `}}` is a brace, a lone `}` closes. */
  function Braced(text: string): (scan: Scan)
    ensures scan.Scan? ==> |scan.rest| < |text|
    decreases |text|
  {
    if text == [] then Unclosed
    else if text[0] == '}' then
      if |text| >= 2 && text[1] == '}' then
        match Braced(text[2..])
        case Unclosed => Unclosed
        case Scan(value, rest) => Scan("}" + value, rest)
      else Scan([], text[1..])
    else
      match Braced(text[1..])
      case Unclosed => Unclosed
      case Scan(value, rest) => Scan([text[0]] + value, rest)
  }

  /** One value and what follows it. */
  function Value(text: string): (scan: Scan)
    ensures scan.Scan? ==> |scan.rest| <= |text|
  {
    if text != [] && text[0] == '{' then Braced(text[1..])
    else
      var bare := Until(text, ';');
      Scan(Strip(bare), text[|bare|..])
  }

  /** The settings a connection string says, or None where it says nothing. */
  function Parse(text: string): Option<seq<Setting>>
    decreases |text|
  {
    if text == [] then Some([])
    else
      var keyword := Until(text, '=');
      if |keyword| == |text| then None
      else
        var scan := Value(text[|keyword| + 1..]);
        if scan.Unclosed? || (scan.rest != [] && scan.rest[0] != ';') then None
        else if scan.rest == [] then Some([Setting(keyword, scan.value)])
        else
          var more := Parse(scan.rest[1..]);
          if more.None? then None else Some([Setting(keyword, scan.value)] + more.value)
  }

  // ---- plain values ----

  lemma PlainWords()
    ensures OdbcValue("yes") == "yes"
    ensures Part(Setting("Encrypt", "yes")) == "Encrypt=yes"
    ensures Part(Setting("TrustServerCertificate", "yes")) == "TrustServerCertificate=yes"
    ensures Part(Setting("Trusted_Connection", "yes")) == "Trusted_Connection=yes"
  {
    TrimmedIffStripKeeps("yes");
  }

  lemma DecimalIsPlain(n: int)
    ensures OdbcValue(Decimal(n)) == Decimal(n)
  {
    hide Strip, Decimal;
    var s := Decimal(n);
    assert s[0] in s;
    TrimmedIffStripKeeps(s);
  }

  // ---- the round trip ----

  lemma {:induction false} UntilFront(front: string, c: char, rest: string)
    requires c !in front && (rest == [] || rest[0] == c)
    ensures Until(front + rest, c) == front
  {
    if front == [] {
      assert front + rest == rest;
    } else {
      assert (front + rest)[1..] == front[1..] + rest;
      UntilFront(front[1..], c, rest);
    }
  }

  /** A doubled brace reads back as one, and the lone one closes. */
  lemma {:induction false} BracedReadsBack(value: string, rest: string)
    requires rest == [] || rest[0] != '}'
    ensures Braced(ReplaceChar(value, '}', "}}") + "}" + rest) == Scan(value, rest)
  {
    hide Braced;
    if value == [] {
      assert ReplaceChar(value, '}', "}}") + "}" + rest == "}" + rest;
      BracedStep(rest);
    } else {
      var more := ReplaceChar(value[1..], '}', "}}") + "}" + rest;
      BracedReadsBack(value[1..], rest);
      assert ReplaceChar(value, '}', "}}") + "}" + rest == (if value[0] == '}' then "}}" else [value[0]]) + more;
      BracedMore(value[0], more);
      assert value == [value[0]] + value[1..];
    }
  }

  lemma BracedStep(rest: string)
    requires rest == [] || rest[0] != '}'
    ensures Braced("}" + rest) == Scan("", rest)
  {
    assert ("}" + rest)[1..] == rest;
  }

  lemma BracedMore(c: char, more: string)
    requires Braced(more).Scan?
    ensures Braced((if c == '}' then "}}" else [c]) + more) == Scan([c] + Braced(more).value, Braced(more).rest)
  {
    assert ("}}" + more)[2..] == more && ([c] + more)[1..] == more;
  }

  lemma ValueReadsBack(value: string, rest: string)
    requires rest == [] || rest[0] == ';'
    ensures Value(OdbcValue(value) + rest) == Scan(value, rest)
  {
    hide Strip, Braced, ReplaceChar, Until;
    var text := OdbcValue(value) + rest;
    if IsPlain(value) {
      UntilFront(value, ';', rest);
      assert text == value + rest;
      assert text[|value|..] == rest;
      assert value != [] ==> value[0] in value;
    } else {
      BracedReadsBack(value, rest);
      assert text[1..] == ReplaceChar(value, '}', "}}") + "}" + rest;
    }
  }

  lemma PartReadsBack(setting: Setting, rest: string)
    requires '=' !in setting.keyword && (rest == [] || rest[0] == ';')
    ensures
      var text := Part(setting) + rest;
      && text != [] && Until(text, '=') == setting.keyword && |setting.keyword| < |text|
      && Value(text[|setting.keyword| + 1..]) == Scan(setting.value, rest)
  {
    hide OdbcValue, Value, Until;
    var text, tail := Part(setting) + rest, OdbcValue(setting.value) + rest;
    assert text == setting.keyword + ("=" + tail);
    UntilFront(setting.keyword, '=', "=" + tail);
    assert text[|setting.keyword| + 1..] == tail;
    ValueReadsBack(setting.value, rest);
  }

  lemma NothingReadsBack()
    ensures Parse("") == Some([])
  {
  }

  lemma {:induction false} SettingsReadBack(settings: seq<Setting>)
    requires forall s :: s in settings ==> '=' !in s.keyword
    ensures Parse(Join(Parts(settings))) == Some(settings)
  {
    hide OdbcValue, Value, Part, Parse;
    if settings == [] {
      NothingReadsBack();
    } else {
      var parts := Parts(settings);
      assert parts[1..] == Parts(settings[1..]);
      SettingsReadBack(settings[1..]);
      if |settings| == 1 {
        assert parts[0] + "" == Join(parts);
        OneReadsBack(settings[0], "", []);
        assert settings == [settings[0]] + [];
      } else {
        assert Join(parts) == parts[0] + (";" + Join(parts[1..]));
        OneReadsBack(settings[0], ";" + Join(parts[1..]), settings[1..]);
        assert settings == [settings[0]] + settings[1..];
      }
    }
  }

  lemma OneReadsBack(setting: Setting, rest: string, more: seq<Setting>)
    requires '=' !in setting.keyword
    requires if rest == [] then more == [] else rest[0] == ';' && Parse(rest[1..]) == Some(more)
    ensures Parse(Part(setting) + rest) == Some([setting] + more)
  {
    hide *;
    PartReadsBack(setting, rest);
    ParseOne(Part(setting) + rest, setting, rest, more);
  }

  lemma ParseOne(text: string, setting: Setting, rest: string, more: seq<Setting>)
    requires text != [] && Until(text, '=') == setting.keyword && |setting.keyword| < |text|
    requires Value(text[|setting.keyword| + 1..]) == Scan(setting.value, rest)
    requires if rest == [] then more == [] else rest[0] == ';' && Parse(rest[1..]) == Some(more)
    ensures Parse(text) == Some([setting] + more)
  {
    hide Value, Until;
    if rest == [] {
      assert [setting] + more == [setting];
    } else {
      hide Parse;
      ParseMore(text, rest);
    }
  }

  lemma ParseMore(text: string, rest: string)
    requires text != [] && |Until(text, '=')| < |text| && rest != [] && rest[0] == ';' && Parse(rest[1..]).Some?
    requires var scan := Value(text[|Until(text, '=')| + 1..]); scan.Scan? && scan.rest == rest
    ensures Parse(text) ==
      Some([Setting(Until(text, '='), Value(text[|Until(text, '=')| + 1..]).value)] + Parse(rest[1..]).value)
  {
    hide Value, Until;
  }

  // ---- the driver, which is not escaped ----

  function Braces(n: nat): string { seq(n, _ => '}') }

  lemma DriverTail(d: string, rest: string)
    requires |d| >= 2
    ensures (d + "}" + rest)[2..] == d[2..] + "}" + rest
  {
    assert (d + "}")[2..] == d[2..] + "}";
  }

  /** Read with braces owed, the value runs ahead of the text and never comes out as wanted. */
  lemma {:induction false} OwingNeverPays(owed: nat, d: string, rest: string)
    requires owed > 0 && (rest == [] || rest[0] != '}')
    requires Braced(d + "}" + rest).Scan?
    ensures Braced(d + "}" + rest).value != Braces(owed) + d
    decreases |d|
  {
    var text := d + "}" + rest;
    if |d| >= 2 && d[0] == '}' && d[1] == '}' {
      DriverTail(d, rest);
      OwingNeverPays(owed + 1, d[2..], rest);
      assert (Braces(owed) + d)[1..] == Braces(owed + 1) + d[2..];
      assert Braced(text).value[1..] == Braced(text[2..]).value;
    } else if |d| == 1 && d[0] == '}' {
      assert text[2..] == rest;
      assert (Braces(owed) + d)[1] == '}';
      assert Braced(text).value[1..] == Braced(rest).value;
    } else {
      assert d == [] ==> text == "}" + rest;
      assert (Braces(owed) + d)[0] == '}';
    }
  }

  /** A driver with a closing brace in it, printed as it is, never reads back as itself. */
  lemma {:induction false} BraceInDriverBreaks(d: string, rest: string)
    requires rest == [] || rest[0] != '}'
    requires Braced(d + "}" + rest).Scan? && '}' in d
    ensures Braced(d + "}" + rest).value != d
  {
    var text := d + "}" + rest;
    if d[0] != '}' {
      assert text[1..] == d[1..] + "}" + rest;
      assert d == [d[0]] + d[1..];
      BraceInDriverBreaks(d[1..], rest);
    } else if |d| == 1 {
      assert text[2..] == rest;
      assert Braced(text).value[1..] == Braced(rest).value;
    } else if d[1] == '}' {
      assert text[2..] == d[2..] + "}" + rest;
      OwingNeverPays(1, d[2..], rest);
      assert d[1..] == Braces(1) + d[2..];
      assert Braced(text).value[1..] == Braced(text[2..]).value;
    }
  }

  lemma {:induction false} NothingToReplace(s: string, c: char, with: string)
    requires c !in s
    ensures ReplaceChar(s, c, with) == s
  {
    if s != [] { NothingToReplace(s[1..], c, with); }
  }

  predicate Named(settings: seq<Setting>) {
    forall s :: s in settings ==> '=' !in s.keyword
  }

  lemma NamedJoins(a: seq<Setting>, b: seq<Setting>)
    requires Named(a) && Named(b)
    ensures Named(a + b)
  {
  }

  lemma WhenNamed(present: bool, setting: Setting)
    requires '=' !in setting.keyword
    ensures Named(When(present, setting))
  {
  }

  lemma OneNamed(setting: Setting)
    requires '=' !in setting.keyword
    ensures Named([setting])
  {
  }

  lemma LoginNamed(seconds: Option<int>, user: Option<string>, password: Option<string>)
    ensures Named(Timeout(seconds)) && Named(Identity(user, password))
  {
    hide Named, Decimal;
    WhenNamed(false, Setting("", ""));
    if seconds.Some? { OneNamed(Setting("Connection Timeout", Decimal(seconds.value))); }
    if user.Some? && user.value != "" {
      var uid, pwd := Setting("UID", user.value), Setting("PWD", if password.Some? then password.value else "");
      OneNamed(uid);
      OneNamed(pwd);
      NamedJoins([uid], [pwd]);
      assert Identity(user, password) == [uid] + [pwd];
    } else {
      OneNamed(Setting("Trusted_Connection", "yes"));
    }
  }

  lemma ServerNamed(host: string)
    ensures Named([Setting("SERVER", host), Setting("Encrypt", "yes")])
  {
    var server, encrypt := Setting("SERVER", host), Setting("Encrypt", "yes");
    OneNamed(server);
    OneNamed(encrypt);
    NamedJoins([server], [encrypt]);
    assert [server] + [encrypt] == [server, encrypt];
  }

  lemma IntendedKeywords(login: Login)
    ensures Intended(login) != [] && Named(Intended(login))
  {
    hide Named, Decimal, HostAndPort, When, Timeout, Identity;
    ServerNamed(HostAndPort(login));
    WhenNamed(login.trustServerCertificate, Setting("TrustServerCertificate", "yes"));
    WhenNamed(login.database != "", Setting("DATABASE", login.database));
    LoginNamed(login.loginTimeout, login.user, login.password);
    FiveNamed([Setting("SERVER", HostAndPort(login)), Setting("Encrypt", "yes")],
              When(login.trustServerCertificate, Setting("TrustServerCertificate", "yes")), Timeout(login.loginTimeout),
              When(login.database != "", Setting("DATABASE", login.database)), Identity(login.user, login.password));
  }

  lemma FiveNamed(a: seq<Setting>, b: seq<Setting>, c: seq<Setting>, d: seq<Setting>, e: seq<Setting>)
    requires Named(a) && Named(b) && Named(c) && Named(d) && Named(e)
    ensures Named(a + b + c + d + e)
  {
    hide Named;
    NamedJoins(a, b);
    NamedJoins(a + b, c);
    NamedJoins(a + b + c, d);
    NamedJoins(a + b + c + d, e);
  }

  lemma JoinMore(part: string, parts: seq<string>)
    requires parts != []
    ensures Join([part] + parts) == part + (";" + Join(parts))
  {
    assert ([part] + parts)[1..] == parts;
  }

  lemma PrintedStarts(login: Login) returns (tail: string)
    ensures Printed(login) == "DRIVER={" + login.driver + "}" + tail
    ensures tail != [] && tail[0] == ';' && Parse(tail[1..]) == Some(Intended(login))
  {
    hide Parse, Part, Intended, Join;
    IntendedKeywords(login);
    SettingsReadBack(Intended(login));
    tail := ";" + Join(Parts(Intended(login)));
    JoinMore(DriverPart(login), Parts(Intended(login)));
    assert tail[1..] == Join(Parts(Intended(login)));
  }

  lemma DriverKeyword(d: string, tail: string)
    ensures
      var text := "DRIVER={" + d + "}" + tail;
      Until(text, '=') == "DRIVER" && Value(text[7..]) == Braced(d + "}" + tail)
  {
    hide Braced;
    var text, rest := "DRIVER={" + d + "}" + tail, "={" + d + "}" + tail;
    assert text == "DRIVER" + rest;
    assert rest[0] == '=';
    UntilFront("DRIVER", '=', rest);
    assert text[7..] == "{" + d + "}" + tail;
    assert text[7..][1..] == d + "}" + tail;
  }

  lemma ParseFirst(text: string)
    requires text != [] && |Until(text, '=')| < |text| && Parse(text).Some?
    ensures
      var scan := Value(text[|Until(text, '=')| + 1..]);
      scan.Scan? && Parse(text).value != [] && Parse(text).value[0] == Setting(Until(text, '='), scan.value)
  {
    hide Until, Value;
  }

  /**
   The connection string says exactly what it was meant to say, for every host,
   port, user, password and database, if and only if the driver has no closing brace.
   */
  lemma SaysWhatIsMeantIff(login: Login)
    ensures Parse(Printed(login)) == Some([Setting("DRIVER", login.driver)] + Intended(login)) <==> '}' !in login.driver
  {
    hide *;
    var tail := PrintedStarts(login);
    DriverKeyword(login.driver, tail);
    if '}' in login.driver {
      if Parse(Printed(login)).Some? {
        ParseFirst(Printed(login));
        BraceInDriverBreaks(login.driver, tail);
      }
    } else {
      NothingToReplace(login.driver, '}', "}}");
      BracedReadsBack(login.driver, tail);
      ParseOne(Printed(login), Setting("DRIVER", login.driver), tail, Intended(login));
    }
  }
}
