/**
 The rotating audit log: an in-place shuffle of numbered files.

 File 0 is the current one, file i the backup with suffix `.i`.  A record is one
 line of JSON; the clock, the JSON encoder and the lock around `_emit` are outside
 the model.
 */
module Audit {
  import T = Text

  /** What is on disk. */
  type Files = map<nat, string>

  datatype Config = Config(maxBytes: int, backups: int)

  /** Bytes of one character in UTF-8. */
  function Utf8(c: char): nat {
    if c < '\U{80}' then 1 else if c < '\U{800}' then 2 else if c < '\U{10000}' then 3 else 4
  }

  /** `stat().st_size` of a file holding this text. */
  function Size(text: string): nat {
    if text == [] then 0 else Utf8(text[0]) + Size(text[1..])
  }

  /** A trailing byte of a sequence, and what it carries. */
  predicate IsTail(b: int) { 0x80 <= b <= 0xBF }

  /** The UTF-8 sequence of a character number, as table 3.1 of RFC 3629 has it: never longer than it need be. */
  predicate IsUtf8(bytes: seq<int>, n: int) {
    || (|bytes| == 1 && 0 <= bytes[0] < 0x80 && n == bytes[0])
    || (|bytes| == 2 && 0xC0 <= bytes[0] < 0xE0 && IsTail(bytes[1])
        && n == (bytes[0] - 0xC0) * 0x40 + (bytes[1] - 0x80) && n >= 0x80)
    || (|bytes| == 3 && 0xE0 <= bytes[0] < 0xF0 && IsTail(bytes[1]) && IsTail(bytes[2])
        && n == (bytes[0] - 0xE0) * 0x1000 + (bytes[1] - 0x80) * 0x40 + (bytes[2] - 0x80) && n >= 0x800)
    || (|bytes| == 4 && 0xF0 <= bytes[0] < 0xF8 && IsTail(bytes[1]) && IsTail(bytes[2]) && IsTail(bytes[3])
        && n == (bytes[0] - 0xF0) * 0x40000 + (bytes[1] - 0x80) * 0x1000 + (bytes[2] - 0x80) * 0x40 + (bytes[3] - 0x80)
        && 0x10000 <= n <= 0x10FFFF)
  }

  lemma Utf8IsLength(c: char) returns (bytes: seq<int>)
    ensures IsUtf8(bytes, c as int) && |bytes| == Utf8(c)
  {
    var n := c as int;
    var front, low := SixBits(n);
    var top, mid := SixBits(front);
    var first, high := SixBits(top);
    bytes := if n < 0x80 then [n]
             else if n < 0x800 then [0xC0 + front, 0x80 + low]
             else if n < 0x10000 then [0xE0 + top, 0x80 + mid, 0x80 + low]
             else [0xF0 + first, 0x80 + high, 0x80 + mid, 0x80 + low];
  }

  lemma SixBits(n: nat) returns (front: nat, last: nat)
    ensures n == front * 0x40 + last && last < 0x40
  {
    front, last := n / 0x40, n % 0x40;
  }

  function Flat(sequences: seq<seq<int>>): seq<int> {
    if sequences == [] then [] else sequences[0] + Flat(sequences[1..])
  }

  /** The size of a text is the number of bytes of its characters' sequences, one after another. */
  lemma {:induction false} SizeIsUtf8(text: string) returns (sequences: seq<seq<int>>)
    ensures |sequences| == |text| && forall i :: 0 <= i < |text| ==> IsUtf8(sequences[i], text[i] as int)
    ensures Size(text) == |Flat(sequences)|
  {
    sequences := [];
    if text != [] {
      var rest := SizeIsUtf8(text[1..]);
      var first := Utf8IsLength(text[0]);
      sequences := [first] + rest;
      assert sequences[1..] == rest;
    }
  }

  predicate Rotates(cfg: Config) { cfg.maxBytes > 0 && cfg.backups > 0 }

  predicate IsFull(cfg: Config, files: Files) {
    Rotates(cfg) && 0 in files && Size(files[0]) >= cfg.maxBytes
  }

  /** Every file up to the last backup one place on, the last one gone; files past it are nobody's. */
  function Shifted(files: Files, backups: nat): Files {
    map i: nat | i in ShiftedNames(files, backups) :: if i > backups then files[i] else files[i - 1]
  }

  function ShiftedNames(files: Files, backups: nat): (names: set<nat>)
    ensures forall i :: i in names <==> (if i > backups then i in files else i > 0 && i - 1 in files)
  {
    (set i | i in files && i > backups) + (set i | i in files && i < backups :: i + 1)
  }

  function Rotated(cfg: Config, files: Files): Files {
    if IsFull(cfg, files) then Shifted(files, cfg.backups) else files
  }

  function Appended(files: Files, text: string): Files {
    files[0 := (if 0 in files then files[0] else "") + text]
  }

  function Emitted(cfg: Config, files: Files, line: string): Files {
    Appended(Rotated(cfg, files), line + "\n")
  }

  /** The files after these records, from an empty directory. */
  function After(cfg: Config, lines: seq<string>): Files {
    if lines == [] then map[] else Emitted(cfg, After(cfg, lines[..|lines| - 1]), lines[|lines| - 1])
  }

  /** Files above `index` moved one place on, up to the last backup; `index + 1` free; the others where they were. */
  ghost predicate MovedFrom(before: Files, files: Files, index: int, backups: int) {
    && index + 1 !in files
    && (forall i: nat :: i <= index || i > backups ==> (i in files <==> i in before) && (i in files ==> files[i] == before[i]))
    && (forall i: nat :: index + 1 < i <= backups ==>
          (i in files <==> i - 1 in before) && (i in files ==> files[i] == before[i - 1]))
  }

  lemma MoveOne(before: Files, files: Files, index: int, backups: int)
    requires 0 < index < backups && MovedFrom(before, files, index, backups)
    ensures MovedFrom(before, if index in files then files[index + 1 := files[index]] - {index} else files, index - 1, backups)
  {
  }

  lemma FirstMove(before: Files, backups: int)
    requires backups > 0
    ensures MovedFrom(before, before - {backups}, backups - 1, backups)
  {
  }

  lemma LastMove(before: Files, files: Files, backups: int)
    requires backups > 0 && 0 in before && MovedFrom(before, files, 0, backups)
    ensures 0 in files && files[1 := files[0]] - {0} == Shifted(before, backups)
  {
  }

  class AuditLogger {
    /** Without a path nothing is written. */
    const hasPath: bool
    const cfg: Config
    var files: Files

    constructor (hasPath: bool, cfg: Config)
      ensures this.hasPath == hasPath && this.cfg == cfg && files == map[]
    {
      this.hasPath := hasPath;
      this.cfg := cfg;
      files := map[];
    }

    /** The loop runs downwards: each rename finds the number above it free. */
    method RotateIfFull()
      modifies this
      ensures files == Rotated(cfg, old(files))
    {
      hide Size, MovedFrom, Shifted;
      if cfg.maxBytes <= 0 || cfg.backups <= 0 {
        return;
      }
      if 0 !in files || Size(files[0]) < cfg.maxBytes {
        return;
      }
      ghost var before := files;
      files := files - {cfg.backups};
      FirstMove(before, cfg.backups);
      var index := cfg.backups - 1;
      while index > 0
        invariant 0 <= index < cfg.backups
        invariant MovedFrom(before, files, index, cfg.backups)
      {
        MoveOne(before, files, index, cfg.backups);
        if index in files {
          files := files[index + 1 := files[index]] - {index};
        }
        index := index - 1;
      }
      LastMove(before, files, cfg.backups);
      files := files[1 := files[0]] - {0};
    }

    method Emit(line: string)
      modifies this
      ensures files == if hasPath then Emitted(cfg, old(files), line) else old(files)
    {
      if !hasPath {
        return;
      }
      RotateIfFull();
      files := files[0 := (if 0 in files then files[0] else "") + (line + "\n")];
    }

    /** Read the trail back: the current file only. */
    method Records() returns (lines: seq<string>)
      ensures lines == if hasPath && 0 in files then NotBlank(SplitLines(files[0])) else []
    {
      lines := if hasPath && 0 in files then NotBlank(SplitLines(files[0])) else [];
    }
  }

  // ---- reading back ----

  /** Where `str.splitlines` ends a line. */
  predicate IsBreak(c: char) {
    '\n' <= c <= '\r' || '\U{1C}' <= c <= '\U{1E}' || c == '\U{85}' || c == '\U{2028}' || c == '\U{2029}'
  }

  function LineEnd(text: string): (n: nat)
    ensures n <= |text| && forall i :: 0 <= i < n ==> !IsBreak(text[i])
    ensures n < |text| ==> IsBreak(text[n])
  {
    if text == [] || IsBreak(text[0]) then 0 else 1 + LineEnd(text[1..])
  }

  /** `text.splitlines()`. */
  function SplitLines(text: string): seq<string>
    decreases |text|
  {
    var n := LineEnd(text);
    if text == [] then []
    else if n == |text| then [text]
    else if text[n] == '\r' && n + 1 < |text| && text[n + 1] == '\n' then [text[..n]] + SplitLines(text[n + 2..])
    else [text[..n]] + SplitLines(text[n + 1..])
  }

  /** The characters a line may end at. */
  const BREAKS := ['\n', '\U{B}', '\U{C}', '\r', '\U{1C}', '\U{1D}', '\U{1E}', '\U{85}', '\U{2028}', '\U{2029}']

  lemma BreaksAre(c: char)
    ensures IsBreak(c) <==> c in BREAKS
  {
  }

  /** What ends a line: one of the breaks, or a carriage return with its line feed. */
  predicate IsLineEnd(end: string) {
    end == "\r\n" || (|end| == 1 && IsBreak(end[0]))
  }

  /** Lines with what ended each of them. */
  function Woven(lines: seq<string>, ends: seq<string>): string
    requires |lines| == |ends|
  {
    if lines == [] then "" else lines[0] + ends[0] + Woven(lines[1..], ends[1..])
  }

  /**
   The text is these lines with an end behind each, only the last of which may be missing
   where its line is not empty; no line has a break inside, and no end is half of another.
   */
  ghost predicate AreLines(text: string, lines: seq<string>, ends: seq<string>) {
    && |lines| == |ends| && text == Woven(lines, ends)
    && (forall i :: 0 <= i < |lines| ==> OneLine(lines[i]))
    && (forall i :: 0 <= i < |ends| ==> IsLineEnd(ends[i]) || (ends[i] == "" && i == |ends| - 1 && lines[i] != ""))
    && forall i :: 0 <= i < |ends| - 1 && ends[i] == "\r" ==> lines[i + 1] != "" || ends[i + 1] != "\n"
  }

  lemma OneMoreLineEnd(line: string, end: string, text: string, lines: seq<string>, ends: seq<string>)
    requires AreLines(text, lines, ends) && OneLine(line)
    requires IsLineEnd(end) && (end == "\r" && text != "" ==> text[0] != '\n')
    ensures AreLines(line + end + text, [line] + lines, [end] + ends)
  {
    assert ([line] + lines)[1..] == lines && ([end] + ends)[1..] == ends;
    if lines != [] && lines[0] == "" && ends[0] == "\n" { assert text == ends[0] + Woven(lines[1..], ends[1..]); }
  }

  lemma {:induction false} SplitLinesTells(text: string) returns (ends: seq<string>)
    ensures AreLines(text, SplitLines(text), ends)
    decreases |text|
  {
    var n := LineEnd(text);
    var line := text[..n];
    if text == [] {
      ends := [];
    } else if n == |text| {
      ends := [""];
      assert text == line;
      assert Woven([text], [""]) == text + "" + Woven([], []);
    } else {
      var m := if text[n] == '\r' && n + 1 < |text| && text[n + 1] == '\n' then n + 2 else n + 1;
      var rest, end := text[m..], text[n..m];
      assert text == line + end + rest;
      var more := SplitLinesTells(rest);
      ends := [end] + more;
      OneMoreLineEnd(line, end, rest, SplitLines(rest), more);
    }
  }

  function NotBlank(lines: seq<string>): seq<string> {
    if lines == [] then []
    else (if T.Strip(lines[0]) == "" then [] else [lines[0]]) + NotBlank(lines[1..])
  }

  /** What `json.dumps` gives: it opens with a brace, and control characters are escaped. */
  predicate IsJson(line: string) {
    line != [] && line[0] == '{' && forall c :: c in line ==> c >= ' '
  }

  predicate OneLine(line: string) { forall c :: c in line ==> !IsBreak(c) }

  // ---- the trail ----

  /** These lines in one file. */
  function Written(lines: seq<string>): string {
    if lines == [] then "" else Written(lines[..|lines| - 1]) + (lines[|lines| - 1] + "\n")
  }

  /** Oldest file to current. */
  function Joined<T>(parts: seq<seq<T>>): seq<T> {
    if parts == [] then [] else Joined(parts[1..]) + parts[0]
  }

  /** The largest record, with its line end. */
  function Largest(lines: seq<string>): nat {
    if lines == [] then 0
    else
      var earlier, last := Largest(lines[..|lines| - 1]), Size(lines[|lines| - 1]) + 1;
      if earlier < last then last else earlier
  }

  /** The files are these parts: numbered without a gap, each of whole records. */
  ghost predicate Holds(files: Files, parts: seq<seq<string>>) {
    && (forall i: nat :: i in files <==> i < |parts|)
    && (forall i: nat :: i < |parts| ==> parts[i] != [] && files[i] == Written(parts[i]))
  }

  predicate IsSuffix<T(==)>(s: seq<T>, whole: seq<T>) {
    |s| <= |whole| && s == whole[|whole| - |s|..]
  }

  ghost predicate Sized(cfg: Config, lines: seq<string>, parts: seq<seq<string>>) {
    && (forall i: nat :: i < |parts| && Rotates(cfg) ==> Size(Written(parts[i])) < cfg.maxBytes + Largest(lines))
    && (forall i: nat :: 1 <= i < |parts| ==> Size(Written(parts[i])) >= cfg.maxBytes)
    && |parts| <= (if Rotates(cfg) then cfg.backups + 1 else 1)
  }

  ghost predicate Retained(cfg: Config, lines: seq<string>, parts: seq<seq<string>>) {
    && IsSuffix(Joined(parts), lines)
    && (lines != [] ==> parts != [])
    && (Joined(parts) != lines ==> Rotates(cfg) && |parts| == cfg.backups + 1)
  }

  ghost predicate IsTrail(cfg: Config, lines: seq<string>, files: Files, parts: seq<seq<string>>) {
    Holds(files, parts) && Sized(cfg, lines, parts) && Retained(cfg, lines, parts)
  }

  lemma {:induction false} SizeJoins(a: string, b: string)
    ensures Size(a + b) == Size(a) + Size(b)
  {
    if a == [] {
      assert a + b == b;
    } else {
      assert (a + b)[1..] == a[1..] + b;
      SizeJoins(a[1..], b);
    }
  }

  lemma OneMoreLine(part: seq<string>, line: string)
    ensures Written(part + [line]) == Written(part) + (line + "\n")
    ensures Size(Written(part + [line])) == Size(Written(part)) + Size(line) + 1
  {
    assert (part + [line])[..|part|] == part;
    SizeJoins(Written(part), line + "\n");
    SizeJoins(line, "\n");
  }

  /** What of the parts is still there when one more record is down. */
  function Kept<T>(parts: seq<seq<T>>, rotates: bool, backups: int): seq<seq<T>>
    requires rotates ==> backups > 0
  {
    if rotates && |parts| > backups then parts[..backups] else parts
  }

  /** The parts after one more record, the full file moved aside first where it has to be. */
  function Grown<T>(parts: seq<seq<T>>, line: T, rotates: bool, backups: int): (next: seq<seq<T>>)
    requires rotates ==> backups > 0
    ensures next != []
  {
    if parts == [] then [[line]]
    else if rotates then [[line]] + Kept(parts, rotates, backups)
    else [parts[0] + [line]] + parts[1..]
  }

  function NextParts(cfg: Config, parts: seq<seq<string>>, line: string): (next: seq<seq<string>>)
    ensures next != []
  {
    Grown(parts, line, parts != [] && Rotates(cfg) && Size(Written(parts[0])) >= cfg.maxBytes, cfg.backups)
  }

  lemma RotatedHolds(cfg: Config, files: Files, parts: seq<seq<string>>)
    requires Holds(files, parts) && (Rotates(cfg) ==> |parts| <= cfg.backups + 1)
    ensures IsFull(cfg, files) <==> parts != [] && Rotates(cfg) && Size(Written(parts[0])) >= cfg.maxBytes
    ensures IsFull(cfg, files) ==>
      var kept := Kept(parts, true, cfg.backups);
      forall i: nat :: (i in Rotated(cfg, files) <==> 1 <= i <= |kept|)
                    && (1 <= i <= |kept| ==> Rotated(cfg, files)[i] == Written(kept[i - 1]) && kept[i - 1] != [])
  {
    hide Size, Written;
    if IsFull(cfg, files) {
      var kept := Kept(parts, true, cfg.backups);
      var names := ShiftedNames(files, cfg.backups);
      forall i: nat
        ensures (i in Rotated(cfg, files) <==> 1 <= i <= |kept|)
             && (1 <= i <= |kept| ==> Rotated(cfg, files)[i] == Written(kept[i - 1]) && kept[i - 1] != [])
      {
        assert i in names <==> (if i > cfg.backups then i in files else i > 0 && i - 1 in files);
        assert i in files <==> i < |parts|;
        assert i > 0 ==> (i - 1 in files <==> i - 1 < |parts|);
      }
    }
  }

  lemma NextHolds(cfg: Config, files: Files, parts: seq<seq<string>>, line: string)
    requires Holds(files, parts) && (Rotates(cfg) ==> |parts| <= cfg.backups + 1)
    ensures Holds(Emitted(cfg, files, line), NextParts(cfg, parts, line))
  {
    hide Size, Written, IsFull, Shifted;
    var next, after := NextParts(cfg, parts, line), Emitted(cfg, files, line);
    RotatedHolds(cfg, files, parts);
    OneMoreLine([], line);
    WrittenLast([line]);
    if IsFull(cfg, files) {
      forall i: nat ensures (i in after <==> i < |next|) && (i < |next| ==> next[i] != [] && after[i] == Written(next[i])) {
        assert i > 0 ==> (i in after <==> i in Rotated(cfg, files));
      }
    } else if parts != [] {
      OneMoreLine(parts[0], line);
    }
  }

  lemma WrittenLast(lines: seq<string>)
    ensures lines == [] ==> Written(lines) == ""
    ensures lines != [] ==> Written(lines) == Written(lines[..|lines| - 1]) + (lines[|lines| - 1] + "\n")
    ensures |lines| == 1 ==> Written(lines) == lines[0] + "\n"
  {
    assert "" + (if lines == [] then "" else lines[|lines| - 1] + "\n") == if lines == [] then "" else lines[|lines| - 1] + "\n";
    if |lines| == 1 { assert lines[..0] == []; }
  }

  lemma LargestGrows(lines: seq<string>, line: string)
    ensures Largest(lines + [line]) >= Largest(lines) && Largest(lines + [line]) >= Size(line) + 1
  {
    assert (lines + [line])[..|lines|] == lines;
  }

  lemma NextSized(cfg: Config, lines: seq<string>, parts: seq<seq<string>>, line: string)
    requires Sized(cfg, lines, parts)
    ensures Sized(cfg, lines + [line], NextParts(cfg, parts, line))
  {
    hide Size, Written, Largest;
    LargestGrows(lines, line);
    OneMoreLine([], line);
    WrittenNone();
    assert [] + [line] == [line];
    if parts != [] { OneMoreLine(parts[0], line); }
    var next := NextParts(cfg, parts, line);
    forall i: nat | i < |next| ensures
      && (Rotates(cfg) ==> Size(Written(next[i])) < cfg.maxBytes + Largest(lines + [line]))
      && (i >= 1 ==> Size(Written(next[i])) >= cfg.maxBytes)
    {
    }
  }

  lemma WrittenNone()
    ensures Size(Written([])) == 0
  {
  }

  lemma {:induction false} JoinedHead<T>(parts: seq<seq<T>>, n: nat)
    requires n <= |parts|
    ensures IsSuffix(Joined(parts[..n]), Joined(parts))
  {
    if n > 0 {
      JoinedHead(parts[1..], n - 1);
      assert parts[..n][1..] == parts[1..][..n - 1];
    }
  }

  lemma SuffixGrows<T>(a: seq<T>, b: seq<T>, whole: seq<T>, last: T)
    requires IsSuffix(a, b) && IsSuffix(b, whole)
    ensures IsSuffix(a + [last], whole + [last])
  {
  }

  lemma JoinedNext<T>(last: seq<T>, older: seq<seq<T>>)
    ensures Joined([last] + older) == Joined(older) + last
  {
    assert ([last] + older)[1..] == older;
  }

  lemma JoinedGrown<T>(parts: seq<seq<T>>, line: T, rotates: bool, backups: int)
    requires rotates ==> backups > 0
    ensures Joined(Grown(parts, line, rotates, backups)) == Joined(Kept(parts, rotates, backups)) + [line]
  {
    if parts == [] {
      JoinedNext([line], []);
      assert [[line]] == [[line]] + [];
    } else if rotates {
      JoinedNext([line], Kept(parts, rotates, backups));
    } else {
      JoinedNext(parts[0] + [line], parts[1..]);
      assert Joined(parts[1..]) + (parts[0] + [line]) == Joined(parts) + [line];
    }
  }

  lemma JoinedKept<T>(parts: seq<seq<T>>, rotates: bool, backups: int)
    requires rotates ==> backups > 0
    ensures IsSuffix(Joined(Kept(parts, rotates, backups)), Joined(parts))
  {
    assert parts[..|parts|] == parts;
    JoinedHead(parts, |Kept(parts, rotates, backups)|);
  }

  /** What stays is a suffix, one record longer; only a rotation of more than `backups` files drops anything. */
  lemma GrownRetains<T>(lines: seq<T>, parts: seq<seq<T>>, line: T, rotates: bool, backups: int)
    requires (rotates ==> backups > 0) && IsSuffix(Joined(parts), lines)
    ensures IsSuffix(Joined(Grown(parts, line, rotates, backups)), lines + [line])
    ensures Joined(Grown(parts, line, rotates, backups)) != lines + [line] ==>
      Joined(parts) != lines || (rotates && |parts| > backups)
  {
    hide Joined, Grown;
    JoinedGrown(parts, line, rotates, backups);
    JoinedKept(parts, rotates, backups);
    SuffixGrows(Joined(Kept(parts, rotates, backups)), Joined(parts), lines, line);
  }

  lemma NextRetained(cfg: Config, lines: seq<string>, parts: seq<seq<string>>, line: string)
    requires |parts| <= (if Rotates(cfg) then cfg.backups + 1 else 1) && Retained(cfg, lines, parts)
    ensures Retained(cfg, lines + [line], NextParts(cfg, parts, line))
  {
    hide Size, Written, Joined;
    GrownRetains(lines, parts, line, parts != [] && Rotates(cfg) && Size(Written(parts[0])) >= cfg.maxBytes, cfg.backups);
  }

  lemma SizedBound(cfg: Config, lines: seq<string>, parts: seq<seq<string>>)
    requires Sized(cfg, lines, parts)
    ensures |parts| <= (if Rotates(cfg) then cfg.backups + 1 else 1)
  {
    hide Size, Written, Largest;
  }

  ghost predicate SomeTrail(cfg: Config, lines: seq<string>, files: Files) {
    exists parts :: IsTrail(cfg, lines, files, parts)
  }

  lemma NoTrailYet(cfg: Config)
    ensures SomeTrail(cfg, [], map[])
  {
    assert IsTrail(cfg, [], map[], []);
  }

  /**
   After any records: the files, oldest backup to current, are a contiguous suffix
   of everything emitted, cut between records, newest record last; the backups are
   numbered 1..k without a gap, k at most `backups`; every file is smaller than
   `maxBytes` plus the largest record; and what is dropped is dropped from a full
   set of full backups.
   */
  lemma {:induction false} FilesAreTrail(cfg: Config, lines: seq<string>)
    ensures SomeTrail(cfg, lines, After(cfg, lines))
  {
    hide Emitted, NextParts, Holds, Sized, Retained;
    if lines == [] {
      NoTrailYet(cfg);
    } else {
      var earlier, line := lines[..|lines| - 1], lines[|lines| - 1];
      var files := After(cfg, earlier);
      assert lines == earlier + [line];
      FilesAreTrail(cfg, earlier);
      var parts: seq<seq<string>> :| IsTrail(cfg, earlier, files, parts);
      SizedBound(cfg, earlier, parts);
      NextHolds(cfg, files, parts, line);
      NextSized(cfg, earlier, parts, line);
      NextRetained(cfg, earlier, parts, line);
      assert IsTrail(cfg, lines, Emitted(cfg, files, line), NextParts(cfg, parts, line));
    }
  }

  // ---- what the trail retains ----

  /** Bytes in files 0 to n - 1. */
  function DiskBytes(files: Files, n: nat): nat {
    if n == 0 then 0 else DiskBytes(files, n - 1) + if n - 1 in files then Size(files[n - 1]) else 0
  }

  lemma {:induction false} FullFilesAdd(cfg: Config, files: Files, n: nat)
    requires n >= 1 && cfg.maxBytes > 0 && forall i: nat :: 1 <= i < n ==> i in files && Size(files[i]) >= cfg.maxBytes
    ensures DiskBytes(files, n) >= (n - 1) * cfg.maxBytes
  {
    if n > 1 {
      FullFilesAdd(cfg, files, n - 1);
      assert (n - 1) * cfg.maxBytes == (n - 2) * cfg.maxBytes + cfg.maxBytes;
    }
  }

  /** Once anything has been dropped, at least `backups` times `maxBytes` bytes are on disk. */
  lemma DroppingKeepsEnough(cfg: Config, lines: seq<string>, parts: seq<seq<string>>)
    requires IsTrail(cfg, lines, After(cfg, lines), parts) && Joined(parts) != lines
    ensures DiskBytes(After(cfg, lines), cfg.backups + 1) >= cfg.backups * cfg.maxBytes
  {
    hide After, Size, Written;
    FullFilesAdd(cfg, After(cfg, lines), cfg.backups + 1);
  }

  // ---- reading the current file ----

  lemma {:induction false} SplitOneLine(line: string, rest: string)
    requires OneLine(line)
    ensures SplitLines(line + "\n" + rest) == [line] + SplitLines(rest)
  {
    var text := line + "\n" + rest;
    var n := LineEnd(text);
    assert text[|line|] == '\n';
    assert forall i :: 0 <= i < |line| ==> text[i] in line;
    assert text[..n] == line && text[n + 1..] == rest;
  }

  lemma {:induction false} SplitWritten(lines: seq<string>)
    requires forall line :: line in lines ==> OneLine(line)
    ensures SplitLines(Written(lines)) == lines
  {
    SplitMore(lines, "");
    assert Written(lines) + "" == Written(lines);
  }

  lemma {:induction false} SplitMore(lines: seq<string>, rest: string)
    requires forall line :: line in lines ==> OneLine(line)
    ensures SplitLines(Written(lines) + rest) == lines + SplitLines(rest)
  {
    hide *;
    WrittenLast(lines);
    if lines == [] {
      assert Written(lines) + rest == rest;
    } else {
      var n := |lines| - 1;
      var line := lines[n];
      SplitOneLine(line, rest);
      SplitMore(lines[..n], line + "\n" + rest);
      assert Written(lines) + rest == Written(lines[..n]) + (line + "\n" + rest);
      assert lines == lines[..n] + [line];
    }
  }

  lemma {:induction false} SplitIsBroken(text: string)
    ensures forall line :: line in SplitLines(text) ==> OneLine(line)
    decreases |text|
  {
    var n := LineEnd(text);
    if text != [] && n < |text| {
      SplitIsBroken(text[n + 1..]);
      if n + 2 <= |text| { SplitIsBroken(text[n + 2..]); }
    }
  }

  lemma {:induction false} NotBlankKeeps(lines: seq<string>)
    ensures forall line :: line in NotBlank(lines) ==> line in lines
    ensures (forall line :: line in lines ==> IsJson(line)) ==> NotBlank(lines) == lines
  {
    hide T.Strip, IsJson;
    if lines != [] {
      NotBlankKeeps(lines[1..]);
      if IsJson(lines[0]) { JsonIsNotBlank(lines[0]); }
    }
  }

  lemma JsonIsNotBlank(line: string)
    requires IsJson(line)
    ensures T.Strip(line) != ""
  {
    assert T.StripLeft(line) == line;
    if T.StripRight(line) == "" { AllSpace(line); }
  }

  lemma {:induction false} AllSpace(text: string)
    requires T.StripRight(text) == ""
    ensures forall c :: c in text ==> T.IsSpace(c)
  {
    if text != [] {
      AllSpace(text[..|text| - 1]);
      assert text == text[..|text| - 1] + [text[|text| - 1]];
    }
  }

  /**
   Reading the current file gives back exactly its records if and only if none of
   them holds one of the line ends JSON does not escape: U+0085, U+2028, U+2029.
   */
  lemma ReadsBackIff(lines: seq<string>)
    requires forall line :: line in lines ==> IsJson(line)
    ensures NotBlank(SplitLines(Written(lines))) == lines
       <==> forall line :: line in lines ==> '\U{85}' !in line && '\U{2028}' !in line && '\U{2029}' !in line
  {
    forall line | line in lines
      ensures OneLine(line) <==> '\U{85}' !in line && '\U{2028}' !in line && '\U{2029}' !in line
    {
    }
    if forall line :: line in lines ==> OneLine(line) {
      SplitWritten(lines);
      NotBlankKeeps(lines);
    }
    if NotBlank(SplitLines(Written(lines))) == lines {
      NotBlankKeeps(SplitLines(Written(lines)));
      SplitIsBroken(Written(lines));
    }
  }
}
