/**
 Two kinds of writer share the staging rows: scans and `annotate`.

 Over any interleaving of their writes, each field of a row is read off the log of
 events alone: who wrote it last since the row's latest appearance.
 */
module Replay {
  import opened Wrappers
  import opened Contracts
  import opened Tables

  datatype Event =
    | Upsert(info: ContainerInfo, hash: Hash, error: Option<string>, at: Time)
    | Replace(key: Key, columns: seq<ColumnInfo>, at: Time)
    | Note(key: Key, description: Option<string>, annotations: seq<Annotation>, source: Source, at: Time)
    | Profiled(key: Key, column: string, mode: ProfileMode, result: ProfileResult)
    | Detect(key: Key, levels: map<string, Sensitivity>)
    | Forget(key: Key)

  function Target(e: Event): Key {
    match e
    case Upsert(info, _, _, _) => KeyOf(info)
    case Replace(key, _, _) => key
    case Note(key, _, _, _, _) => key
    case Profiled(key, _, _, _) => key
    case Detect(key, _) => key
    case Forget(key) => key
  }

  function Apply(s: Store, e: Event): Store {
    match e
    case Upsert(info, hash, error, at) => UpsertContainer(s, info, hash, error, at)
    case Replace(key, columns, at) => ReplaceColumns(s, key, columns, at)
    case Note(key, description, annotations, source, at) => Annotate(s, key, description, annotations, source, at)
    case Profiled(key, column, mode, result) => RecordProfile(s, key, column, mode, result)
    case Detect(key, levels) => RecordSensitivity(s, key, levels, Detected)
    case Forget(key) => ForgetContainer(s, key)
  }

  /** The tables after the first n events of a log. */
  function StoreAt(log: seq<Event>, n: nat): Store
    requires n <= |log|
  {
    if n == 0 then EMPTY else Apply(StoreAt(log, n - 1), log[n - 1])
  }

  // ---- questions about the log alone ----

  predicate Reshapes(e: Event, k: Key) {
    (e.Replace? || e.Forget?) && e.key == k
  }

  predicate Lists(e: Event, k: Key, c: string) {
    e.Replace? && e.key == k && c in Shape(e.columns)
  }

  /** The column is there: the last event to reshape its container lists it. */
  predicate Present(log: seq<Event>, n: nat, k: Key, c: string)
    requires n <= |log|
  {
    n > 0 && if Reshapes(log[n - 1], k) then Lists(log[n - 1], k, c) else Present(log, n - 1, k, c)
  }

  /** The last event to reshape the container. */
  function LastReshape(log: seq<Event>, n: nat, k: Key, c: string): (i: nat)
    requires n <= |log| && Present(log, n, k, c)
    ensures i < n && Lists(log[i], k, c) && forall j :: i < j < n ==> !Reshapes(log[j], k)
  {
    if Reshapes(log[n - 1], k) then n - 1 else LastReshape(log, n - 1, k, c)
  }

  /** The event of the column's latest appearance: absent before it, present ever since. */
  function Born(log: seq<Event>, n: nat, k: Key, c: string): (b: nat)
    requires n <= |log| && Present(log, n, k, c)
    ensures b < n && !Present(log, b, k, c) && forall m :: b < m <= n ==> Present(log, m, k, c)
  {
    if Present(log, n - 1, k, c) then Born(log, n - 1, k, c) else n - 1
  }

  /** The container has a row: it was upserted since it was last forgotten. */
  predicate HasRow(log: seq<Event>, n: nat, k: Key)
    requires n <= |log|
  {
    n > 0 &&
    match log[n - 1]
    case Upsert(info, _, _, _) => KeyOf(info) == k || HasRow(log, n - 1, k)
    case Forget(key) => key != k && HasRow(log, n - 1, k)
    case _ => HasRow(log, n - 1, k)
  }

  function RowBorn(log: seq<Event>, n: nat, k: Key): (b: nat)
    requires n <= |log| && HasRow(log, n, k)
    ensures b < n && !HasRow(log, b, k) && forall m :: b < m <= n ==> HasRow(log, m, k)
  {
    if HasRow(log, n - 1, k) then RowBorn(log, n - 1, k) else n - 1
  }

  datatype Field = WrittenText | AnnotatedLevel | DetectedLevel | Statistic(mode: ProfileMode)

  datatype Value = TextValue(writing: Writing) | LevelValue(level: Level) | StatisticValue(result: ProfileResult)

  /** What one event writes to a field of a column; an annotation needs the container's row. */
  function Wrote(e: Event, hasRow: bool, k: Key, c: string, field: Field): Option<Value> {
    match e
    case Note(key, _, annotations, source, at) =>
      if key != k || !hasRow then None
      else if field.WrittenText? && DescriptionFor(annotations, c).Some?
      then Some(TextValue(Writing(BlankToNone(DescriptionFor(annotations, c).value), source, at)))
      else if field.AnnotatedLevel? && SensitivityFor(annotations, c).Some?
      then Some(LevelValue(Level(SensitivityFor(annotations, c).value, source)))
      else None
    case Detect(key, levels) =>
      if key == k && field.DetectedLevel? && c in levels then Some(LevelValue(Level(levels[c], Detected))) else None
    case Profiled(key, column, mode, result) =>
      if key == k && column == c && field == Statistic(mode) then Some(StatisticValue(result)) else None
    case _ => None
  }

  /** The last value written to a field by the events from `lo` on. */
  function LastWrite(log: seq<Event>, lo: nat, n: nat, k: Key, c: string, field: Field): Option<Value>
    requires n <= |log|
  {
    if n <= lo then None
    else
      var wrote := Wrote(log[n - 1], HasRow(log, n - 1, k), k, c, field);
      if wrote.Some? then wrote else LastWrite(log, lo, n - 1, k, c, field)
  }

  function WroteAt(log: seq<Event>, i: nat, k: Key, c: string, field: Field): Option<Value>
    requires i < |log|
  {
    Wrote(log[i], HasRow(log, i, k), k, c, field)
  }

  /** `LastWrite` by position: event i wrote the value and none after it wrote the field; or none wrote it at all. */
  lemma {:induction false} LastWriteAt(log: seq<Event>, lo: nat, n: nat, k: Key, c: string, field: Field) returns (i: nat)
    requires n <= |log|
    ensures LastWrite(log, lo, n, k, c, field).None? ==> forall j :: lo <= j < n ==> WroteAt(log, j, k, c, field).None?
    ensures LastWrite(log, lo, n, k, c, field).Some? ==>
      && lo <= i < n && WroteAt(log, i, k, c, field) == LastWrite(log, lo, n, k, c, field)
      && forall j :: i < j < n ==> WroteAt(log, j, k, c, field).None?
  {
    hide Wrote, HasRow;
    if n <= lo || WroteAt(log, n - 1, k, c, field).Some? {
      i := if n == 0 then 0 else n - 1;
    } else {
      i := LastWriteAt(log, lo, n - 1, k, c, field);
    }
  }

  // ---- one event, one row ----

  function WritingOf(value: Option<Value>): Option<Writing> {
    if value.Some? && value.value.TextValue? then Some(value.value.writing) else None
  }

  function LevelOf(value: Option<Value>): Option<Level> {
    if value.Some? && value.value.LevelValue? then Some(value.value.level) else None
  }

  function ResultOf(value: Option<Value>): Option<ProfileResult> {
    if value.Some? && value.value.StatisticValue? then Some(value.value.result) else None
  }

  function StatisticOf(row: ColumnRow, mode: ProfileMode): Option<ProfileResult> {
    if mode in row.profile then Some(row.profile[mode]) else None
  }

  function OrElse<T>(a: Option<T>, b: Option<T>): Option<T> {
    if a.Some? then a else b
  }

  lemma ColumnsStep(s: Store, e: Event, k: Key, c: string)
    ensures c in Columns(Apply(s, e), k) <==> if Reshapes(e, k) then Lists(e, k, c) else c in Columns(s, k)
  {
    hide BlankToNone, DescriptionFor, SensitivityFor, Shape;
  }

  /** How one event changes a row that was there and stays. */
  lemma RowStep(s: Store, e: Event, k: Key, c: string)
    requires c in Columns(s, k) && c in Columns(Apply(s, e), k)
    ensures
      var row, after := Columns(s, k)[c], Columns(Apply(s, e), k)[c];
      var has := k in s.containers;
      && after.written == OrElse(WritingOf(Wrote(e, has, k, c, WrittenText)), row.written)
      && after.sensitivity == OrElse(LevelOf(Wrote(e, has, k, c, AnnotatedLevel)),
                                     if MayJudge(row, Detected)
                                     then OrElse(LevelOf(Wrote(e, has, k, c, DetectedLevel)), row.sensitivity)
                                     else row.sensitivity)
      && (forall mode :: StatisticOf(after, mode) == OrElse(ResultOf(Wrote(e, has, k, c, Statistic(mode))), StatisticOf(row, mode)))
      && (!Reshapes(e, k) ==> after.info == row.info && after.scannedAt == row.scannedAt)
  {
    hide BlankToNone, DescriptionFor, SensitivityFor, Shape;
  }

  lemma RowListed(s: Store, e: Event, k: Key, c: string)
    requires Lists(e, k, c)
    ensures c in Columns(Apply(s, e), k)
    ensures
      var after := Columns(Apply(s, e), k)[c];
      && after.info == Shape(e.columns)[c] && after.scannedAt == e.at
      && (c !in Columns(s, k) ==> after.written.None? && after.sensitivity.None? && after.profile == map[])
  {
    hide Shape;
  }

  lemma ContainerStep(s: Store, e: Event, k: Key)
    ensures k in Apply(s, e).containers
       <==> if e.Upsert? && KeyOf(e.info) == k then true else if e == Forget(k) then false else k in s.containers
  {
    hide BlankToNone, DescriptionFor, SensitivityFor, Shape;
  }

  lemma {:induction false} HasRowReplay(log: seq<Event>, n: nat, k: Key)
    requires n <= |log|
    ensures k in StoreAt(log, n).containers <==> HasRow(log, n, k)
  {
    if n > 0 {
      HasRowReplay(log, n - 1, k);
      ContainerStep(StoreAt(log, n - 1), log[n - 1], k);
    }
  }

  lemma {:induction false} PresentReplay(log: seq<Event>, n: nat, k: Key, c: string)
    requires n <= |log|
    ensures c in Columns(StoreAt(log, n), k) <==> Present(log, n, k, c)
  {
    if n > 0 {
      PresentReplay(log, n - 1, k, c);
      ColumnsStep(StoreAt(log, n - 1), log[n - 1], k, c);
    }
  }

  /** `annotate` writes as an agent, a person or the source, never as the detector. */
  predicate DetectorIsAlone(log: seq<Event>) {
    forall i :: 0 <= i < |log| && log[i].Note? ==> log[i].source != Detected
  }

  /** What a column's row should hold, read off the log. */
  ghost predicate RowAccountsFor(row: ColumnRow, log: seq<Event>, n: nat, k: Key, c: string)
    requires n <= |log| && Present(log, n, k, c)
  {
    var b := Born(log, n, k, c);
    var listing := log[LastReshape(log, n, k, c)];
    var annotated := LevelOf(LastWrite(log, b, n, k, c, AnnotatedLevel));
    && row.written == WritingOf(LastWrite(log, b, n, k, c, WrittenText))
    && row.sensitivity == OrElse(annotated, LevelOf(LastWrite(log, b, n, k, c, DetectedLevel)))
    && (forall mode :: StatisticOf(row, mode) == ResultOf(LastWrite(log, b, n, k, c, Statistic(mode))))
    && row.info == Shape(listing.columns)[c] && row.scannedAt == listing.at
  }

  /** The last written level keeps the kind of its writer. */
  lemma {:induction false} LevelSource(log: seq<Event>, lo: nat, n: nat, k: Key, c: string)
    requires n <= |log| && DetectorIsAlone(log)
    ensures
      var annotated := LastWrite(log, lo, n, k, c, AnnotatedLevel);
      var detected := LastWrite(log, lo, n, k, c, DetectedLevel);
      && (annotated.Some? ==> annotated.value.LevelValue? && annotated.value.level.source != Detected)
      && (detected.Some? ==> detected.value.LevelValue? && detected.value.level.source == Detected)
  {
    if n > lo { LevelSource(log, lo, n - 1, k, c); }
  }

  /**
   Whatever the interleaving: a column is there exactly when the last reshaping of
   its container lists it, and then every field of its row is the last write to it
   since the column's latest appearance, an annotated sensitivity outranking a detected one.
   */
  lemma {:induction false} ColumnReplay(log: seq<Event>, n: nat, k: Key, c: string)
    requires n <= |log| && DetectorIsAlone(log)
    ensures c in Columns(StoreAt(log, n), k) <==> Present(log, n, k, c)
    ensures Present(log, n, k, c) ==> RowAccountsFor(Columns(StoreAt(log, n), k)[c], log, n, k, c)
  {
    PresentReplay(log, n, k, c);
    if Present(log, n, k, c) {
      var s, e := StoreAt(log, n - 1), log[n - 1];
      PresentReplay(log, n - 1, k, c);
      if Lists(e, k, c) { RowListed(s, e, k, c); }
      if Present(log, n - 1, k, c) {
        ColumnReplay(log, n - 1, k, c);
        HasRowReplay(log, n - 1, k);
        RowStep(s, e, k, c);
        RowGrows(s, log, n, k, c);
      } else {
        BornNow(s, log, n, k, c);
      }
    }
  }

  lemma RowGrows(s: Store, log: seq<Event>, n: nat, k: Key, c: string)
    requires 0 < n <= |log| && DetectorIsAlone(log) && s == StoreAt(log, n - 1)
    requires Present(log, n, k, c) && Present(log, n - 1, k, c)
    requires c in Columns(s, k) && c in Columns(StoreAt(log, n), k)
    requires k in s.containers <==> HasRow(log, n - 1, k)
    requires RowAccountsFor(Columns(s, k)[c], log, n - 1, k, c)
    ensures RowAccountsFor(Columns(StoreAt(log, n), k)[c], log, n, k, c)
  {
    hide Apply, Shape, Columns, BlankToNone, DescriptionFor, SensitivityFor, HasRow;
    var e, b := log[n - 1], Born(log, n, k, c);
    RowStep(s, e, k, c);
    if Lists(e, k, c) { RowListed(s, e, k, c); }
    LevelSource(log, b, n - 1, k, c);
    LevelSource(log, b, n, k, c);
    hide Wrote;
  }

  lemma BornNow(s: Store, log: seq<Event>, n: nat, k: Key, c: string)
    requires 0 < n <= |log| && s == StoreAt(log, n - 1)
    requires Present(log, n, k, c) && !Present(log, n - 1, k, c)
    requires c !in Columns(s, k)
    ensures c in Columns(StoreAt(log, n), k)
    ensures RowAccountsFor(Columns(StoreAt(log, n), k)[c], log, n, k, c)
  {
    var e := log[n - 1];
    RowListed(s, e, k, c);
    hide Shape, Columns, Apply;
    var m := n - 1;
    forall field ensures LastWrite(log, m, n, k, c, field).None? {
      assert LastWrite(log, m, m, k, c, field).None?;
    }
  }

  // ---- the container's own row ----

  function NoteOn(e: Event, hasRow: bool, k: Key): Option<Writing> {
    match e
    case Note(key, description, _, source, at) =>
      if key == k && hasRow && description.Some? then Some(Writing(BlankToNone(description.value), source, at)) else None
    case _ => None
  }

  function LastNote(log: seq<Event>, lo: nat, n: nat, k: Key): Option<Writing>
    requires n <= |log|
  {
    if n <= lo then None
    else OrElse(NoteOn(log[n - 1], HasRow(log, n - 1, k), k), LastNote(log, lo, n - 1, k))
  }

  function LastUpsert(log: seq<Event>, n: nat, k: Key): (i: nat)
    requires n <= |log| && HasRow(log, n, k)
    ensures i < n && log[i].Upsert? && KeyOf(log[i].info) == k
    ensures forall j :: i < j < n ==> !(log[j].Upsert? && KeyOf(log[j].info) == k)
  {
    if log[n - 1].Upsert? && KeyOf(log[n - 1].info) == k then n - 1 else LastUpsert(log, n - 1, k)
  }

  /** Rescans overwrite what they own and leave the written description alone. */
  lemma {:induction false} ContainerReplay(log: seq<Event>, n: nat, k: Key)
    requires n <= |log|
    ensures k in StoreAt(log, n).containers <==> HasRow(log, n, k)
    ensures HasRow(log, n, k) ==>
      var row, upsert := StoreAt(log, n).containers[k], log[LastUpsert(log, n, k)];
      && row.written == LastNote(log, RowBorn(log, n, k), n, k)
      && row.schemaHash == upsert.hash && row.error == upsert.error && row.scannedAt == upsert.at
      && row.nativeDescription == upsert.info.nativeDescription && row.containerType == upsert.info.containerType
      && row.estimatedCount == upsert.info.estimatedCount && row.lastModifiedAt == upsert.info.lastModifiedAt
  {
    HasRowReplay(log, n, k);
    if HasRow(log, n, k) {
      HasRowReplay(log, n - 1, k);
      if HasRow(log, n - 1, k) {
        ContainerReplay(log, n - 1, k);
      } else {
        assert LastNote(log, n - 1, n - 1, k).None?;
      }
      hide BlankToNone, DescriptionFor, SensitivityFor, Shape;
      assert StoreAt(log, n) == Apply(StoreAt(log, n - 1), log[n - 1]);
    }
  }

  // ---- other containers are untouched ----

  function Restrict(log: seq<Event>, k: Key): seq<Event> {
    if log == [] then []
    else
      var n := |log| - 1;
      Restrict(log[..n], k) + if Target(log[n]) == k then [log[n]] else []
  }

  lemma ElsewhereUntouched(s: Store, e: Event, k: Key)
    requires Target(e) != k
    ensures SameRows(s, Apply(s, e), k)
  {
    hide BlankToNone, DescriptionFor, SensitivityFor, Shape;
  }

  lemma SameHere(s: Store, t: Store, e: Event, k: Key)
    requires Target(e) == k && SameRows(s, t, k) && (k in s.columns <==> k in t.columns)
    ensures SameRows(Apply(s, e), Apply(t, e), k)
    ensures k in Apply(s, e).columns <==> k in Apply(t, e).columns
  {
    hide BlankToNone, DescriptionFor, SensitivityFor, Shape;
  }

  lemma {:induction false} StoreAtPrefix(log: seq<Event>, more: seq<Event>, n: nat)
    requires n <= |log|
    ensures StoreAt(log, n) == StoreAt(log + more, n)
  {
    if n > 0 { StoreAtPrefix(log, more, n - 1); }
  }

  /** A container's rows depend on the events about that container only, in their order. */
  lemma {:induction false} ContainersAreIndependent(log: seq<Event>, k: Key)
    ensures
      var own := Restrict(log, k);
      SameRows(StoreAt(log, |log|), StoreAt(own, |own|), k)
      && (k in StoreAt(log, |log|).columns <==> k in StoreAt(own, |own|).columns)
  {
    hide Apply, Columns;
    if log != [] {
      var n := |log| - 1;
      var earlier, e := log[..n], log[n];
      ContainersAreIndependent(earlier, k);
      assert log == earlier + [e];
      StoreAtPrefix(earlier, [e], n);
      var own := Restrict(earlier, k);
      if Target(e) == k {
        StoreAtPrefix(own, [e], |own|);
        assert Restrict(log, k) == own + [e];
        SameHere(StoreAt(earlier, n), StoreAt(own, |own|), e, k);
      } else {
        assert Restrict(log, k) == own;
        ElsewhereUntouched(StoreAt(earlier, n), e, k);
        ElsewhereKeepsKey(StoreAt(earlier, n), e, k);
      }
    }
  }

  lemma ElsewhereKeepsKey(s: Store, e: Event, k: Key)
    requires Target(e) != k
    ensures k in s.columns <==> k in Apply(s, e).columns
  {
    hide BlankToNone, DescriptionFor, SensitivityFor, Shape;
  }
}
