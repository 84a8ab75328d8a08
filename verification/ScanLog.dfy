/**
 What scans write, said of their readings: each row of a scanned container against
 what was read for it, and scans, removals and annotations as writers of the log
 that `Replay` reads every field off.
 */
module ScanLog {
  import opened Wrappers
  import opened Contracts
  import opened Tables
  import opened Scan
  import H = History
  import R = Replay

  // ---- one scan, by what it read ----

  predicate IsOf(p: Profile, c: string, mode: ProfileMode) { p.column == c && p.mode == mode }

  /** The i-th statistic is the last one of this column and mode. */
  predicate LastOf(profiles: seq<Profile>, i: nat, c: string, mode: ProfileMode) {
    i < |profiles| && IsOf(profiles[i], c, mode) && forall j :: i < j < |profiles| ==> !IsOf(profiles[j], c, mode)
  }

  /** A statistic is the last one read for it, else the one from before. */
  ghost predicate Gathered(before: Option<ProfileResult>, after: Option<ProfileResult>, profiles: seq<Profile>, c: string, mode: ProfileMode) {
    && (forall i: nat :: LastOf(profiles, i, c, mode) ==> after == Some(profiles[i].result))
    && ((forall i :: 0 <= i < |profiles| ==> !IsOf(profiles[i], c, mode)) ==> after == before)
  }

  /** A level is the one detected where none or a detected one was there, else the one from before. */
  predicate LevelDetected(before: Option<Level>, after: Option<Level>, levels: map<string, Sensitivity>, c: string) {
    after == if c in levels && (before.None? || before.value.source == Detected) then Some(Level(levels[c], Detected)) else before
  }

  /** A row as it is before the scan: what others wrote in it, or nothing where it is new. */
  function RowBefore(s: Store, k: Key, c: string, info: ColumnInfo, now: Time): ColumnRow {
    if c in Columns(s, k) then Columns(s, k)[c] else ColumnRow(info, None, None, map[], now)
  }

  /** A scanned column's row: what was listed, judged and gathered for it, and the description it had. */
  ghost predicate ColumnScanned(row: ColumnRow, after: ColumnRow, c: string, info: ColumnInfo, levels: map<string, Sensitivity>,
                                profiles: seq<Profile>, now: Time)
  {
    && after.info == info && after.scannedAt == now && after.written == row.written
    && LevelDetected(row.sensitivity, after.sensitivity, levels, c)
    && forall mode :: Gathered(R.StatisticOf(row, mode), R.StatisticOf(after, mode), profiles, c, mode)
  }

  /** The i-th column listed is the last of its name. */
  predicate LastListed(columns: seq<ColumnInfo>, i: nat) {
    i < |columns| && forall j :: i < j < |columns| ==> columns[j].name != columns[i].name
  }

  lemma ShapeStep(columns: seq<ColumnInfo>)
    requires columns != []
    ensures
      var n := |columns| - 1;
      Shape(columns) == Shape(columns[..n])[columns[n].name := columns[n]]
  {
  }

  /** Of columns listed twice under one name the last one counts. */
  lemma {:induction false} ShapeTakesLast(columns: seq<ColumnInfo>, i: nat)
    requires LastListed(columns, i)
    ensures columns[i].name in Shape(columns) && Shape(columns)[columns[i].name] == columns[i]
  {
    hide Shape;
    var n := |columns| - 1;
    ShapeStep(columns);
    if i < n {
      assert LastListed(columns[..n], i);
      ShapeTakesLast(columns[..n], i);
      assert columns[n].name != columns[i].name;
    }
  }

  /** The container's row: what was listed for it, the hash of what was read, and the description it had. */
  ghost predicate ContainerScanned(s: Store, t: Store, info: ContainerInfo, hash: Hash, error: Option<string>, now: Time) {
    var k := KeyOf(info);
    && t.containers.Keys == s.containers.Keys + {k}
    && t.containers[k] == ContainerRow(info.containerType, info.estimatedCount, hash, info.nativeDescription,
                                       if k in s.containers then s.containers[k].written else None, info.lastModifiedAt, error, now)
  }

  lemma {:induction false} ProfilesGathered(s: Store, k: Key, profiles: seq<Profile>, c: string)
    requires c in Columns(s, k)
    ensures c in Columns(RecordProfiles(s, k, profiles), k)
    ensures
      var row, after := Columns(s, k)[c], Columns(RecordProfiles(s, k, profiles), k)[c];
      && after == row.(profile := after.profile)
      && forall mode :: Gathered(R.StatisticOf(row, mode), R.StatisticOf(after, mode), profiles, c, mode)
  {
    if profiles != [] {
      var n := |profiles| - 1;
      var earlier := profiles[..n];
      ProfilesGathered(s, k, earlier, c);
      var row, before := Columns(s, k)[c], Columns(RecordProfiles(s, k, earlier), k)[c];
      var after := Columns(RecordProfiles(s, k, profiles), k)[c];
      assert forall i: nat :: i < n ==> earlier[i] == profiles[i];
      forall mode ensures Gathered(R.StatisticOf(row, mode), R.StatisticOf(after, mode), profiles, c, mode) {
        GatheredMore(R.StatisticOf(row, mode), R.StatisticOf(before, mode), R.StatisticOf(after, mode), profiles, c, mode);
      }
    }
  }

  lemma GatheredMore(row: Option<ProfileResult>, before: Option<ProfileResult>, after: Option<ProfileResult>, profiles: seq<Profile>,
                     c: string, mode: ProfileMode)
    requires profiles != [] && Gathered(row, before, profiles[..|profiles| - 1], c, mode)
    requires after == if IsOf(profiles[|profiles| - 1], c, mode) then Some(profiles[|profiles| - 1].result) else before
    ensures Gathered(row, after, profiles, c, mode)
  {
    hide IsOf;
    var n := |profiles| - 1;
    var earlier := profiles[..n];
    forall i: nat | LastOf(profiles, i, c, mode) ensures after == Some(profiles[i].result) {
      if i < n {
        assert LastOf(earlier, i, c, mode) && !IsOf(profiles[n], c, mode);
      }
    }
    if forall i :: 0 <= i < |profiles| ==> !IsOf(profiles[i], c, mode) {
      assert forall i :: 0 <= i < n ==> earlier[i] == profiles[i];
    }
  }

  lemma LevelJudged(s: Store, k: Key, levels: map<string, Sensitivity>, c: string)
    requires c in Columns(s, k)
    ensures
      var t := if levels == map[] then s else RecordSensitivity(s, k, levels, Detected);
      && c in Columns(t, k)
      && var row, after := Columns(s, k)[c], Columns(t, k)[c];
         after == row.(sensitivity := after.sensitivity) && LevelDetected(row.sensitivity, after.sensitivity, levels, c)
  {
  }

  lemma ShapeRefreshed(s: Store, job: JobId, info: ContainerInfo, columns: seq<ColumnInfo>, now: Time, c: string)
    requires c in Shape(columns)
    ensures
      var k, t := KeyOf(info), WriteShape(s, job, info, columns, now);
      && c in Columns(t, k)
      && var row := RowBefore(s, k, c, Shape(columns)[c], now);
         Columns(t, k)[c] == row.(info := Shape(columns)[c], scannedAt := now)
  {
    WrittenRows(s, job, info, columns, now);
    hide WriteShape, Shape, Facts, RecordMove;
    assert Shape(columns)[c].name == c;
  }

  /**
   One scan, by what the source answered: an unreadable container's row is marked with the
   error and its columns stay; an unchanged one is left alone unless forced; of any other the
   columns stored are those listed, each with what was listed, judged and gathered for it.
   */
  ghost predicate Recorded(s: Store, t: Store, info: ContainerInfo, reading: Reading, force: bool, now: Time) {
    var k := KeyOf(info);
    match reading
    case Unreadable(error) =>
      && t == s.(containers := t.containers) && ContainerScanned(s, t, info, NoHash, Some(error), now)
    case Readable(columns, levels, profiles) =>
      if !force && IsStored(s, info, columns) then t == s
      else
        && ContainerScanned(s, t, info, SchemaHash(info.nativeDescription, columns), None, now)
        && Columns(t, k).Keys == Shape(columns).Keys
        && forall c :: c in Shape(columns) ==>
             ColumnScanned(RowBefore(s, k, c, Shape(columns)[c], now), Columns(t, k)[c], c, Shape(columns)[c], levels, profiles, now)
  }

  lemma ColumnIsScanned(s: Store, job: JobId, info: ContainerInfo, reading: Reading, force: bool, now: Time, c: string)
    requires OutcomeOf(s, info, reading, force) == Scanned && c in Shape(reading.columns)
    ensures
      var k, t := KeyOf(info), ScanContainer(s, job, info, reading, force, now);
      && c in Columns(t, k)
      && ColumnScanned(RowBefore(s, k, c, Shape(reading.columns)[c], now), Columns(t, k)[c], c, Shape(reading.columns)[c],
                       reading.levels, reading.profiles, now)
  {
    hide WriteShape, Shape, RecordProfiles, RecordSensitivity, Columns, RowBefore, Gathered, R.StatisticOf;
    var k := KeyOf(info);
    var shaped := WriteShape(s, job, info, reading.columns, now);
    var judged := if reading.levels == map[] then shaped else RecordSensitivity(shaped, k, reading.levels, Detected);
    ShapeRefreshed(s, job, info, reading.columns, now, c);
    LevelJudged(shaped, k, reading.levels, c);
    ProfilesGathered(judged, k, reading.profiles, c);
    SameStatistics(RowBefore(s, k, c, Shape(reading.columns)[c], now), Columns(judged, k)[c]);
  }

  lemma SameStatistics(a: ColumnRow, b: ColumnRow)
    requires a.profile == b.profile
    ensures forall mode :: R.StatisticOf(a, mode) == R.StatisticOf(b, mode)
  {
  }

  lemma ScannedContainers(s: Store, job: JobId, info: ContainerInfo, reading: Reading, force: bool, now: Time)
    requires OutcomeOf(s, info, reading, force) == Scanned
    ensures
      var t := ScanContainer(s, job, info, reading, force, now);
      && ContainerScanned(s, t, info, SchemaHash(info.nativeDescription, reading.columns), None, now)
      && Columns(t, KeyOf(info)).Keys == Shape(reading.columns).Keys
  {
    var k := KeyOf(info);
    var shaped := WriteShape(s, job, info, reading.columns, now);
    var judged := if reading.levels == map[] then shaped else RecordSensitivity(shaped, k, reading.levels, Detected);
    H.JudgingKeepsContainers(shaped, k, reading.levels);
    H.ProfilesKeepContainers(judged, k, reading.profiles);
    ScannedShape(s, job, info, reading, force, now);
    WrittenRows(s, job, info, reading.columns, now);
    WrittenContainer(s, job, info, reading.columns, now);
    hide WriteShape, Shape, RecordProfiles, RecordSensitivity, Columns, RecordMove, HashDescribes;
    assert Facts(Columns(ScanContainer(s, job, info, reading, force, now), k)) == Shape(reading.columns);
  }

  lemma WrittenContainer(s: Store, job: JobId, info: ContainerInfo, columns: seq<ColumnInfo>, now: Time)
    ensures ContainerScanned(s, WriteShape(s, job, info, columns, now), info, SchemaHash(info.nativeDescription, columns), None, now)
  {
    hide DetailOf, PreviousShape, Shape, RefreshRows;
  }

  /** What a scan leaves is what it read. */
  lemma ScanRecords(s: Store, job: JobId, info: ContainerInfo, reading: Reading, force: bool, now: Time)
    ensures Recorded(s, ScanContainer(s, job, info, reading, force, now), info, reading, force, now)
  {
    if OutcomeOf(s, info, reading, force) == Scanned {
      hide ScanContainer, ContainerScanned, ColumnScanned, Shape, Columns, RowBefore;
      ScannedContainers(s, job, info, reading, force, now);
      forall c | c in Shape(reading.columns) ensures
        var k, t := KeyOf(info), ScanContainer(s, job, info, reading, force, now);
        && c in Columns(t, k)
        && ColumnScanned(RowBefore(s, k, c, Shape(reading.columns)[c], now), Columns(t, k)[c], c, Shape(reading.columns)[c],
                         reading.levels, reading.profiles, now)
      {
        ColumnIsScanned(s, job, info, reading, force, now, c);
      }
    }
  }

  // ---- whole histories, as logs ----

  /** The writes of one scan, in their order. */
  function ScanEvents(s: Store, info: ContainerInfo, reading: Reading, force: bool, now: Time): seq<R.Event> {
    match reading
    case Unreadable(error) => [R.Upsert(info, NoHash, Some(error), now)]
    case Readable(columns, levels, profiles) =>
      if Unchanged(s, info, columns) && !force then []
      else
        var k := KeyOf(info);
        [R.Upsert(info, CurrentHash(info, columns), None, now), R.Replace(k, columns, now)]
        + (if levels == map[] then [] else [R.Detect(k, levels)])
        + ProfileEvents(k, profiles)
  }

  function ProfileEvents(k: Key, profiles: seq<Profile>): seq<R.Event> {
    seq(|profiles|, i requires 0 <= i < |profiles| => R.Profiled(k, profiles[i].column, profiles[i].mode, profiles[i].result))
  }

  function ActEvents(s: Store, act: H.Act): seq<R.Event> {
    match act
    case ScanAct(_, info, reading, force, now) => ScanEvents(s, info, reading, force, now)
    case RemoveAct(_, key, _) => [R.Forget(key)]
    case AnnotateAct(key, description, annotations, source, now) => [R.Note(key, description, annotations, source, now)]
  }

  /** A history as the log of its writes. */
  function LogOf(acts: seq<H.Act>): seq<R.Event> {
    if acts == [] then []
    else
      var earlier := acts[..|acts| - 1];
      LogOf(earlier) + ActEvents(H.PerformAll(EMPTY, earlier), acts[|acts| - 1])
  }

  predicate SameTables(s: Store, t: Store) { s.containers == t.containers && s.columns == t.columns }

  function ApplyAll(s: Store, events: seq<R.Event>): Store {
    if events == [] then s else R.Apply(ApplyAll(s, events[..|events| - 1]), events[|events| - 1])
  }

  lemma {:induction false} ApplyJoins(s: Store, a: seq<R.Event>, b: seq<R.Event>)
    ensures ApplyAll(s, a + b) == ApplyAll(ApplyAll(s, a), b)
  {
    if b == [] {
      assert a + b == a;
    } else {
      var n := |b| - 1;
      ApplyJoins(s, a, b[..n]);
      assert (a + b)[..|a + b| - 1] == a + b[..n];
    }
  }

  lemma {:induction false} StoreAtIsApplied(log: seq<R.Event>, n: nat)
    requires n <= |log|
    ensures R.StoreAt(log, n) == ApplyAll(EMPTY, log[..n])
  {
    if n > 0 {
      StoreAtIsApplied(log, n - 1);
      assert log[..n][..n - 1] == log[..n - 1];
    }
  }

  lemma ApplySame(s: Store, t: Store, e: R.Event)
    requires SameTables(s, t)
    ensures SameTables(R.Apply(s, e), R.Apply(t, e))
  {
    hide BlankToNone, DescriptionFor, SensitivityFor, Shape;
  }

  lemma {:induction false} ApplyAllSame(s: Store, t: Store, events: seq<R.Event>)
    requires SameTables(s, t)
    ensures SameTables(ApplyAll(s, events), ApplyAll(t, events))
  {
    if events != [] {
      var n := |events| - 1;
      ApplyAllSame(s, t, events[..n]);
      ApplySame(ApplyAll(s, events[..n]), ApplyAll(t, events[..n]), events[n]);
    }
  }

  lemma {:induction false} ProfilesAreEvents(s: Store, k: Key, profiles: seq<Profile>)
    ensures RecordProfiles(s, k, profiles) == ApplyAll(s, ProfileEvents(k, profiles))
  {
    if profiles != [] {
      var n := |profiles| - 1;
      ProfilesAreEvents(s, k, profiles[..n]);
      assert ProfileEvents(k, profiles)[..n] == ProfileEvents(k, profiles[..n]);
    }
  }

  lemma ShapeIsEvents(s: Store, job: JobId, info: ContainerInfo, columns: seq<ColumnInfo>, now: Time)
    ensures
      var events := [R.Upsert(info, CurrentHash(info, columns), None, now), R.Replace(KeyOf(info), columns, now)];
      SameTables(WriteShape(s, job, info, columns, now), ApplyAll(s, events))
  {
    hide DetailOf, PreviousShape, Shape, RefreshRows;
    var upsert, replace := R.Upsert(info, CurrentHash(info, columns), None, now), R.Replace(KeyOf(info), columns, now);
    assert [upsert, replace][..1] == [upsert] && [upsert][..0] == [];
    assert ApplyAll(s, [upsert]) == R.Apply(s, upsert);
  }

  lemma ScanIsItsEvents(s: Store, job: JobId, info: ContainerInfo, reading: Reading, force: bool, now: Time)
    ensures SameTables(ScanContainer(s, job, info, reading, force, now), ApplyAll(s, ScanEvents(s, info, reading, force, now)))
  {
    match reading
    case Unreadable(error) =>
      var e := R.Upsert(info, NoHash, Some(error), now);
      assert [e][..0] == [];
      assert ApplyAll(s, [e]) == R.Apply(s, e);
    case Readable(columns, levels, profiles) =>
      if !(Unchanged(s, info, columns) && !force) {
        hide WriteShape, RecordProfiles, RecordSensitivity, ApplyAll, ProfileEvents, SameTables;
        var k := KeyOf(info);
        var shaped := WriteShape(s, job, info, columns, now);
        var first := [R.Upsert(info, CurrentHash(info, columns), None, now), R.Replace(k, columns, now)];
        var second := if levels == map[] then [] else [R.Detect(k, levels)];
        ShapeIsEvents(s, job, info, columns, now);
        JudgingIsEvents(shaped, k, levels);
        var judged := if levels == map[] then shaped else RecordSensitivity(shaped, k, levels, Detected);
        ProfilesAreEvents(judged, k, profiles);
        ApplyAllSame(shaped, ApplyAll(s, first), second);
        ApplyJoins(s, first, second);
        ApplyAllSame(judged, ApplyAll(s, first + second), ProfileEvents(k, profiles));
        ApplyJoins(s, first + second, ProfileEvents(k, profiles));
      }
  }

  lemma JudgingIsEvents(s: Store, k: Key, levels: map<string, Sensitivity>)
    ensures (if levels == map[] then s else RecordSensitivity(s, k, levels, Detected))
         == ApplyAll(s, if levels == map[] then [] else [R.Detect(k, levels)])
  {
    hide RecordSensitivity;
    assert [R.Detect(k, levels)][..0] == [];
    assert ApplyAll(s, [R.Detect(k, levels)]) == R.Apply(s, R.Detect(k, levels));
  }

  lemma ActIsItsEvents(s: Store, act: H.Act)
    ensures SameTables(H.Perform(s, act), ApplyAll(s, ActEvents(s, act)))
  {
    hide ScanContainer, ScanEvents, Annotate;
    if act.ScanAct? {
      ScanIsItsEvents(s, act.job, act.info, act.reading, act.force, act.now);
    } else {
      var e := ActEvents(s, act)[0];
      assert [e][..0] == [];
      assert ApplyAll(s, [e]) == R.Apply(s, e);
    }
  }

  /** Containers and columns after a history are those of the log of its writes. */
  lemma {:induction false} HistoryIsReplayed(acts: seq<H.Act>)
    ensures SameTables(H.PerformAll(EMPTY, acts), R.StoreAt(LogOf(acts), |LogOf(acts)|))
  {
    hide ActEvents, ApplyAll, SameTables, H.Perform, R.Apply;
    if acts == [] {
      EmptyIsReplayed();
    } else {
      var earlier, act := acts[..|acts| - 1], acts[|acts| - 1];
      var s, log, more := H.PerformAll(EMPTY, earlier), LogOf(earlier), ActEvents(H.PerformAll(EMPTY, earlier), act);
      HistoryIsReplayed(earlier);
      ActIsItsEvents(s, act);
      StoreAtIsApplied(log, |log|);
      StoreAtIsApplied(log + more, |log + more|);
      assert log[..|log|] == log && (log + more)[..|log + more|] == log + more;
      ApplyJoins(EMPTY, log, more);
      ApplyAllSame(s, R.StoreAt(log, |log|), more);
      SameChain(H.PerformAll(EMPTY, acts), ApplyAll(s, more), R.StoreAt(LogOf(acts), |LogOf(acts)|));
    }
  }

  lemma EmptyIsReplayed()
    ensures SameTables(EMPTY, R.StoreAt([], 0))
  {
  }

  lemma SameChain(a: Store, b: Store, c: Store)
    requires SameTables(a, b) && SameTables(b, c)
    ensures SameTables(a, c)
  {
  }

  /** Nobody annotates as the detector. */
  predicate DetectorIsApart(acts: seq<H.Act>) {
    forall i :: 0 <= i < |acts| && acts[i].AnnotateAct? ==> acts[i].source != Detected
  }

  lemma {:induction false} LogKeepsApart(acts: seq<H.Act>)
    requires DetectorIsApart(acts)
    ensures R.DetectorIsAlone(LogOf(acts))
  {
    if acts != [] {
      LogKeepsApart(acts[..|acts| - 1]);
      ActKeepsApart(H.PerformAll(EMPTY, acts[..|acts| - 1]), acts[|acts| - 1]);
    }
  }

  lemma ActKeepsApart(s: Store, act: H.Act)
    requires act.AnnotateAct? ==> act.source != Detected
    ensures R.DetectorIsAlone(ActEvents(s, act))
  {
    hide Unchanged;
  }

  /**
   After any history of scans, removals and annotations: a column is stored exactly when
   the last write to reshape its container lists it, and every field of it is the last
   write to it since it appeared, an annotated level outranking a detected one.
   */
  lemma HistoryColumns(acts: seq<H.Act>, k: Key, c: string)
    requires DetectorIsApart(acts)
    ensures
      var log, rows := LogOf(acts), Columns(H.PerformAll(EMPTY, acts), k);
      && (c in rows <==> R.Present(log, |log|, k, c))
      && (c in rows ==> R.RowAccountsFor(rows[c], log, |log|, k, c))
  {
    hide R.RowAccountsFor, LogOf, R.StoreAt, H.PerformAll;
    var log := LogOf(acts);
    HistoryIsReplayed(acts);
    LogKeepsApart(acts);
    R.ColumnReplay(log, |log|, k, c);
  }
}
