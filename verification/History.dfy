/**
 Whole histories of the staging tables: any sequence of container scans, removals
 and annotations, from an empty store.
 */
module History {
  import opened Wrappers
  import opened Contracts
  import opened Tables
  import opened Scan

  datatype Act =
    | ScanAct(job: JobId, info: ContainerInfo, reading: Reading, force: bool, now: Time)
    | RemoveAct(job: JobId, key: Key, now: Time)
    | AnnotateAct(key: Key, description: Option<string>, annotations: seq<Annotation>, source: Source, now: Time)

  function Perform(s: Store, act: Act): Store {
    match act
    case ScanAct(job, info, reading, force, now) => ScanContainer(s, job, info, reading, force, now)
    case RemoveAct(job, key, now) => RemoveContainer(s, job, key, now)
    case AnnotateAct(key, description, annotations, source, now) => Annotate(s, key, description, annotations, source, now)
  }

  function PerformAll(s: Store, acts: seq<Act>): Store {
    if acts == [] then s
    else Perform(PerformAll(s, acts[..|acts| - 1]), acts[|acts| - 1])
  }

  lemma PerformKeepsSound(s: Store, act: Act)
    requires Sound(s)
    ensures Sound(Perform(s, act))
  {
    match act
    case ScanAct(job, info, reading, force, now) => ScanKeepsSound(s, job, info, reading, force, now);
    case RemoveAct(job, key, now) => RemovalKeepsSound(s, job, key, now);
    case AnnotateAct(key, description, annotations, source, now) =>
      AnnotateKeepsShape(s, key, description, annotations, source, now);
      SoundUpToShape(s, Perform(s, act));
  }

  /** Hashes describe the stored rows and the history accounts for them, after every history. */
  lemma {:induction false} HistoryIsSound(acts: seq<Act>)
    ensures Sound(PerformAll(EMPTY, acts))
  {
    if acts != [] {
      HistoryIsSound(acts[..|acts| - 1]);
      PerformKeepsSound(PerformAll(EMPTY, acts[..|acts| - 1]), acts[|acts| - 1]);
    }
  }

  /** `LastNew`, by position: where the last record about a container is. */
  lemma {:induction false} LastNewAt(changes: seq<Change>, k: Key) returns (j: nat)
    requires LastNew(changes, k).Some?
    ensures j < |changes| && changes[j].key == k && changes[j].newHash == LastNew(changes, k)
    ensures forall i :: j < i < |changes| ==> changes[i].key != k
  {
    var n := |changes| - 1;
    if changes[n].key == k {
      j := n;
    } else {
      j := LastNewAt(changes[..n], k);
    }
  }

  /**
   In every history, the record just before a `schema_changed` of the same container
   carries, as its new hash, the hash that changed.
   */
  lemma ChangesAreLinked(acts: seq<Act>, i: nat) returns (j: nat)
    requires
      var changes := PerformAll(EMPTY, acts).changes;
      i < |changes| && changes[i].kind == SchemaChanged
    ensures
      var changes := PerformAll(EMPTY, acts).changes;
      && j < i && changes[j].key == changes[i].key && changes[j].newHash == changes[i].oldHash
      && forall m :: j < m < i ==> changes[m].key != changes[i].key
  {
    HistoryIsSound(acts);
    hide PerformAll, DetailOf, Shape, LastNew;
    var changes := PerformAll(EMPTY, acts).changes;
    assert Follows(changes[..i], changes[i]);
    j := LastNewAt(changes[..i], changes[i].key);
    assert forall m :: 0 <= m < i ==> changes[..i][m] == changes[m];
  }

  /** A readable container carries the last hash recorded for it, and its rows are that hash's columns. */
  lemma StoredHashIsLastRecorded(acts: seq<Act>, k: Key) returns (j: nat)
    requires IsReadable(PerformAll(EMPTY, acts), k)
    ensures
      var s := PerformAll(EMPTY, acts);
      && j < |s.changes| && s.changes[j].key == k && s.changes[j].newHash == Some(s.containers[k].schemaHash)
      && (forall m :: j < m < |s.changes| ==> s.changes[m].key != k)
      && s.containers[k].schemaHash.SchemaHash?
      && Facts(Columns(s, k)) == Shape(s.containers[k].schemaHash.columns)
  {
    HistoryIsSound(acts);
    var s := PerformAll(EMPTY, acts);
    assert HashDescribes(s, k);
    j := LastNewAt(s.changes, k);
  }

  /** Replaying additions and removals: all readable containers, and only stored ones. */
  lemma ReplayIsBetween(acts: seq<Act>)
    ensures
      var s := PerformAll(EMPTY, acts);
      && Replayed(s.changes) <= s.containers.Keys
      && forall k :: IsReadable(s, k) ==> k in Replayed(s.changes)
  {
    HistoryIsSound(acts);
  }

  /**
   One scan appends `container_added` exactly when the source is readable and no
   readable row was there before: a container that recovers is added again.
   */
  lemma AddedExactlyWhenNotReadable(s: Store, job: JobId, info: ContainerInfo, reading: Reading, force: bool, now: Time)
    ensures
      var k := KeyOf(info);
      var t := ScanContainer(s, job, info, reading, force, now);
      (|t.changes| > |s.changes| && t.changes[|s.changes|].kind == ContainerAdded)
      <==> (reading.Readable? && !IsReadable(s, k))
  {
    hide DetailOf, PreviousShape, Shape;
    if OutcomeOf(s, info, reading, force) == Scanned {
      ScannedShape(s, job, info, reading, force, now);
    }
  }

  lemma AddedTwice(job: JobId, info: ContainerInfo, columns: seq<ColumnInfo>, error: string, now: Time)
    ensures
      var readable := ScanAct(job, info, Readable(columns, map[], []), false, now);
      var failing := ScanAct(job, info, Unreadable(error), false, now);
      var changes := PerformAll(EMPTY, [readable, failing, readable]).changes;
      |changes| == 2 && changes[0].kind == ContainerAdded && changes[1] == changes[0]
  {
    var readable := ScanAct(job, info, Readable(columns, map[], []), false, now);
    var failing := ScanAct(job, info, Unreadable(error), false, now);
    var acts := [readable, failing, readable];
    assert acts[..2] == [readable, failing] && acts[..2][..1] == [readable] && acts[..1][..0] == [];
    var s1 := Perform(EMPTY, readable);
    var s2 := Perform(s1, failing);
    assert PerformAll(EMPTY, [readable]) == s1;
    assert PerformAll(EMPTY, [readable, failing]) == s2;
    assert PerformAll(EMPTY, acts) == Perform(s2, readable);
  }

  // ---- incremental and forced scans ----

  function Writings(rows: map<string, ColumnRow>): map<string, Option<Writing>> {
    map name | name in rows :: rows[name].written
  }

  /** The same shape, hash, comment, error and written descriptions at one key. */
  ghost predicate AlikeAt(s: Store, t: Store, k: Key) {
    && (k in s.containers <==> k in t.containers)
    && (k in s.containers ==>
          && s.containers[k].schemaHash == t.containers[k].schemaHash
          && s.containers[k].nativeDescription == t.containers[k].nativeDescription
          && s.containers[k].error == t.containers[k].error
          && s.containers[k].written == t.containers[k].written)
    && Facts(Columns(s, k)) == Facts(Columns(t, k))
    && Writings(Columns(s, k)) == Writings(Columns(t, k))
  }

  /** The same everywhere, with the same history. */
  ghost predicate Alike(s: Store, t: Store) {
    s.changes == t.changes && forall k :: AlikeAt(s, t, k)
  }

  lemma AlikeChain(a: Store, b: Store, c: Store)
    requires Alike(a, b) && Alike(b, c)
    ensures Alike(a, c) && Alike(b, a)
  {
    hide Facts, Writings, Columns;
    forall k ensures AlikeAt(a, c, k) && AlikeAt(b, a, k) {
      assert AlikeAt(a, b, k) && AlikeAt(b, c, k);
    }
  }

  lemma StatisticsKeepAlike(s: Store, k: Key, column: string, mode: ProfileMode, result: ProfileResult)
    ensures Alike(s, RecordProfile(s, k, column, mode, result))
  {
    ProfileKeepsShape(s, k, column, mode, result);
    var t := RecordProfile(s, k, column, mode, result);
    hide Facts;
    forall other ensures AlikeAt(s, t, other) {
      assert Writings(Columns(s, other)) == Writings(Columns(t, other));
    }
  }

  lemma {:induction false} AllStatisticsKeepAlike(s: Store, k: Key, profiles: seq<Profile>)
    ensures Alike(s, RecordProfiles(s, k, profiles))
  {
    if profiles != [] {
      var last := profiles[|profiles| - 1];
      AllStatisticsKeepAlike(s, k, profiles[..|profiles| - 1]);
      var t := RecordProfiles(s, k, profiles[..|profiles| - 1]);
      StatisticsKeepAlike(t, k, last.column, last.mode, last.result);
      AlikeChain(s, t, RecordProfiles(s, k, profiles));
    }
  }

  lemma VerdictsKeepAlike(s: Store, k: Key, levels: map<string, Sensitivity>, source: Source)
    ensures Alike(s, RecordSensitivity(s, k, levels, source))
  {
    SensitivityKeepsShape(s, k, levels, source);
    var t := RecordSensitivity(s, k, levels, source);
    hide Facts;
    forall other ensures AlikeAt(s, t, other) {
      assert Writings(Columns(s, other)) == Writings(Columns(t, other));
    }
  }

  /** A scan that writes is, up to statistics and verdicts, the writing of its shape. */
  lemma ScannedAlike(s: Store, job: JobId, info: ContainerInfo, reading: Reading, force: bool, now: Time)
    requires OutcomeOf(s, info, reading, force) == Scanned
    ensures Alike(WriteShape(s, job, info, reading.columns, now), ScanContainer(s, job, info, reading, force, now))
  {
    var shaped := WriteShape(s, job, info, reading.columns, now);
    VerdictsKeepAlike(shaped, KeyOf(info), reading.levels, Detected);
    var judged := if reading.levels == map[] then shaped else RecordSensitivity(shaped, KeyOf(info), reading.levels, Detected);
    AllStatisticsKeepAlike(judged, KeyOf(info), reading.profiles);
    AlikeChain(shaped, shaped, judged);
    AlikeChain(shaped, judged, ScanContainer(s, job, info, reading, force, now));
  }

  /** Writing the shape that is already stored changes nothing but time stamps and estimates. */
  lemma RewriteIsAlike(s: Store, job: JobId, info: ContainerInfo, columns: seq<ColumnInfo>, now: Time)
    requires HashesDescribe(s) && Unchanged(s, info, columns)
    ensures Alike(s, WriteShape(s, job, info, columns, now))
  {
    var k := KeyOf(info);
    var t := WriteShape(s, job, info, columns, now);
    assert HashDescribes(s, k);
    hide Shape, Facts, DetailOf, PreviousShape;
    WrittenRows(s, job, info, columns, now);
    UnchangedRecordsNothing(s, job, info, columns, now);
    assert Facts(Columns(s, k)) == Shape(columns);
    WritingsKept(Columns(s, k), columns, now);
    forall other ensures AlikeAt(s, t, other) {}
  }

  /** Columns that are still there keep what was written about them. */
  lemma WritingsKept(rows: map<string, ColumnRow>, columns: seq<ColumnInfo>, now: Time)
    requires Facts(rows) == Shape(columns)
    ensures Writings(RefreshRows(rows, columns, now)) == Writings(rows)
  {
    hide Shape;
    assert Facts(rows).Keys == rows.Keys;
  }

  lemma PreviousByFacts(a: map<string, ColumnRow>, b: map<string, ColumnRow>)
    requires Facts(a) == Facts(b)
    ensures PreviousShape(a) == PreviousShape(b)
  {
    assert a.Keys == Facts(a).Keys == Facts(b).Keys == b.Keys;
    assert forall name :: name in a ==> Facts(a)[name] == a[name].info && Facts(b)[name] == b[name].info;
    assert (set name | name in a :: (a[name].info.ordinal, name)) == (set name | name in b :: (b[name].info.ordinal, name));
  }

  lemma WriteShapeAlikeAt(s: Store, t: Store, job: JobId, info: ContainerInfo, columns: seq<ColumnInfo>, now: Time, k: Key)
    requires AlikeAt(s, t, k)
    ensures AlikeAt(WriteShape(s, job, info, columns, now), WriteShape(t, job, info, columns, now), k)
  {
    WrittenRows(s, job, info, columns, now);
    WrittenRows(t, job, info, columns, now);
    hide Shape, RefreshRows, WriteShape, RecordMove, HashDescribes, Columns, CurrentHash;
    if k == KeyOf(info) {
      RefreshedWritings(Columns(s, k), Columns(t, k), columns, now);
      hide Facts, Writings;
      assert StoredHash(WriteShape(s, job, info, columns, now), k) == StoredHash(WriteShape(t, job, info, columns, now), k);
    } else {
      hide Facts, Writings;
    }
  }

  lemma WriteShapeAlike(s: Store, t: Store, job: JobId, info: ContainerInfo, columns: seq<ColumnInfo>, now: Time)
    requires Alike(s, t)
    ensures Alike(WriteShape(s, job, info, columns, now), WriteShape(t, job, info, columns, now))
  {
    var k := KeyOf(info);
    forall other ensures AlikeAt(WriteShape(s, job, info, columns, now), WriteShape(t, job, info, columns, now), other) {
      assert AlikeAt(s, t, other);
      WriteShapeAlikeAt(s, t, job, info, columns, now, other);
    }
    hide AlikeAt, Alike, WriteShape, RecordMove, HashDescribes, Shape, Facts, RefreshRows;
    assert WriteShape(s, job, info, columns, now).changes == WriteShape(t, job, info, columns, now).changes by {
      assert Facts(Columns(s, k)) == Facts(Columns(t, k)) by { SameFacts(s, t, k); }
      PreviousByFacts(Columns(s, k), Columns(t, k));
      SameMove(s, t, job, info, columns, now);
      WrittenRows(s, job, info, columns, now);
      WrittenRows(t, job, info, columns, now);
    }
    AlikeFrom(WriteShape(s, job, info, columns, now), WriteShape(t, job, info, columns, now));
  }

  lemma SameFacts(s: Store, t: Store, k: Key)
    requires Alike(s, t)
    ensures Facts(Columns(s, k)) == Facts(Columns(t, k))
  {
    assert AlikeAt(s, t, k);
  }

  lemma AlikeFrom(s: Store, t: Store)
    requires s.changes == t.changes && forall k :: AlikeAt(s, t, k)
    ensures Alike(s, t)
  {
  }

  lemma SameMove(s: Store, t: Store, job: JobId, info: ContainerInfo, columns: seq<ColumnInfo>, now: Time)
    requires Alike(s, t)
    requires PreviousShape(Columns(s, KeyOf(info))) == PreviousShape(Columns(t, KeyOf(info)))
    ensures
      var k := KeyOf(info);
      RecordMove(s, job, k, StoredHash(s, k), CurrentHash(info, columns), columns, now).changes
      == RecordMove(t, job, k, StoredHash(t, k), CurrentHash(info, columns), columns, now).changes
  {
    hide Shape, DetailOf, PreviousShape, Facts, Writings;
    assert AlikeAt(s, t, KeyOf(info));
  }

  lemma RefreshedWritings(a: map<string, ColumnRow>, b: map<string, ColumnRow>, columns: seq<ColumnInfo>, now: Time)
    requires Writings(a) == Writings(b)
    ensures Writings(RefreshRows(a, columns, now))
         == Writings(RefreshRows(b, columns, now))
  {
    hide Shape;
    assert a.Keys == Writings(a).Keys == Writings(b).Keys == b.Keys;
    assert forall name :: name in a ==> Writings(a)[name] == a[name].written && Writings(b)[name] == b[name].written;
  }

  /**
   From alike tables the same reading leads to alike tables, whether or not either
   scan is forced: skipping an equal hash loses nothing the hash is about.
   */
  lemma ForceMakesNoDifference(s: Store, t: Store, job: JobId, info: ContainerInfo, reading: Reading, f: bool, g: bool, now: Time)
    requires HashesDescribe(s) && HashesDescribe(t) && Alike(s, t)
    ensures Alike(ScanContainer(s, job, info, reading, f, now), ScanContainer(t, job, info, reading, g, now))
  {
    assert AlikeAt(s, t, KeyOf(info));
    hide WriteShape, Alike;
    match reading
    case Unreadable(error) =>
      UpsertAlike(s, t, info, NoHash, Some(error), now);
    case Readable(columns, _, _) =>
      if OutcomeOf(s, info, reading, f) == Scanned { ScannedAlike(s, job, info, reading, f, now); }
      if OutcomeOf(t, info, reading, g) == Scanned { ScannedAlike(t, job, info, reading, g, now); }
      hide ScanContainer;
      if Unchanged(s, info, columns) {
        RewriteIsAlike(s, job, info, columns, now);
        RewriteIsAlike(t, job, info, columns, now);
        SkippedStays(s, job, info, reading, f, now);
        SkippedStays(t, job, info, reading, g, now);
        AlikeItself(s, t);
        var s', t' := WriteShape(s, job, info, columns, now), WriteShape(t, job, info, columns, now);
        var s2, t2 := ScanContainer(s, job, info, reading, f, now), ScanContainer(t, job, info, reading, g, now);
        if s2 != s { AlikeChain(s, s', s2); }
        if t2 != t { AlikeChain(t, t', t2); }
        AlikeChain(s, s2, s2);
        AlikeChain(s2, s, t);
        AlikeChain(s2, t, t2);
      } else {
        var s', t' := WriteShape(s, job, info, columns, now), WriteShape(t, job, info, columns, now);
        var s2, t2 := ScanContainer(s, job, info, reading, f, now), ScanContainer(t, job, info, reading, g, now);
        WriteShapeAlike(s, t, job, info, columns, now);
        AlikeItself(s2, t2);
        AlikeChain(s', s2, s2);
        AlikeChain(s2, s', t');
        AlikeChain(s2, t', t2);
      }
  }

  /** What a scan overwrites in a container's row, the time of the scan aside, is there already. */
  predicate IsCurrent(row: ContainerRow, info: ContainerInfo) {
    row.containerType == info.containerType && row.estimatedCount == info.estimatedCount && row.lastModifiedAt == info.lastModifiedAt
  }

  /**
   The hash is not about all that a scan overwrites.  A skip leaves the container's row
   what a forced rescan makes it, the time of the scan aside, if and only if its type,
   estimate and modification time are as listed now.
   */
  lemma SkipIsCurrentIff(s: Store, job: JobId, info: ContainerInfo, reading: Reading, now: Time)
    requires HashesDescribe(s) && reading.Readable? && Unchanged(s, info, reading.columns)
    ensures
      var k := KeyOf(info);
      var skipped, forced := ScanContainer(s, job, info, reading, false, now), ScanContainer(s, job, info, reading, true, now);
      && skipped == s && k in s.containers && k in forced.containers
      && forced.containers[k] == s.containers[k].(containerType := info.containerType, estimatedCount := info.estimatedCount,
                                                  lastModifiedAt := info.lastModifiedAt, scannedAt := now)
      && (forced.containers[k].(scannedAt := s.containers[k].scannedAt) == s.containers[k] <==> IsCurrent(s.containers[k], info))
  {
    var k := KeyOf(info);
    assert HashDescribes(s, k);
    UnchangedRecordsNothing(s, job, info, reading.columns, now);
    hide DetailOf, PreviousShape, Shape, Facts, RecordMove;
    var shaped := WriteShape(s, job, info, reading.columns, now);
    JudgingKeepsContainers(shaped, k, reading.levels);
    var judged := if reading.levels == map[] then shaped else RecordSensitivity(shaped, k, reading.levels, Detected);
    ProfilesKeepContainers(judged, k, reading.profiles);
  }

  lemma JudgingKeepsContainers(s: Store, k: Key, levels: map<string, Sensitivity>)
    ensures RecordSensitivity(s, k, levels, Detected).containers == s.containers
  {
  }

  lemma {:induction false} ProfilesKeepContainers(s: Store, k: Key, profiles: seq<Profile>)
    ensures RecordProfiles(s, k, profiles).containers == s.containers
  {
    if profiles != [] { ProfilesKeepContainers(s, k, profiles[..|profiles| - 1]); }
  }

  lemma AlikeItself(s: Store, t: Store)
    ensures Alike(s, s) && Alike(t, t)
  {
  }

  lemma UpsertAlike(s: Store, t: Store, info: ContainerInfo, hash: Hash, error: Option<string>, now: Time)
    requires Alike(s, t)
    ensures Alike(UpsertContainer(s, info, hash, error, now), UpsertContainer(t, info, hash, error, now))
  {
    hide Facts, Writings;
    var s', t' := UpsertContainer(s, info, hash, error, now), UpsertContainer(t, info, hash, error, now);
    forall k ensures AlikeAt(s', t', k) {
      assert AlikeAt(s, t, k);
    }
  }

  lemma RemoveAlike(s: Store, t: Store, job: JobId, key: Key, now: Time)
    requires Alike(s, t)
    ensures Alike(RemoveContainer(s, job, key, now), RemoveContainer(t, job, key, now))
  {
    var s', t' := RemoveContainer(s, job, key, now), RemoveContainer(t, job, key, now);
    forall k ensures AlikeAt(s', t', k) {
      assert AlikeAt(s, t, k);
    }
  }

  lemma SkippedStays(s: Store, job: JobId, info: ContainerInfo, reading: Reading, force: bool, now: Time)
    ensures OutcomeOf(s, info, reading, force) == Skipped ==> ScanContainer(s, job, info, reading, force, now) == s
  {
  }

  ghost predicate SameButForce(a: Act, b: Act) {
    a == b || (a.ScanAct? && b.ScanAct? && a.(force := b.force) == b)
  }

  lemma AnnotateAlike(s: Store, t: Store, k: Key, description: Option<string>, annotations: seq<Annotation>, source: Source, now: Time)
    requires Alike(s, t)
    ensures Alike(Annotate(s, k, description, annotations, source, now), Annotate(t, k, description, annotations, source, now))
  {
    hide BlankToNone, DescriptionFor, SensitivityFor;
    var s' := Annotate(s, k, description, annotations, source, now);
    var t' := Annotate(t, k, description, annotations, source, now);
    AnnotateKeepsShape(s, k, description, annotations, source, now);
    AnnotateKeepsShape(t, k, description, annotations, source, now);
    forall other ensures AlikeAt(s', t', other) {
      assert AlikeAt(s, t, other);
      AnnotatedWritings(Columns(s, other), Columns(t, other), annotations, source, now);
    }
  }

  lemma AnnotatedWritings(a: map<string, ColumnRow>, b: map<string, ColumnRow>, annotations: seq<Annotation>, source: Source, now: Time)
    requires Writings(a) == Writings(b)
    ensures Writings(AnnotateColumns(a, annotations, source, now)) == Writings(AnnotateColumns(b, annotations, source, now))
  {
    hide BlankToNone, DescriptionFor, SensitivityFor;
    assert a.Keys == Writings(a).Keys == Writings(b).Keys == b.Keys;
    assert forall name :: name in a ==> Writings(a)[name] == a[name].written && Writings(b)[name] == b[name].written;
  }

  /** Two histories that differ only in which scans were forced leave alike tables. */
  lemma {:induction false} IncrementalAgreesWithForced(a: seq<Act>, b: seq<Act>)
    requires |a| == |b| && forall i :: 0 <= i < |a| ==> SameButForce(a[i], b[i])
    ensures Alike(PerformAll(EMPTY, a), PerformAll(EMPTY, b))
  {
    if a != [] {
      var n := |a| - 1;
      IncrementalAgreesWithForced(a[..n], b[..n]);
      HistoryIsSound(a[..n]);
      HistoryIsSound(b[..n]);
      var s, t := PerformAll(EMPTY, a[..n]), PerformAll(EMPTY, b[..n]);
      StepAgrees(s, t, a[n], b[n]);
    }
  }

  lemma StepAgrees(s: Store, t: Store, x: Act, y: Act)
    requires Sound(s) && Sound(t) && Alike(s, t) && SameButForce(x, y)
    ensures Alike(Perform(s, x), Perform(t, y))
  {
    hide ScanContainer, Annotate, RemoveContainer, Alike;
    match x
    case ScanAct(job, info, reading, force, now) =>
      ForceMakesNoDifference(s, t, job, info, reading, force, y.force, now);
    case RemoveAct(job, key, now) =>
      RemoveAlike(s, t, job, key, now);
    case AnnotateAct(key, description, annotations, source, now) =>
      AnnotateAlike(s, t, key, description, annotations, source, now);
  }
}
