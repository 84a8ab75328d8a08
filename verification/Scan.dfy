/**
 Scanning one container, as a function on the staging tables, and what every
 sequence of scans, removals and annotations keeps: a linked history, hashes that
 describe the stored rows, and incremental scans that agree with forced ones.
 */
module Scan {
  import opened Wrappers
  import opened Ordering
  import opened Keyset
  import opened Contracts
  import opened Tables

  const ALL_COLUMNS: nat := 100_000

  datatype Profile = Profile(column: string, mode: ProfileMode, result: ProfileResult)

  /** What the source answers for one container: its columns, or the error it raised. */
  datatype Reading =
    | Unreadable(error: string)
    | Readable(columns: seq<ColumnInfo>, levels: map<string, Sensitivity>, profiles: seq<Profile>)

  /** The three answers of `_scan_container`. */
  datatype Outcome = Scanned | Skipped | Unread

  /** The scan-owned part of a container's rows. */
  function Facts(rows: map<string, ColumnRow>): map<string, ColumnInfo> {
    map name | name in rows :: rows[name].info
  }

  /** The previous shape, as far as one page of `ALL_COLUMNS` rows shows it. */
  function PreviousShape(rows: map<string, ColumnRow>): map<string, ColumnInfo> {
    var page := ReadPage(Ordinal, IntBefore, SortedColumns(rows), None, ALL_COLUMNS);
    map name | name in rows && (rows[name].info.ordinal, name) in page.rows :: rows[name].info
  }

  function RetypedOf(names: seq<string>, before: map<string, ColumnInfo>, now: map<string, ColumnInfo>): seq<Retyped>
    requires forall name :: name in names ==> name in before && name in now
  {
    seq(|names|, i requires 0 <= i < |names| => Retyped(names[i], before[names[i]].nativeType, now[names[i]].nativeType))
  }

  /** What moved between two shapes; nothing to say is None. */
  function DetailOf(before: map<string, ColumnInfo>, now: map<string, ColumnInfo>): Option<Detail> {
    StringsOrdered();
    var moved := set name | name in before && name in now && before[name].nativeType != now[name].nativeType;
    var detail := Detail(SortSet(Before, now.Keys - before.Keys), SortSet(Before, before.Keys - now.Keys),
                         RetypedOf(SortSet(Before, moved), before, now));
    if detail == Detail([], [], []) then None else Some(detail)
  }

  /**
   What a detail says of two shapes, name by name: what is only in the new one, only in
   the old one, or in both with another type; each list in order, and none at all where
   there is nothing to say.
   */
  ghost predicate DetailTells(before: map<string, ColumnInfo>, now: map<string, ColumnInfo>, detail: Option<Detail>) {
    var d := if detail.Some? then detail.value else Detail([], [], []);
    && (detail.Some? ==> d.added != [] || d.removed != [] || d.retyped != [])
    && (forall name :: name in d.added <==> name in now && name !in before)
    && (forall name :: name in d.removed <==> name in before && name !in now)
    && (forall r :: r in d.retyped <==> Retypes(before, now, r))
    && Increasing(Before, d.added) && Increasing(Before, d.removed)
    && forall i, j :: 0 <= i < j < |d.retyped| ==> Before(d.retyped[i].name, d.retyped[j].name)
  }

  predicate Retypes(before: map<string, ColumnInfo>, now: map<string, ColumnInfo>, r: Retyped) {
    && r.name in before && r.name in now && r.before != r.after
    && r.before == before[r.name].nativeType && r.after == now[r.name].nativeType
  }

  lemma RetypedTells(names: seq<string>, before: map<string, ColumnInfo>, now: map<string, ColumnInfo>)
    requires forall name :: name in names <==> name in before && name in now && before[name].nativeType != now[name].nativeType
    requires Increasing(Before, names)
    ensures
      var retyped := RetypedOf(names, before, now);
      && (forall r :: r in retyped <==> Retypes(before, now, r)) && (retyped == [] <==> names == [])
      && forall i, j :: 0 <= i < j < |retyped| ==> Before(retyped[i].name, retyped[j].name)
  {
    var retyped := RetypedOf(names, before, now);
    forall r | Retypes(before, now, r) ensures r in retyped {
      var i :| 0 <= i < |names| && names[i] == r.name;
      assert retyped[i] == r;
    }
  }

  lemma DetailOfTells(before: map<string, ColumnInfo>, now: map<string, ColumnInfo>)
    ensures DetailTells(before, now, DetailOf(before, now))
  {
    StringsOrdered();
    var moved := set name | name in before && name in now && before[name].nativeType != now[name].nativeType;
    var added, removed, names := SortSet(Before, now.Keys - before.Keys), SortSet(Before, before.Keys - now.Keys), SortSet(Before, moved);
    var retyped := RetypedOf(names, before, now);
    assert DetailOf(before, now) == if Detail(added, removed, retyped) == Detail([], [], []) then None else Some(Detail(added, removed, retyped));
    RetypedTells(names, before, now);
    hide *;
    PartsTell(before, now, added, removed, retyped, DetailOf(before, now));
  }

  lemma PartsTell(before: map<string, ColumnInfo>, now: map<string, ColumnInfo>, added: seq<string>, removed: seq<string>,
                  retyped: seq<Retyped>, detail: Option<Detail>)
    requires detail == if Detail(added, removed, retyped) == Detail([], [], []) then None else Some(Detail(added, removed, retyped))
    requires forall name :: name in added <==> name in now.Keys - before.Keys
    requires forall name :: name in removed <==> name in before.Keys - now.Keys
    requires forall r :: r in retyped <==> Retypes(before, now, r)
    requires Increasing(Before, added) && Increasing(Before, removed)
    requires forall i, j :: 0 <= i < j < |retyped| ==> Before(retyped[i].name, retyped[j].name)
    ensures DetailTells(before, now, detail)
  {
    hide Before, Increasing, Retypes;
    var d := if detail.Some? then detail.value else Detail([], [], []);
    assert d == Detail(added, removed, retyped);
  }

  function RecordMove(s: Store, job: JobId, k: Key, stored: Option<Hash>, current: Hash, columns: seq<ColumnInfo>, now: Time): Store {
    if stored == Some(current) then s
    else if stored.None? then RecordChange(s, Change(job, k, ContainerAdded, None, Some(current), None, now))
    else
      var detail := DetailOf(PreviousShape(Columns(s, k)), Shape(columns));
      RecordChange(s, Change(job, k, SchemaChanged, stored, Some(current), detail, now))
  }

  function RecordProfiles(s: Store, k: Key, profiles: seq<Profile>): Store {
    if profiles == [] then s
    else
      var last := profiles[|profiles| - 1];
      RecordProfile(RecordProfiles(s, k, profiles[..|profiles| - 1]), k, last.column, last.mode, last.result)
  }

  function CurrentHash(info: ContainerInfo, columns: seq<ColumnInfo>): Hash {
    SchemaHash(info.nativeDescription, columns)
  }

  /** The tables once the scan-owned rows are written, before sensitivity and statistics. */
  function WriteShape(s: Store, job: JobId, info: ContainerInfo, columns: seq<ColumnInfo>, now: Time): Store {
    var k := KeyOf(info);
    var current := CurrentHash(info, columns);
    var moved := RecordMove(s, job, k, StoredHash(s, k), current, columns, now);
    ReplaceColumns(UpsertContainer(moved, info, current, None, now), k, columns, now)
  }

  predicate Unchanged(s: Store, info: ContainerInfo, columns: seq<ColumnInfo>) {
    StoredHash(s, KeyOf(info)) == Some(CurrentHash(info, columns))
  }

  function OutcomeOf(s: Store, info: ContainerInfo, reading: Reading, force: bool): Outcome {
    match reading
    case Unreadable(_) => Unread
    case Readable(columns, _, _) => if Unchanged(s, info, columns) && !force then Skipped else Scanned
  }

  /** What an answer says: the source raised, or what it showed was stored already, or it was written. */
  predicate OutcomeTells(s: Store, info: ContainerInfo, reading: Reading, force: bool, outcome: Outcome) {
    match outcome
    case Unread => reading.Unreadable?
    case Skipped => reading.Readable? && !force && IsStored(s, info, reading.columns)
    case Scanned => reading.Readable? && (force || !IsStored(s, info, reading.columns))
  }

  /** A row without an error carries the hash of these columns and this comment. */
  predicate IsStored(s: Store, info: ContainerInfo, columns: seq<ColumnInfo>) {
    var k := KeyOf(info);
    && k in s.containers && s.containers[k].error.None?
    && s.containers[k].schemaHash == SchemaHash(info.nativeDescription, columns)
  }

  lemma OutcomeOfTells(s: Store, info: ContainerInfo, reading: Reading, force: bool)
    ensures OutcomeTells(s, info, reading, force, OutcomeOf(s, info, reading, force))
  {
  }

  function ScanContainer(s: Store, job: JobId, info: ContainerInfo, reading: Reading, force: bool, now: Time): Store {
    match reading
    case Unreadable(error) => UpsertContainer(s, info, NoHash, Some(error), now)
    case Readable(columns, levels, profiles) =>
      if Unchanged(s, info, columns) && !force then s
      else
        var k := KeyOf(info);
        var shaped := WriteShape(s, job, info, columns, now);
        var judged := if levels == map[] then shaped else RecordSensitivity(shaped, k, levels, Detected);
        RecordProfiles(judged, k, profiles)
  }

  function RemoveContainer(s: Store, job: JobId, k: Key, now: Time): Store {
    ForgetContainer(RecordChange(s, Change(job, k, ContainerRemoved, None, None, None, now)), k)
  }

  // ---- what the history says ----

  /** The new hash of the last record about a container. */
  function LastNew(changes: seq<Change>, k: Key): Option<Hash> {
    if changes == [] then None
    else
      var last := changes[|changes| - 1];
      if last.key == k then last.newHash else LastNew(changes[..|changes| - 1], k)
  }

  /** Replaying additions and removals. */
  function Replayed(changes: seq<Change>): set<Key> {
    if changes == [] then {}
    else
      var last := changes[|changes| - 1];
      var before := Replayed(changes[..|changes| - 1]);
      match last.kind
      case ContainerAdded => before + {last.key}
      case ContainerRemoved => before - {last.key}
      case SchemaChanged => before
  }

  /** A record read against the ones before it. */
  ghost predicate Follows(earlier: seq<Change>, change: Change) {
    match change.kind
    case ContainerAdded => change.oldHash.None? && change.newHash.Some? && change.newHash.value.SchemaHash?
    case ContainerRemoved => change.oldHash.None? && change.newHash.None?
    case SchemaChanged =>
      && change.oldHash.Some? && change.newHash.Some? && change.oldHash != change.newHash
      && change.oldHash.value.SchemaHash? && change.newHash.value.SchemaHash?
      && LastNew(earlier, change.key) == change.oldHash
      && (|Shape(change.oldHash.value.columns)| <= ALL_COLUMNS ==>
            DetailTells(Shape(change.oldHash.value.columns), Shape(change.newHash.value.columns), change.detail))
  }

  /**
   Every `schema_changed` picks up where the previous record of its container left
   off, and its detail is the difference of the two hashed shapes.
   */
  ghost predicate Linked(changes: seq<Change>) {
    forall i :: 0 <= i < |changes| ==> Follows(changes[..i], changes[i])
  }

  predicate IsReadable(s: Store, k: Key) {
    StoredHash(s, k).Some?
  }

  /** A stored hash with no error is the hash of exactly the rows and the comment stored with it. */
  ghost predicate HashDescribes(s: Store, k: Key) {
    IsReadable(s, k) ==>
      var row := s.containers[k];
      && row.schemaHash.SchemaHash?
      && row.schemaHash.comment == row.nativeDescription
      && Facts(Columns(s, k)) == Shape(row.schemaHash.columns)
  }

  ghost predicate HashesDescribe(s: Store) {
    forall k :: HashDescribes(s, k)
  }

  ghost predicate Chronicled(s: Store) {
    && Linked(s.changes)
    && (forall k :: IsReadable(s, k) ==> LastNew(s.changes, k) == StoredHash(s, k))
    && (forall k :: IsReadable(s, k) ==> k in Replayed(s.changes))
    && Replayed(s.changes) <= s.containers.Keys
  }

  ghost predicate Sound(s: Store) {
    HashesDescribe(s) && Chronicled(s)
  }

  // ---- writes that leave the scan-owned fields alone ----

  /** The same tables up to sensitivity, statistics and written descriptions. */
  ghost predicate SameShape(s: Store, t: Store) {
    && s.changes == t.changes && s.containers.Keys == t.containers.Keys
    && (forall k :: k in s.containers ==>
          && s.containers[k].schemaHash == t.containers[k].schemaHash
          && s.containers[k].nativeDescription == t.containers[k].nativeDescription
          && s.containers[k].error == t.containers[k].error)
    && (forall k :: Facts(Columns(s, k)) == Facts(Columns(t, k)))
  }

  lemma SoundUpToShape(s: Store, t: Store)
    requires Sound(s) && SameShape(s, t)
    ensures Sound(t)
  {
    forall k ensures HashDescribes(t, k) && IsReadable(s, k) == IsReadable(t, k) && StoredHash(s, k) == StoredHash(t, k) {
      assert HashDescribes(s, k);
    }
  }

  lemma SensitivityKeepsShape(s: Store, k: Key, levels: map<string, Sensitivity>, source: Source)
    ensures SameShape(s, RecordSensitivity(s, k, levels, source))
  {
    var t := RecordSensitivity(s, k, levels, source);
    forall other ensures Facts(Columns(s, other)) == Facts(Columns(t, other)) {}
  }

  lemma ProfileKeepsShape(s: Store, k: Key, column: string, mode: ProfileMode, result: ProfileResult)
    ensures SameShape(s, RecordProfile(s, k, column, mode, result))
  {
    var t := RecordProfile(s, k, column, mode, result);
    forall other ensures Facts(Columns(s, other)) == Facts(Columns(t, other)) {}
  }

  lemma AnnotateKeepsShape(s: Store, k: Key, description: Option<string>, annotations: seq<Annotation>, source: Source, now: Time)
    ensures SameShape(s, Annotate(s, k, description, annotations, source, now))
  {
    hide BlankToNone, DescriptionFor, SensitivityFor;
    var t := Annotate(s, k, description, annotations, source, now);
    forall other ensures Facts(Columns(s, other)) == Facts(Columns(t, other)) {}
  }

  lemma {:induction false} ProfilesKeepShape(s: Store, k: Key, profiles: seq<Profile>)
    ensures SameShape(s, RecordProfiles(s, k, profiles))
  {
    if profiles != [] {
      var last := profiles[|profiles| - 1];
      var t := RecordProfiles(s, k, profiles[..|profiles| - 1]);
      ProfilesKeepShape(s, k, profiles[..|profiles| - 1]);
      ProfileKeepsShape(t, k, last.column, last.mode, last.result);
    }
  }

  /** After a scan that writes, the shape is what `WriteShape` made it. */
  lemma ScannedShape(s: Store, job: JobId, info: ContainerInfo, reading: Reading, force: bool, now: Time)
    requires OutcomeOf(s, info, reading, force) == Scanned
    ensures SameShape(WriteShape(s, job, info, reading.columns, now), ScanContainer(s, job, info, reading, force, now))
  {
    var k := KeyOf(info);
    var shaped := WriteShape(s, job, info, reading.columns, now);
    SensitivityKeepsShape(shaped, k, reading.levels, Detected);
    var judged := if reading.levels == map[] then shaped else RecordSensitivity(shaped, k, reading.levels, Detected);
    ProfilesKeepShape(judged, k, reading.profiles);
  }

  // ---- each operation keeps the invariants ----

  lemma OneMoreChange(changes: seq<Change>, change: Change)
    requires Linked(changes) && Follows(changes, change)
    ensures Linked(changes + [change])
    ensures forall k :: LastNew(changes + [change], k) == if k == change.key then change.newHash else LastNew(changes, k)
    ensures (changes + [change])[..|changes|] == changes
  {
    hide Follows;
    var more := changes + [change];
    assert more[..|changes|] == changes;
    forall i | 0 <= i < |more| ensures Follows(more[..i], more[i]) {
      if i < |changes| { assert more[..i] == changes[..i]; }
    }
  }

  lemma {:induction false} PreviousShapeIsWhole(rows: map<string, ColumnRow>)
    requires |rows| <= ALL_COLUMNS
    ensures PreviousShape(rows) == Facts(rows)
  {
    PlacesOrdered();
    var places := set name | name in rows :: (rows[name].info.ordinal, name);
    CountPlaces(rows, rows.Keys);
    assert places == set name | name in rows.Keys :: (rows[name].info.ordinal, name);
    assert |SortedColumns(rows)| == |rows.Keys| == |rows|;
  }

  lemma {:induction false} CountPlaces(rows: map<string, ColumnRow>, names: set<string>)
    requires names <= rows.Keys
    ensures |set name | name in names :: (rows[name].info.ordinal, name)| == |names|
  {
    var places := set name | name in names :: (rows[name].info.ordinal, name);
    if names != {} {
      var name :| name in names;
      CountPlaces(rows, names - {name});
      assert places == (set other | other in names - {name} :: (rows[other].info.ordinal, other)) + {(rows[name].info.ordinal, name)};
    }
  }

  lemma FactsCount(rows: map<string, ColumnRow>)
    ensures |Facts(rows)| == |rows|
  {
    assert Facts(rows).Keys == rows.Keys;
  }

  /** The record a rescan appends, when the shape moved. */
  function MoveOf(s: Store, job: JobId, info: ContainerInfo, columns: seq<ColumnInfo>, now: Time): Change {
    var k := KeyOf(info);
    match StoredHash(s, k)
    case None => Change(job, k, ContainerAdded, None, Some(CurrentHash(info, columns)), None, now)
    case Some(stored) => Change(job, k, SchemaChanged, Some(stored), Some(CurrentHash(info, columns)),
                                DetailOf(PreviousShape(Columns(s, k)), Shape(columns)), now)
  }

  lemma MoveFollows(s: Store, job: JobId, info: ContainerInfo, columns: seq<ColumnInfo>, now: Time)
    requires Sound(s) && !Unchanged(s, info, columns)
    ensures Follows(s.changes, MoveOf(s, job, info, columns, now))
  {
    hide DetailOf, PreviousShape, LastNew, Shape, Replayed, Linked, Facts, DetailTells;
    var k := KeyOf(info);
    assert HashDescribes(s, k);
    if IsReadable(s, k) {
      DetailOfTells(PreviousShape(Columns(s, k)), Shape(columns));
      FactsCount(Columns(s, k));
      if |Columns(s, k)| <= ALL_COLUMNS { PreviousShapeIsWhole(Columns(s, k)); }
    }
  }

  lemma MoveRecorded(s: Store, job: JobId, info: ContainerInfo, columns: seq<ColumnInfo>, now: Time)
    requires Sound(s) && !Unchanged(s, info, columns)
    ensures
      var k := KeyOf(info);
      var moved := RecordMove(s, job, k, StoredHash(s, k), CurrentHash(info, columns), columns, now);
      && moved.changes == s.changes + [MoveOf(s, job, info, columns, now)]
      && Linked(moved.changes)
      && (forall other :: LastNew(moved.changes, other)
            == if other == k then Some(CurrentHash(info, columns)) else LastNew(s.changes, other))
      && Replayed(moved.changes) == Replayed(s.changes) + (if IsReadable(s, k) then {} else {k})
  {
    hide DetailOf, PreviousShape, LastNew, Shape, Linked, Follows, Facts;
    MoveFollows(s, job, info, columns, now);
    OneMoreChange(s.changes, MoveOf(s, job, info, columns, now));
  }

  /**
   What is recorded of a container read again: nothing where its hash is as stored; that it was
   added where no readable row was stored; else how it moved, against the columns stored so far.
   */
  ghost predicate MoveTold(s: Store, t: Store, job: JobId, k: Key, stored: Option<Hash>, current: Hash, columns: seq<ColumnInfo>, now: Time) {
    if stored == Some(current) then t.changes == s.changes
    else
      && |t.changes| == |s.changes| + 1 && t.changes[..|s.changes|] == s.changes
      && var change := t.changes[|s.changes|];
         && change.job == job && change.key == k && change.at == now
         && change.oldHash == stored && change.newHash == Some(current)
         && (stored.None? ==> change.kind == ContainerAdded && change.detail.None?)
         && (stored.Some? ==>
               && change.kind == SchemaChanged
               && (|Columns(s, k)| <= ALL_COLUMNS ==> DetailTells(Facts(Columns(s, k)), Shape(columns), change.detail)))
  }

  lemma MoveIsTold(s: Store, job: JobId, k: Key, stored: Option<Hash>, current: Hash, columns: seq<ColumnInfo>, now: Time)
    ensures MoveTold(s, RecordMove(s, job, k, stored, current, columns, now), job, k, stored, current, columns, now)
  {
    hide DetailOf, PreviousShape, Shape, Facts, DetailTells;
    DetailOfTells(PreviousShape(Columns(s, k)), Shape(columns));
    if |Columns(s, k)| <= ALL_COLUMNS { PreviousShapeIsWhole(Columns(s, k)); }
  }

  /** The history after one scan, whatever came of it. */
  lemma ScanTellsMove(s: Store, job: JobId, info: ContainerInfo, reading: Reading, force: bool, now: Time)
    ensures
      var k, t := KeyOf(info), ScanContainer(s, job, info, reading, force, now);
      if reading.Readable?
      then MoveTold(s, t, job, k, StoredHash(s, k), SchemaHash(info.nativeDescription, reading.columns), reading.columns, now)
      else t.changes == s.changes
  {
    hide DetailOf, PreviousShape, Shape, Facts, DetailTells, WriteShape;
    if reading.Readable? {
      var k := KeyOf(info);
      MoveIsTold(s, job, k, StoredHash(s, k), CurrentHash(info, reading.columns), reading.columns, now);
      if OutcomeOf(s, info, reading, force) == Scanned {
        ScannedShape(s, job, info, reading, force, now);
        WrittenRows(s, job, info, reading.columns, now);
        hide ScanContainer, RecordMove, HashDescribes, RefreshRows;
      }
    }
  }

  lemma WrittenRows(s: Store, job: JobId, info: ContainerInfo, columns: seq<ColumnInfo>, now: Time)
    ensures
      var k := KeyOf(info);
      var t := WriteShape(s, job, info, columns, now);
      && StoredHash(t, k) == Some(CurrentHash(info, columns))
      && t.containers.Keys == s.containers.Keys + {k}
      && (forall other :: other != k && other in s.containers ==> t.containers[other] == s.containers[other])
      && (forall other :: other != k ==> Columns(t, other) == Columns(s, other))
      && t.containers[k].nativeDescription == info.nativeDescription
      && t.containers[k].written == (if k in s.containers then s.containers[k].written else None)
      && Columns(t, k) == RefreshRows(Columns(s, k), columns, now)
      && Facts(Columns(t, k)) == Shape(columns)
      && HashDescribes(t, k)
      && t.changes == RecordMove(s, job, k, StoredHash(s, k), CurrentHash(info, columns), columns, now).changes
  {
    hide DetailOf, PreviousShape, Shape;
  }

  /** What a write to one container must have recorded for the history still to account for every row. */
  lemma ChronicledAfterWrite(s: Store, t: Store, k: Key)
    requires Chronicled(s) && Linked(t.changes)
    requires t.containers.Keys == s.containers.Keys + {k} && IsReadable(t, k)
    requires forall other :: other != k && other in s.containers ==> t.containers[other] == s.containers[other]
    requires forall other :: LastNew(t.changes, other) == if other == k then StoredHash(t, k) else LastNew(s.changes, other)
    requires k in Replayed(t.changes) && Replayed(t.changes) <= Replayed(s.changes) + {k}
    requires Replayed(s.changes) <= Replayed(t.changes)
    ensures Chronicled(t)
  {
    hide LastNew, Replayed, Linked;
    forall other | other != k ensures StoredHash(t, other) == StoredHash(s, other) {
      assert other in t.containers <==> other in s.containers;
    }
  }

  lemma WriteShapeSound(s: Store, job: JobId, info: ContainerInfo, columns: seq<ColumnInfo>, now: Time)
    requires Sound(s)
    ensures Sound(WriteShape(s, job, info, columns, now))
  {
    hide WriteShape, RecordMove, Linked, Shape, Facts;
    var k := KeyOf(info);
    var t := WriteShape(s, job, info, columns, now);
    WrittenRows(s, job, info, columns, now);
    forall other ensures HashDescribes(t, other) {
      assert HashDescribes(s, other);
    }
    if Unchanged(s, info, columns) {
      UnchangedRecordsNothing(s, job, info, columns, now);
    } else {
      MoveRecorded(s, job, info, columns, now);
    }
    ChronicledAfterWrite(s, t, k);
  }

  lemma UnchangedRecordsNothing(s: Store, job: JobId, info: ContainerInfo, columns: seq<ColumnInfo>, now: Time)
    requires Unchanged(s, info, columns)
    ensures RecordMove(s, job, KeyOf(info), StoredHash(s, KeyOf(info)), CurrentHash(info, columns), columns, now) == s
  {
  }

  lemma ScanKeepsSound(s: Store, job: JobId, info: ContainerInfo, reading: Reading, force: bool, now: Time)
    requires Sound(s)
    ensures Sound(ScanContainer(s, job, info, reading, force, now))
  {
    match OutcomeOf(s, info, reading, force)
    case Skipped =>
    case Unread =>
      var k := KeyOf(info);
      var t := ScanContainer(s, job, info, reading, force, now);
      assert !IsReadable(t, k);
      forall other ensures HashDescribes(t, other) && (other != k ==> StoredHash(t, other) == StoredHash(s, other)) {
        assert HashDescribes(s, other);
      }
    case Scanned =>
      WriteShapeSound(s, job, info, reading.columns, now);
      ScannedShape(s, job, info, reading, force, now);
      SoundUpToShape(WriteShape(s, job, info, reading.columns, now), ScanContainer(s, job, info, reading, force, now));
  }

  lemma RemovalKeepsSound(s: Store, job: JobId, k: Key, now: Time)
    requires Sound(s)
    ensures Sound(RemoveContainer(s, job, k, now))
  {
    var t := RemoveContainer(s, job, k, now);
    OneMoreChange(s.changes, Change(job, k, ContainerRemoved, None, None, None, now));
    forall other ensures HashDescribes(t, other) && (other != k ==> StoredHash(t, other) == StoredHash(s, other)) {
      assert HashDescribes(s, other);
    }
  }
}
