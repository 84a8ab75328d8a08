/**
 The staging tables as a value: what scans found and what was written about it.

 `Store` holds the four tables; each function on it says what one write makes of
 them.  The store object in `Staging` is proved against these functions, and the
 laws about histories and writers are proved of them.
 */
module Tables {
  import opened Wrappers
  import opened Ordering
  import opened Keyset
  import opened Contracts
  import opened Text

  type Time = int
  type JobId = nat

  const NO_SCHEMA := ""

  /** Primary key of a container; a missing schema is stored as the empty string. */
  datatype Key = Key(database: string, schema: string, container: string)

  function KeyOf(info: ContainerInfo): Key {
    Key(info.database, match info.schemaName case None => NO_SCHEMA case Some(s) => s, info.containerName)
  }

  /** Two containers have one key exactly when database, schema and name agree, no schema being the empty one. */
  lemma KeysTell(a: ContainerInfo, b: ContainerInfo)
    ensures KeyOf(a) == KeyOf(b) <==>
      && a.database == b.database && a.containerName == b.containerName
      && (a.schemaName == b.schemaName || (a.schemaName in {None, Some("")} && b.schemaName in {None, Some("")}))
    ensures KeyOf(a).database == a.database && KeyOf(a).container == a.containerName
  {
  }

  /** Who wrote a description or a sensitivity level. */
  datatype Source = Native | Ai | Human | Detected

  /** A digest without collisions is its own payload; `NoHash` is the "" of a failed read. */
  datatype Hash = NoHash | SchemaHash(comment: Option<string>, columns: seq<ColumnInfo>)

  /** `description`, `description_source` and `description_updated_at`, always written together. */
  datatype Writing = Writing(text: Option<string>, source: Source, at: Time)

  /** `sensitivity` and `sensitivity_source`, always written together. */
  datatype Level = Level(level: Sensitivity, source: Source)

  datatype ContainerRow = ContainerRow(
    containerType: ContainerType,
    estimatedCount: Option<int>,
    schemaHash: Hash,
    nativeDescription: Option<string>,
    written: Option<Writing>,
    lastModifiedAt: Option<string>,
    error: Option<string>,
    scannedAt: Time)

  /** `info` holds what a scan owns; the rest belongs to the other writers. */
  datatype ColumnRow = ColumnRow(
    info: ColumnInfo,
    written: Option<Writing>,
    sensitivity: Option<Level>,
    profile: map<ProfileMode, ProfileResult>,
    scannedAt: Time)

  datatype ScanState = Running | Done | Failed | Cancelled

  /** One row of `scans`; jobs are numbered in the order they were created. */
  datatype ScanRow = ScanRow(
    database: Option<string>,
    state: ScanState,
    cursor: Option<string>,
    done: nat,
    failed: nat,
    skipped: nat,
    error: Option<string>,
    startedAt: Time,
    finishedAt: Option<Time>)

  datatype Retyped = Retyped(name: string, before: string, after: string)

  datatype Detail = Detail(added: seq<string>, removed: seq<string>, retyped: seq<Retyped>)

  datatype ChangeType = ContainerAdded | ContainerRemoved | SchemaChanged

  datatype Change = Change(
    job: JobId,
    key: Key,
    kind: ChangeType,
    oldHash: Option<Hash>,
    newHash: Option<Hash>,
    detail: Option<Detail>,
    at: Time)

  datatype Store = Store(
    scans: seq<ScanRow>,
    containers: map<Key, ContainerRow>,
    columns: map<Key, map<string, ColumnRow>>,
    changes: seq<Change>)

  const EMPTY := Store([], map[], map[], [])

  /** The rows of `columns` for one container, by column name. */
  function Columns(s: Store, k: Key): map<string, ColumnRow> {
    if k in s.columns then s.columns[k] else map[]
  }

  /** One container's row and column rows are the same in both. */
  ghost predicate SameRows(s: Store, t: Store, k: Key) {
    && (k in t.containers <==> k in s.containers)
    && (k in s.containers ==> t.containers[k] == s.containers[k])
    && Columns(t, k) == Columns(s, k)
  }

  // ---- scans ----

  function CreateScan(s: Store, database: Option<string>, now: Time): Store {
    s.(scans := s.scans + [ScanRow(database, Running, None, 0, 0, 0, None, now, None)])
  }

  function AdvanceScan(s: Store, job: JobId, cursor: string, done: nat, failed: nat, skipped: nat): Store {
    if job >= |s.scans| then s
    else s.(scans := s.scans[job := s.scans[job].(cursor := Some(cursor), done := done, failed := failed, skipped := skipped)])
  }

  function FinishScan(s: Store, job: JobId, state: ScanState, error: Option<string>, now: Time): Store {
    if job >= |s.scans| then s
    else s.(scans := s.scans[job := s.scans[job].(state := state, error := error, finishedAt := Some(now))])
  }

  predicate Unfinished(row: ScanRow, database: Option<string>) {
    row.database == database && (row.state == Running || row.state == Failed)
  }

  /** The latest unfinished run of this database; equal start times may come out in any order. */
  predicate Resumable(s: Store, database: Option<string>, job: JobId) {
    && job < |s.scans| && Unfinished(s.scans[job], database)
    && forall j :: 0 <= j < |s.scans| && Unfinished(s.scans[j], database) ==> s.scans[j].startedAt <= s.scans[job].startedAt
  }

  // ---- inventory ----

  function StoredHash(s: Store, k: Key): Option<Hash> {
    if k in s.containers && s.containers[k].error.None? then Some(s.containers[k].schemaHash) else None
  }

  function UpsertContainer(s: Store, info: ContainerInfo, hash: Hash, error: Option<string>, now: Time): Store {
    var k := KeyOf(info);
    var written := if k in s.containers then s.containers[k].written else None;
    s.(containers := s.containers[k := ContainerRow(info.containerType, info.estimatedCount, hash, info.nativeDescription,
                                                    written, info.lastModifiedAt, error, now)])
  }

  /** A column list as a table: one row a name, the last one given. */
  function Shape(columns: seq<ColumnInfo>): (shape: map<string, ColumnInfo>)
    ensures forall c :: c in columns ==> c.name in shape
    ensures forall name :: name in shape ==> shape[name] in columns && shape[name].name == name
  {
    if columns == [] then map[]
    else
      var n := |columns| - 1;
      assert columns == columns[..n] + [columns[n]];
      Shape(columns[..n])[columns[n].name := columns[n]]
  }

  function Refreshed(rows: map<string, ColumnRow>, info: ColumnInfo, now: Time): ColumnRow {
    if info.name in rows then rows[info.name].(info := info, scannedAt := now)
    else ColumnRow(info, None, None, map[], now)
  }

  /** The rows as scanned: those still there keep what others wrote, those gone go with it. */
  function RefreshRows(rows: map<string, ColumnRow>, columns: seq<ColumnInfo>, now: Time): map<string, ColumnRow> {
    map name | name in Shape(columns) :: Refreshed(rows, Shape(columns)[name], now)
  }

  function ReplaceColumns(s: Store, k: Key, columns: seq<ColumnInfo>, now: Time): Store {
    s.(columns := s.columns[k := RefreshRows(Columns(s, k), columns, now)])
  }

  function RecordProfile(s: Store, k: Key, column: string, mode: ProfileMode, result: ProfileResult): Store {
    var rows := Columns(s, k);
    if column !in rows then s
    else s.(columns := s.columns[k := rows[column := rows[column].(profile := rows[column].profile[mode := result])]])
  }

  // ---- sensitivity ----

  /** A verdict replaces nothing, or an earlier verdict from the same source. */
  predicate MayJudge(row: ColumnRow, source: Source) {
    row.sensitivity.None? || row.sensitivity.value.source == source
  }

  function Judged(name: string, row: ColumnRow, levels: map<string, Sensitivity>, source: Source): ColumnRow {
    if name in levels && MayJudge(row, source)
    then row.(sensitivity := Some(Level(levels[name], source)))
    else row
  }

  function RecordSensitivity(s: Store, k: Key, levels: map<string, Sensitivity>, source: Source): Store {
    if k !in s.columns then s
    else s.(columns := s.columns[k := map name | name in s.columns[k] :: Judged(name, s.columns[k][name], levels, source)])
  }

  // ---- change history ----

  function RecordChange(s: Store, change: Change): Store {
    s.(changes := s.changes + [change])
  }

  /** No database named selects every container. */
  predicate InScope(database: Option<string>, k: Key) {
    database.None? || database.value == "" || k.database == database.value
  }

  function ContainerKeys(s: Store, database: Option<string>): set<Key> {
    set k | k in s.containers && InScope(database, k)
  }

  function ForgetContainer(s: Store, k: Key): Store {
    s.(containers := s.containers - {k}, columns := s.columns - {k})
  }

  // ---- annotations ----

  datatype Annotation = Annotation(column: string, description: Option<string>, sensitivity: Option<Sensitivity>)

  datatype AnnotateResult = AnnotateResult(containersUpdated: nat, columnsUpdated: nat, unknownColumns: seq<string>)

  function BlankToNone(text: string): Option<string> {
    if Strip(text) == "" then None else Some(Strip(text))
  }

  /** The last description given for a column, if any annotation gives one. */
  function DescriptionFor(annotations: seq<Annotation>, column: string): Option<string> {
    if annotations == [] then None
    else
      var last := annotations[|annotations| - 1];
      if last.column == column && last.description.Some? then last.description
      else DescriptionFor(annotations[..|annotations| - 1], column)
  }

  function SensitivityFor(annotations: seq<Annotation>, column: string): Option<Sensitivity> {
    if annotations == [] then None
    else
      var last := annotations[|annotations| - 1];
      if last.column == column && last.sensitivity.Some? then last.sensitivity
      else SensitivityFor(annotations[..|annotations| - 1], column)
  }

  function Annotated(name: string, row: ColumnRow, annotations: seq<Annotation>, source: Source, now: Time): ColumnRow {
    var text := DescriptionFor(annotations, name);
    var level := SensitivityFor(annotations, name);
    row.(written := if text.Some? then Some(Writing(BlankToNone(text.value), source, now)) else row.written,
         sensitivity := if level.Some? then Some(Level(level.value, source)) else row.sensitivity)
  }

  function AnnotateColumns(rows: map<string, ColumnRow>, annotations: seq<Annotation>, source: Source, now: Time)
    : map<string, ColumnRow>
  {
    map name | name in rows :: Annotated(name, rows[name], annotations, source, now)
  }

  function AnnotateContainer(row: ContainerRow, description: Option<string>, source: Source, now: Time): ContainerRow {
    if description.None? then row
    else row.(written := Some(Writing(BlankToNone(description.value), source, now)))
  }

  function Annotate(s: Store, k: Key, description: Option<string>, annotations: seq<Annotation>, source: Source, now: Time): Store {
    if k !in s.containers then s
    else
      s.(containers := s.containers[k := AnnotateContainer(s.containers[k], description, source, now)],
         columns := if k in s.columns then s.columns[k := AnnotateColumns(s.columns[k], annotations, source, now)] else s.columns)
  }

  /** Columns named that are not there, in the order they were named. */
  function UnknownColumns(known: set<string>, annotations: seq<Annotation>): seq<string> {
    if annotations == [] then []
    else
      var last := annotations[|annotations| - 1];
      UnknownColumns(known, annotations[..|annotations| - 1]) + if last.column in known then [] else [last.column]
  }

  function CountUpdates(known: set<string>, annotations: seq<Annotation>): nat {
    if annotations == [] then 0
    else
      var last := annotations[|annotations| - 1];
      CountUpdates(known, annotations[..|annotations| - 1])
      + if last.column in known && (last.description.Some? || last.sensitivity.Some?) then 1 else 0
  }

  // ---- reading ----

  function Triple(k: Key): (string, string, string) { (k.database, k.schema, k.container) }

  function NameFirst(k: Key): (string, string, string) { (k.container, k.database, k.schema) }

  predicate Before3(a: (string, string, string), b: (string, string, string)) {
    Before(a.0, b.0) || (a.0 == b.0 && (Before(a.1, b.1) || (a.1 == b.1 && Before(a.2, b.2))))
  }

  /** The order of the key tuples, as Python sorts them. */
  predicate TupleBefore(a: Key, b: Key) { Before3(Triple(a), Triple(b)) }

  /** ORDER BY container_name; the rest only makes the order of equal names definite. */
  predicate NameBefore(a: Key, b: Key) { Before3(NameFirst(a), NameFirst(b)) }

  lemma Before3Total(a: (string, string, string), b: (string, string, string))
    ensures !Before3(a, a)
    ensures a == b || Before3(a, b) || Before3(b, a)
  {
    BeforeTotal(a.0, b.0);
    BeforeTotal(a.1, b.1);
    BeforeTotal(a.2, b.2);
  }

  lemma Before3Transitive(a: (string, string, string), b: (string, string, string), c: (string, string, string))
    requires Before3(a, b) && Before3(b, c)
    ensures Before3(a, c)
  {
    hide Before;
    if Before(a.0, b.0) && Before(b.0, c.0) { BeforeTransitive(a.0, b.0, c.0); }
    if Before(a.1, b.1) && Before(b.1, c.1) { BeforeTransitive(a.1, b.1, c.1); }
    if Before(a.2, b.2) && Before(b.2, c.2) { BeforeTransitive(a.2, b.2, c.2); }
  }

  lemma KeysOrdered()
    ensures StrictTotal(TupleBefore) && StrictTotal(NameBefore)
  {
    hide Before3;
    forall a: Key, b: Key
      ensures !TupleBefore(a, a) && (a == b || TupleBefore(a, b) || TupleBefore(b, a))
      ensures !NameBefore(a, a) && (a == b || NameBefore(a, b) || NameBefore(b, a))
    {
      Before3Total(Triple(a), Triple(b));
      Before3Total(NameFirst(a), NameFirst(b));
    }
    forall a: Key, b: Key, c: Key | TupleBefore(a, b) && TupleBefore(b, c) ensures TupleBefore(a, c) {
      Before3Transitive(Triple(a), Triple(b), Triple(c));
    }
    forall a: Key, b: Key, c: Key | NameBefore(a, b) && NameBefore(b, c) ensures NameBefore(a, c) {
      Before3Transitive(NameFirst(a), NameFirst(b), NameFirst(c));
    }
  }

  const ContainerName := (k: Key) => k.container

  function SortedContainers(s: Store, database: Option<string>): seq<Key> {
    KeysOrdered();
    SortSet(NameBefore, ContainerKeys(s, database))
  }

  /** One page of containers; an empty cursor counts as none. */
  function ContainersPage(s: Store, database: Option<string>, limit: nat, cursor: Option<string>): Page<Key, string>
    requires limit >= 1
  {
    ReadPage(ContainerName, Before, SortedContainers(s, database), if cursor == Some("") then None else cursor, limit)
  }

  predicate PlaceBefore(a: (int, string), b: (int, string)) {
    a.0 < b.0 || (a.0 == b.0 && Before(a.1, b.1))
  }

  lemma PlacesOrdered()
    ensures StrictTotal(PlaceBefore)
  {
    forall a: (int, string), b: (int, string), c: (int, string) | PlaceBefore(a, b) && PlaceBefore(b, c)
      ensures PlaceBefore(a, c)
    {
      if a.0 == b.0 == c.0 { BeforeTransitive(a.1, b.1, c.1); }
    }
    forall a: (int, string), b: (int, string) ensures !PlaceBefore(a, a) && (a == b || PlaceBefore(a, b) || PlaceBefore(b, a)) {
      BeforeTotal(a.1, b.1);
    }
  }

  const Ordinal := (place: (int, string)) => place.0

  /** ORDER BY ordinal; equal ordinals are put in the order of their names. */
  function SortedColumns(rows: map<string, ColumnRow>): seq<(int, string)> {
    PlacesOrdered();
    SortSet(PlaceBefore, set name | name in rows :: (rows[name].info.ordinal, name))
  }

  function ColumnsPage(s: Store, k: Key, limit: nat, cursor: Option<int>): Page<(int, string), int>
    requires limit >= 1
  {
    ReadPage(Ordinal, IntBefore, SortedColumns(Columns(s, k)), cursor, limit)
  }
}
