/**
 The staging store object: four tables updated in place.

 `View` is the value of the tables; every method is proved to make of it what
 the function of the same name in `Tables` says.
 */
module Staging {
  import opened Wrappers
  import opened Contracts
  import T = Tables
  import N = Annotating

  datatype AnnotateError = UnknownStagedContainer

  class StagingStore {
    var scans: seq<T.ScanRow>
    var containers: map<T.Key, T.ContainerRow>
    var columns: map<T.Key, map<string, T.ColumnRow>>
    var changes: seq<T.Change>

    function View(): T.Store
      reads this
    {
      T.Store(scans, containers, columns, changes)
    }

    constructor ()
      ensures View() == T.EMPTY
    {
      scans, containers, columns, changes := [], map[], map[], [];
    }

    // ---- scans ----

    method CreateScan(database: Option<string>, now: T.Time) returns (job: T.JobId)
      modifies this
      ensures View() == T.CreateScan(old(View()), database, now)
      ensures job == old(|scans|)
    {
      job := |scans|;
      scans := scans + [T.ScanRow(database, T.Running, None, 0, 0, 0, None, now, None)];
    }

    method AdvanceScan(job: T.JobId, cursor: string, done: nat, failed: nat, skipped: nat)
      modifies this
      ensures View() == T.AdvanceScan(old(View()), job, cursor, done, failed, skipped)
    {
      if job < |scans| {
        scans := scans[job := scans[job].(cursor := Some(cursor), done := done, failed := failed, skipped := skipped)];
      }
    }

    method FinishScan(job: T.JobId, state: T.ScanState, error: Option<string>, now: T.Time)
      modifies this
      ensures View() == T.FinishScan(old(View()), job, state, error, now)
    {
      if job < |scans| {
        scans := scans[job := scans[job].(state := state, error := error, finishedAt := Some(now))];
      }
    }

    method ResumableScan(database: Option<string>) returns (found: Option<T.JobId>)
      ensures found.Some? ==> T.Resumable(View(), database, found.value)
      ensures found.None? ==> forall j :: 0 <= j < |scans| ==> !T.Unfinished(scans[j], database)
    {
      found := None;
      for j := 0 to |scans|
        invariant found.Some? ==> found.value < j && T.Unfinished(scans[found.value], database)
        invariant found.Some? ==> forall i :: 0 <= i < j && T.Unfinished(scans[i], database) ==> scans[i].startedAt <= scans[found.value].startedAt
        invariant found.None? ==> forall i :: 0 <= i < j ==> !T.Unfinished(scans[i], database)
      {
        if T.Unfinished(scans[j], database) && (found.None? || scans[found.value].startedAt < scans[j].startedAt) {
          found := Some(j);
        }
      }
    }

    // ---- inventory ----

    method UpsertContainer(info: ContainerInfo, hash: T.Hash, error: Option<string>, now: T.Time)
      modifies this
      ensures View() == T.UpsertContainer(old(View()), info, hash, error, now)
    {
      var k := T.KeyOf(info);
      if k in containers {
        containers := containers[k := containers[k].(containerType := info.containerType, estimatedCount := info.estimatedCount,
          schemaHash := hash, nativeDescription := info.nativeDescription, lastModifiedAt := info.lastModifiedAt,
          error := error, scannedAt := now)];
      } else {
        containers := containers[k := T.ContainerRow(info.containerType, info.estimatedCount, hash, info.nativeDescription,
                                                     None, info.lastModifiedAt, error, now)];
      }
    }

    method ReplaceColumns(k: T.Key, current: seq<ColumnInfo>, now: T.Time)
      modifies this
      ensures View() == T.ReplaceColumns(old(View()), k, current, now)
    {
      var rows := UpsertThenDelete(if k in columns then columns[k] else map[], current, now);
      columns := columns[k := rows];
    }

    method RecordProfile(k: T.Key, column: string, mode: ProfileMode, result: ProfileResult)
      modifies this
      ensures View() == T.RecordProfile(old(View()), k, column, mode, result)
    {
      if k !in columns || column !in columns[k] {
        return;
      }
      var profile := columns[k][column].profile[mode := result];
      columns := columns[k := columns[k][column := columns[k][column].(profile := profile)]];
    }

    // ---- sensitivity ----

    method RecordSensitivity(k: T.Key, levels: map<string, Sensitivity>, source: T.Source) returns (written: nat)
      modifies this
      ensures View() == T.RecordSensitivity(old(View()), k, levels, source)
      ensures written == |set name | name in levels && name in T.Columns(old(View()), k)
                                     && T.MayJudge(T.Columns(old(View()), k)[name], source)|
    {
      if k !in columns {
        return 0;
      }
      var rows;
      rows, written := JudgeRows(columns[k], levels, source);
      columns := columns[k := rows];
    }

    // ---- change history ----

    method RecordChange(change: T.Change)
      modifies this
      ensures View() == T.RecordChange(old(View()), change)
    {
      changes := changes + [change];
    }

    method ContainerKeys(database: Option<string>) returns (keys: set<T.Key>)
      ensures keys == T.ContainerKeys(View(), database)
    {
      if database.Some? && database.value != "" {
        keys := set k | k in containers && k.database == database.value;
      } else {
        keys := containers.Keys;
      }
    }

    method ForgetContainer(k: T.Key)
      modifies this
      ensures View() == T.ForgetContainer(old(View()), k)
    {
      columns := columns - {k};
      containers := containers - {k};
    }

    // ---- annotations ----

    method Annotate(k: T.Key, description: Option<string>, annotations: seq<T.Annotation>, source: T.Source, now: T.Time)
      returns (result: Result<T.AnnotateResult, AnnotateError>)
      modifies this
      ensures View() == T.Annotate(old(View()), k, description, annotations, source, now)
      ensures N.Noted(old(View()), View(), k, description, annotations, source, now)
      ensures result.Ok? ==> result.value.columnsUpdated == |N.Updating(T.Columns(old(View()), k).Keys, annotations)|
      ensures result ==
              if k !in old(containers) then Err(UnknownStagedContainer)
              else
                var known := T.Columns(old(View()), k).Keys;
                Ok(T.AnnotateResult(if description.Some? then 1 else 0, T.CountUpdates(known, annotations),
                                    T.UnknownColumns(known, annotations)))
    {
      hide N.Noted, N.Updating, T.BlankToNone;
      N.AnnotateNotes(View(), k, description, annotations, source, now);
      N.UpdatesAreCounted(T.Columns(View(), k).Keys, annotations);
      if k !in containers {
        return Err(UnknownStagedContainer);
      }
      var containersUpdated := 0;
      if description.Some? {
        containers := containers[k := containers[k].(written := Some(T.Writing(T.BlankToNone(description.value), source, now)))];
        containersUpdated := 1;
      }
      assert containers == old(containers)[k := T.AnnotateContainer(old(containers)[k], description, source, now)];
      var known := if k in columns then columns[k].Keys else {};
      var rows, columnsUpdated, unknown := AnnotateRows(if k in columns then columns[k] else map[], annotations, source, now);
      if k in columns {
        columns := columns[k := rows];
      }
      result := Ok(T.AnnotateResult(containersUpdated, columnsUpdated, unknown));
    }
  }

  // ---- the row-by-row statements inside one transaction ----

  method UpsertThenDelete(before: map<string, T.ColumnRow>, current: seq<ColumnInfo>, now: T.Time)
    returns (rows: map<string, T.ColumnRow>)
    ensures rows == T.RefreshRows(before, current, now)
  {
    rows := before;
    var names := {};
    for i := 0 to |current|
      invariant names == T.Shape(current[..i]).Keys
      invariant rows == Upserted(before, T.Shape(current[..i]), now)
    {
      var column := current[i];
      assert current[..i + 1][..i] == current[..i];
      assert T.Shape(current[..i + 1]) == T.Shape(current[..i])[column.name := column];
      UpsertOneMore(before, T.Shape(current[..i]), column, now);
      if column.name in rows {
        rows := rows[column.name := rows[column.name].(info := column, scannedAt := now)];
      } else {
        rows := rows[column.name := T.ColumnRow(column, None, None, map[], now)];
      }
      names := names + {column.name};
    }
    assert current[..|current|] == current;
    // The names not listed: only now, since the upsert never removes one.
    DeleteTheRest(before, current, now);
    rows := map name | name in rows && name in names :: rows[name];
  }

  /** A row is rewritten where a level is given for it and its source may be replaced; else it stays. */
  lemma JudgedWhere(rows: map<string, T.ColumnRow>, levels: map<string, Sensitivity>, source: T.Source)
    ensures forall name :: name in rows ==>
      T.Judged(name, rows[name], levels, source)
      == if name in levels && T.MayJudge(rows[name], source) then rows[name].(sensitivity := Some(T.Level(levels[name], source)))
         else rows[name]
  {
  }

  method JudgeRows(before: map<string, T.ColumnRow>, levels: map<string, Sensitivity>, source: T.Source)
    returns (rows: map<string, T.ColumnRow>, written: nat)
    ensures rows == map name | name in before :: T.Judged(name, before[name], levels, source)
    ensures written == |set name | name in levels && name in before && T.MayJudge(before[name], source)|
  {
    hide T.Judged, T.MayJudge;
    rows, written := before, 0;
    var todo := levels.Keys;
    ghost var judged: set<string> := {};
    JudgedWhere(before, levels, source);
    while todo != {}
      invariant todo <= levels.Keys && rows.Keys == before.Keys
      invariant forall name :: name in before ==>
                  rows[name] == (if name in todo then before[name] else T.Judged(name, before[name], levels, source))
      invariant forall name :: name in judged <==> name in levels && name !in todo && name in before && T.MayJudge(before[name], source)
      invariant written == |judged|
      decreases todo
    {
      var name :| name in todo;
      todo := todo - {name};
      if name in rows && T.MayJudge(rows[name], source) {
        rows := rows[name := rows[name].(sensitivity := Some(T.Level(levels[name], source)))];
        written := written + 1;
        judged := judged + {name};
      }
    }
    assert judged == set name | name in levels && name in before && T.MayJudge(before[name], source);
  }

  method AnnotateRows(before: map<string, T.ColumnRow>, annotations: seq<T.Annotation>, source: T.Source, now: T.Time)
    returns (rows: map<string, T.ColumnRow>, updated: nat, unknown: seq<string>)
    ensures rows == T.AnnotateColumns(before, annotations, source, now)
    ensures N.RowsNoted(before, rows, annotations, source, now)
    ensures updated == T.CountUpdates(before.Keys, annotations)
    ensures unknown == T.UnknownColumns(before.Keys, annotations)
  {
    rows, updated, unknown := before, 0, [];
    assert rows == T.AnnotateColumns(before, annotations[..0], source, now);
    hide T.AnnotateColumns, T.BlankToNone, N.RowsNoted, WriteOne;
    for i := 0 to |annotations|
      invariant rows == T.AnnotateColumns(before, annotations[..i], source, now) && rows.Keys == before.Keys
      invariant updated == T.CountUpdates(before.Keys, annotations[..i])
      invariant unknown == T.UnknownColumns(before.Keys, annotations[..i])
    {
      var annotation := annotations[i];
      assert annotations[..i + 1][..i] == annotations[..i];
      AnnotateOneMore(before, annotations[..i + 1], source, now);
      WritesOnlyKnown(rows, annotation, source, now);
      if annotation.column !in before {
        unknown := unknown + [annotation.column];
      } else {
        if annotation.description.Some? || annotation.sensitivity.Some? {
          updated := updated + 1;
        }
        rows := AssignFields(rows, annotation, source, now);
      }
    }
    assert annotations[..|annotations|] == annotations;
    N.RowsAreNoted(before, annotations, source, now);
  }

  lemma WritesOnlyKnown(rows: map<string, T.ColumnRow>, annotation: T.Annotation, source: T.Source, now: T.Time)
    ensures annotation.column !in rows ==> WriteOne(rows, annotation, source, now) == rows
    ensures WriteOne(rows, annotation, source, now).Keys == rows.Keys
  {
  }

  method AssignFields(before: map<string, T.ColumnRow>, annotation: T.Annotation, source: T.Source, now: T.Time)
    returns (rows: map<string, T.ColumnRow>)
    requires annotation.column in before
    ensures rows == WriteOne(before, annotation, source, now)
  {
    var row := before[annotation.column];
    if annotation.description.Some? {
      row := row.(written := Some(T.Writing(T.BlankToNone(annotation.description.value), source, now)));
    }
    if annotation.sensitivity.Some? {
      row := row.(sensitivity := Some(T.Level(annotation.sensitivity.value, source)));
    }
    rows := before[annotation.column := row];
  }

  /** Rows after an upsert of `shape`: named rows refreshed or created, the others as they were. */
  function Upserted(rows: map<string, T.ColumnRow>, shape: map<string, ColumnInfo>, now: T.Time): map<string, T.ColumnRow> {
    map name | name in rows.Keys + shape.Keys :: if name in shape then T.Refreshed(rows, shape[name], now) else rows[name]
  }

  lemma DeleteTheRest(rows: map<string, T.ColumnRow>, columns: seq<ColumnInfo>, now: T.Time)
    ensures
      var upserted := Upserted(rows, T.Shape(columns), now);
      (map name | name in upserted && name in T.Shape(columns) :: upserted[name]) == T.RefreshRows(rows, columns, now)
  {
    hide T.Shape, T.Refreshed;
  }

  /** A name given twice is refreshed by its later column; the first one only made sure the row is there. */
  lemma UpsertOneMore(rows: map<string, T.ColumnRow>, shape: map<string, ColumnInfo>, column: ColumnInfo, now: T.Time)
    requires forall name :: name in shape ==> shape[name].name == name
    ensures
      var earlier := Upserted(rows, shape, now);
      Upserted(rows, shape[column.name := column], now)
      == earlier[column.name := if column.name in earlier then earlier[column.name].(info := column, scannedAt := now)
                                else T.ColumnRow(column, None, None, map[], now)]
  {
  }

  /** One annotation written: only its own column changes, in the fields it gives. */
  function WriteOne(rows: map<string, T.ColumnRow>, annotation: T.Annotation, source: T.Source, now: T.Time): map<string, T.ColumnRow> {
    if annotation.column !in rows then rows
    else
      var row := rows[annotation.column];
      var described := if annotation.description.Some?
                       then row.(written := Some(T.Writing(T.BlankToNone(annotation.description.value), source, now))) else row;
      rows[annotation.column := if annotation.sensitivity.Some?
                                then described.(sensitivity := Some(T.Level(annotation.sensitivity.value, source))) else described]
  }

  lemma AnnotateOneMore(rows: map<string, T.ColumnRow>, annotations: seq<T.Annotation>, source: T.Source, now: T.Time)
    requires annotations != []
    ensures T.AnnotateColumns(rows, annotations, source, now)
         == WriteOne(T.AnnotateColumns(rows, annotations[..|annotations| - 1], source, now),
                     annotations[|annotations| - 1], source, now)
  {
  }
}
