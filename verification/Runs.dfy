/**
 A run, container by container, without its pages: the reference the paged worker
 is proved against, and what one run does to the tables.
 */
module Runs {
  import opened Wrappers
  import opened Ordering
  import opened Keyset
  import opened Contracts
  import opened Tables
  import opened Scan

  const InfoName := (info: ContainerInfo) => info.containerName

  /** A catalog is listed by strictly increasing name. */
  ghost predicate IsCatalog(catalog: seq<ContainerInfo>) {
    Ascending(InfoName, Before, catalog)
  }

  /** What a run meets: the catalog, its readings, errors, cancellation and the clock. */
  datatype World = World(
    catalog: seq<ContainerInfo>,
    connectError: Option<string>,
    listError: nat -> Option<string>,
    read: ContainerInfo -> Reading,
    cancelled: nat -> bool,
    clock: nat -> Time)

  /** What a run still has to look at: the catalog behind its cursor. */
  function Todo(catalog: seq<ContainerInfo>, cursor: Option<string>): seq<ContainerInfo> {
    From(InfoName, Before, catalog, cursor)
  }

  /** A page of the catalog is a prefix of what is left, and its cursor leaves exactly the rest. */
  lemma PageOfTodo(catalog: seq<ContainerInfo>, at: Option<string>, limit: nat)
    requires limit >= 1 && IsCatalog(catalog)
    ensures
      var page, live := ReadPage(InfoName, Before, catalog, at, limit), Todo(catalog, at);
      && |page.rows| <= |live| && |page.rows| <= limit && page.rows == live[..|page.rows|]
      && (page.next.None? ==> |page.rows| == |live|)
      && (page.next.Some? ==> |page.rows| == limit < |live| && Todo(catalog, page.next) == live[limit..])
  {
    if ReadPage(InfoName, Before, catalog, at, limit).next.Some? {
      StringsOrdered();
      AscendingNextPage(InfoName, Before, catalog, at, limit);
    }
  }

  datatype Tally = Tally(done: nat, failed: nat, skipped: nat)

  function Count(tally: Tally, outcome: Outcome): Tally {
    match outcome
    case Scanned => tally.(done := tally.done + 1)
    case Unread => tally.(failed := tally.failed + 1)
    case Skipped => tally.(skipped := tally.skipped + 1)
  }

  /** The tables and the counts after the first m containers were scanned and the cursor moved past them. */
  function Progress(s: Store, job: JobId, todo: seq<ContainerInfo>, world: World, force: bool, m: nat): (Store, Tally)
    requires m <= |todo|
  {
    if m == 0 then (s, Tally(0, 0, 0))
    else
      var (before, tally) := Progress(s, job, todo, world, force, m - 1);
      var info := todo[m - 1];
      var counted := Count(tally, OutcomeOf(before, info, world.read(info), force));
      var scanned := ScanContainer(before, job, info, world.read(info), force, world.clock(m - 1));
      (AdvanceScan(scanned, job, info.containerName, counted.done, counted.failed, counted.skipped), counted)
  }

  function KeysOf(infos: seq<ContainerInfo>): set<Key> {
    set info | info in infos :: KeyOf(info)
  }

  /** The worker's state after m containers: tables, counts and keys seen, with no cancellation noticed so far. */
  ghost predicate Reached(s: Store, job: JobId, todo: seq<ContainerInfo>, world: World, force: bool, m: nat,
                          now: Store, tally: Tally, seen: set<Key>)
  {
    && m <= |todo| && (now, tally) == Progress(s, job, todo, world, force, m)
    && seen == KeysOf(todo[..m])
    && forall i :: 0 <= i < m ==> !world.cancelled(i)
  }

  /** The worker is about to ask for the page after `at`: so many requests, each with a full page, are behind it. */
  ghost predicate BetweenPages(catalog: seq<ContainerInfo>, todo: seq<ContainerInfo>, at: Option<string>, limit: nat, requests: nat, m: nat)
    requires limit >= 1
  {
    && m <= |todo| && Todo(catalog, at) == todo[m..]
    && m == requests * limit && (requests > 0 ==> m < |todo|)
  }

  /** The first n requests for a page raised nothing. */
  ghost predicate Quiet(world: World, n: nat) {
    forall i :: 0 <= i < n ==> world.listError(i).None?
  }

  function RemoveAll(s: Store, job: JobId, keys: seq<Key>, now: Time): Store {
    if keys == [] then s
    else RemoveContainer(RemoveAll(s, job, keys[..|keys| - 1], now), job, keys[|keys| - 1], now)
  }

  /** Stored containers in the scope of the run that it never saw, in the order they are recorded. */
  function Gone(s: Store, database: Option<string>, seen: set<Key>): seq<Key> {
    KeysOrdered();
    SortSet(TupleBefore, ContainerKeys(s, database) - seen)
  }

  function RecordRemovals(s: Store, job: JobId, database: Option<string>, seen: set<Key>, covered: bool, now: Time): Store {
    if covered then RemoveAll(s, job, Gone(s, database, seen), now) else s
  }

  /** Where a new scan starts: at the cursor of the latest unfinished run, if there is one that came somewhere. */
  ghost predicate StartsFrom(s: Store, database: Option<string>, resume: bool, cursor: Option<string>) {
    match cursor
    case Some(c) => resume && c != "" && exists j: nat :: Resumable(s, database, j) && s.scans[j].cursor == cursor
    case None =>
      || !resume
      || (forall j :: 0 <= j < |s.scans| ==> !Unfinished(s.scans[j], database))
      || exists j: nat :: Resumable(s, database, j) && (s.scans[j].cursor.None? || s.scans[j].cursor == Some(""))
  }

  /**
   How a run may end once its first m containers are completed and so many requests
   for a page are made.  Cancelled and done: none of them raised.  Failed: there was
   no connection, or the last request raised, right behind m containers.
   */
  ghost predicate MayEnd(world: World, cursor: Option<string>, limit: nat, state: ScanState, error: Option<string>,
                         requests: nat, m: nat)
    requires limit >= 1
  {
    var size := |Todo(world.catalog, cursor)|;
    && m <= size
    // Every one of them found the cancel event unset.
    && (forall i :: 0 <= i < m ==> !world.cancelled(i))
    && match state
       case Cancelled =>
         && error.None? && world.connectError.None? && Quiet(world, requests)
         && requests > 0 && (requests - 1) * limit <= m < requests * limit && m < size && world.cancelled(m)
       case Done =>
         && error.None? && world.connectError.None? && Quiet(world, requests)
         && requests > 0 && m == size <= requests * limit && (requests > 1 ==> (requests - 1) * limit < size)
       case Failed =>
         && error.Some?
         && if requests == 0 then world.connectError == error && m == 0
            else
              && world.connectError.None? && Quiet(world, requests - 1) && world.listError(requests - 1) == error
              && m == (requests - 1) * limit && (requests > 1 ==> m < size)
       case Running => false
  }

  /** The tables when a run ends that way, just before its state is written: no trace of the pages. */
  function EndedAt(s: Store, job: JobId, database: Option<string>, cursor: Option<string>, force: bool, world: World,
                   state: ScanState, m: nat, now: Time): Store
    requires m <= |Todo(world.catalog, cursor)|
  {
    var todo := Todo(world.catalog, cursor);
    var reached := Progress(s, job, todo, world, force, m).0;
    if state == Done then RecordRemovals(reached, job, database, KeysOf(todo), cursor.None?, now) else reached
  }

  // ---- what the steps of a run do to the tables ----

  lemma ScanKeys(s: Store, job: JobId, info: ContainerInfo, reading: Reading, force: bool, now: Time)
    ensures
      var t := ScanContainer(s, job, info, reading, force, now);
      && t.containers.Keys == s.containers.Keys + {KeyOf(info)}
      && t.scans == s.scans
      && forall k :: k != KeyOf(info) ==> SameRows(s, t, k)
  {
    hide DetailOf, PreviousShape, Shape, RefreshRows, WriteShape, RecordSensitivity, RecordProfiles, Columns, KeyOf;
    match reading
    case Unreadable(error) => UpsertKeepsRest(s, info, NoHash, Some(error), now);
    case Readable(columns, levels, profiles) =>
      if !(Unchanged(s, info, columns) && !force) {
        var shaped := WriteShape(s, job, info, columns, now);
        WrittenRows(s, job, info, columns, now);
        ShapeKeepsScans(s, job, info, columns, now);
        var judged := if levels == map[] then shaped else RecordSensitivity(shaped, KeyOf(info), levels, Detected);
        JudgingKeepsRest(shaped, KeyOf(info), levels);
        ProfilesKeepRest(judged, KeyOf(info), profiles);
      }
  }

  lemma UpsertKeepsRest(s: Store, info: ContainerInfo, hash: Hash, error: Option<string>, now: Time)
    ensures forall k :: k != KeyOf(info) ==> SameRows(s, UpsertContainer(s, info, hash, error, now), k)
  {
  }

  lemma ShapeKeepsScans(s: Store, job: JobId, info: ContainerInfo, columns: seq<ColumnInfo>, now: Time)
    ensures WriteShape(s, job, info, columns, now).scans == s.scans
  {
    hide Shape, DetailOf, PreviousShape;
  }

  lemma JudgingKeepsRest(s: Store, k: Key, levels: map<string, Sensitivity>)
    ensures
      var t := RecordSensitivity(s, k, levels, Detected);
      && t.containers == s.containers && t.scans == s.scans
      && forall other :: other != k ==> Columns(t, other) == Columns(s, other)
  {
  }

  lemma {:induction false} ProfilesKeepRest(s: Store, k: Key, profiles: seq<Profile>)
    ensures RecordProfiles(s, k, profiles).containers == s.containers && RecordProfiles(s, k, profiles).scans == s.scans
    ensures forall other :: other != k ==> Columns(RecordProfiles(s, k, profiles), other) == Columns(s, other)
  {
    if profiles != [] { ProfilesKeepRest(s, k, profiles[..|profiles| - 1]); }
  }

  /** Scanning m containers stores exactly those besides what was stored, and changes no row of any other. */
  lemma {:induction false} ProgressKeys(s: Store, job: JobId, todo: seq<ContainerInfo>, world: World, force: bool, m: nat)
    requires m <= |todo|
    ensures
      var t := Progress(s, job, todo, world, force, m).0;
      && t.containers.Keys == s.containers.Keys + KeysOf(todo[..m])
      && forall k :: k !in KeysOf(todo[..m]) ==> SameRows(s, t, k)
  {
    hide ScanContainer, OutcomeOf, KeyOf, Count, Columns;
    if m > 0 {
      ProgressKeys(s, job, todo, world, force, m - 1);
      var before, after := Progress(s, job, todo, world, force, m - 1).0, Progress(s, job, todo, world, force, m).0;
      var info := todo[m - 1];
      var scanned := ScanContainer(before, job, info, world.read(info), force, world.clock(m - 1));
      ScanKeys(before, job, info, world.read(info), force, world.clock(m - 1));
      assert todo[..m] == todo[..m - 1] + [info];
      assert KeysOf(todo[..m]) == KeysOf(todo[..m - 1]) + {KeyOf(info)};
      forall k | k !in KeysOf(todo[..m]) ensures SameRows(s, after, k) {
        assert SameRows(s, before, k) && SameRows(before, scanned, k);
        ScansApart(scanned, after, k);
      }
    }
  }

  /** The rows of a container have nothing to do with the table of scans. */
  lemma ScansApart(s: Store, t: Store, k: Key)
    requires t == s.(scans := t.scans)
    ensures SameRows(s, t, k)
  {
  }

  /** The persisted row tells exactly how far the run came: its cursor, and counts that add up. */
  lemma {:induction false} ProgressRow(s: Store, job: JobId, todo: seq<ContainerInfo>, world: World, force: bool, m: nat)
    requires m <= |todo| && job < |s.scans|
    ensures
      var (t, tally) := Progress(s, job, todo, world, force, m);
      && |t.scans| == |s.scans|
      && (forall j :: 0 <= j < |s.scans| && j != job ==> t.scans[j] == s.scans[j])
      && tally.done + tally.failed + tally.skipped == m
      && t.scans[job] == if m == 0 then s.scans[job]
                         else s.scans[job].(cursor := Some(todo[m - 1].containerName),
                                            done := tally.done, failed := tally.failed, skipped := tally.skipped)
  {
    hide ScanContainer, OutcomeOf, KeyOf;
    if m > 0 {
      ProgressRow(s, job, todo, world, force, m - 1);
      var info := todo[m - 1];
      ScanKeys(Progress(s, job, todo, world, force, m - 1).0, job, info, world.read(info), force, world.clock(m - 1));
    }
  }

  /** Which of the first m containers could not be read. */
  function Failing(todo: seq<ContainerInfo>, world: World, m: nat): set<nat>
    requires m <= |todo|
  {
    set i: nat | i < m && world.read(todo[i]).Unreadable?
  }

  /** Which were read without force and found stored already, as the tables were just before. */
  function Skipping(s: Store, job: JobId, todo: seq<ContainerInfo>, world: World, force: bool, m: nat): set<nat>
    requires m <= |todo|
  {
    set i: nat | i < m && world.read(todo[i]).Readable? && !force
                 && IsStored(Progress(s, job, todo, world, force, i).0, todo[i], world.read(todo[i]).columns)
  }

  /** The failed are those that could not be read, the skipped those found stored, the done the rest. */
  ghost predicate Counted(s: Store, job: JobId, todo: seq<ContainerInfo>, world: World, force: bool, m: nat,
                          done: nat, failed: nat, skipped: nat)
  {
    && m <= |todo|
    && failed == |Failing(todo, world, m)| && skipped == |Skipping(s, job, todo, world, force, m)|
    && done + failed + skipped == m
  }

  lemma OneMoreCounted(s: Store, job: JobId, todo: seq<ContainerInfo>, world: World, force: bool, m: nat)
    requires m < |todo|
    ensures m !in Failing(todo, world, m) && m !in Skipping(s, job, todo, world, force, m)
    ensures
      var reading, before := world.read(todo[m]), Progress(s, job, todo, world, force, m).0;
      && Failing(todo, world, m + 1) == Failing(todo, world, m) + (if reading.Unreadable? then {m} else {})
      && Skipping(s, job, todo, world, force, m + 1) == Skipping(s, job, todo, world, force, m)
         + if reading.Readable? && !force && IsStored(before, todo[m], reading.columns) then {m} else {}
  {
    hide Progress, IsStored;
  }

  /** What a run counts, container by container. */
  lemma {:induction false} ProgressCounts(s: Store, job: JobId, todo: seq<ContainerInfo>, world: World, force: bool, m: nat)
    requires m <= |todo|
    ensures
      var tally := Progress(s, job, todo, world, force, m).1;
      Counted(s, job, todo, world, force, m, tally.done, tally.failed, tally.skipped)
  {
    hide ScanContainer, OutcomeOf, Failing, Skipping, IsStored, AdvanceScan;
    if m == 0 {
      NoneCounted(s, job, todo, world, force);
    } else {
      var before := Progress(s, job, todo, world, force, m - 1).0;
      var info := todo[m - 1];
      ProgressCounts(s, job, todo, world, force, m - 1);
      OneMoreCounted(s, job, todo, world, force, m - 1);
      OutcomeOfTells(before, info, world.read(info), force);
    }
  }

  lemma NoneCounted(s: Store, job: JobId, todo: seq<ContainerInfo>, world: World, force: bool)
    ensures Failing(todo, world, 0) == {} && Skipping(s, job, todo, world, force, 0) == {}
  {
  }

  lemma {:induction false} ProgressKeepsSound(s: Store, job: JobId, todo: seq<ContainerInfo>, world: World, force: bool, m: nat)
    requires m <= |todo| && Sound(s)
    ensures Sound(Progress(s, job, todo, world, force, m).0)
  {
    hide ScanContainer, OutcomeOf, Count, Sound;
    if m > 0 {
      ProgressKeepsSound(s, job, todo, world, force, m - 1);
      var before := Progress(s, job, todo, world, force, m - 1).0;
      var info := todo[m - 1];
      ScanKeepsSound(before, job, info, world.read(info), force, world.clock(m - 1));
      var scanned := ScanContainer(before, job, info, world.read(info), force, world.clock(m - 1));
      ScansDoNotMatter(scanned, Progress(s, job, todo, world, force, m).0);
    }
  }

  /** Soundness is about containers, columns and changes; the table of scans has no part in it. */
  lemma ScansDoNotMatter(s: Store, t: Store)
    requires Sound(s) && t == s.(scans := t.scans)
    ensures Sound(t)
  {
    SoundUpToShape(s, t);
  }

  // ---- removals ----

  function Removal(job: JobId, k: Key, now: Time): Change {
    Change(job, k, ContainerRemoved, None, None, None, now)
  }

  /** Removing keys drops exactly their rows and appends one record each, in order. */
  lemma {:induction false} RemoveAllEffect(s: Store, job: JobId, keys: seq<Key>, now: Time)
    ensures
      var t := RemoveAll(s, job, keys, now);
      && t.containers == (map k | k in s.containers && k !in keys :: s.containers[k])
      && t.columns == (map k | k in s.columns && k !in keys :: s.columns[k])
      && t.changes == s.changes + seq(|keys|, i requires 0 <= i < |keys| => Removal(job, keys[i], now))
      && t.scans == s.scans
  {
    if keys != [] {
      var n := |keys| - 1;
      RemoveAllEffect(s, job, keys[..n], now);
      assert keys == keys[..n] + [keys[n]];
    }
  }

  lemma {:induction false} RemovalsKeepSound(s: Store, job: JobId, keys: seq<Key>, now: Time)
    requires Sound(s)
    ensures Sound(RemoveAll(s, job, keys, now))
  {
    if keys != [] {
      RemovalsKeepSound(s, job, keys[..|keys| - 1], now);
      RemovalKeepsSound(RemoveAll(s, job, keys[..|keys| - 1], now), job, keys[|keys| - 1], now);
    }
  }

  /** The removal step leaves, of the stored keys in scope, exactly those that were seen, and changes no row it leaves. */
  lemma RemovalsLeaveSeen(s: Store, job: JobId, database: Option<string>, seen: set<Key>, now: Time)
    ensures
      var t := RecordRemovals(s, job, database, seen, true, now);
      && ContainerKeys(t, database) == ContainerKeys(s, database) * seen
      && t.containers.Keys == s.containers.Keys - (ContainerKeys(s, database) - seen)
      && forall k :: k !in ContainerKeys(s, database) || k in seen ==> SameRows(s, t, k)
  {
    hide Gone, RemoveAll, ContainerKeys;
    GoneHas(s, database, seen);
    RemoveAllEffect(s, job, Gone(s, database, seen), now);
    KeysLeft(s, RecordRemovals(s, job, database, seen, true, now), database, seen);
  }

  lemma GoneHas(s: Store, database: Option<string>, seen: set<Key>)
    ensures forall k :: k in Gone(s, database, seen) <==> k in ContainerKeys(s, database) && k !in seen
  {
    KeysOrdered();
  }

  lemma KeysLeft(s: Store, t: Store, database: Option<string>, seen: set<Key>)
    requires forall k :: k in t.containers <==> k in s.containers && !(k in ContainerKeys(s, database) && k !in seen)
    ensures ContainerKeys(t, database) == ContainerKeys(s, database) * seen
    ensures t.containers.Keys == s.containers.Keys - (ContainerKeys(s, database) - seen)
  {
  }

  /**
   The removal step keeps every row of another database d, container and columns,
   exactly when the run named its database or had nothing of d left to remove.
   */
  lemma RemovalsStayInScope(s: Store, job: JobId, database: Option<string>, seen: set<Key>, d: string, now: Time)
    requires database.Some? ==> database.value != d
    ensures
      var t := RecordRemovals(s, job, database, seen, true, now);
      (forall k: Key :: k.database == d ==> SameRows(s, t, k))
      <==> ((database.Some? && database.value != "") || forall k :: k in s.containers && k.database == d ==> k in seen)
  {
    hide RecordRemovals, Columns;
    RemovalsLeaveSeen(s, job, database, seen, now);
    var t := RecordRemovals(s, job, database, seen, true, now);
    if forall k: Key :: k.database == d ==> SameRows(s, t, k) {
      forall k | k in s.containers && k.database == d && !(database.Some? && database.value != "") ensures k in seen {
        assert SameRows(s, t, k);
      }
    }
  }

  ghost predicate Labelled(catalog: seq<ContainerInfo>, d: string) {
    forall info :: info in catalog ==> info.database == d
  }

  /** The tables a full run leaves when it gets to the end, before its state is set to done. */
  function FullRun(s: Store, job: JobId, database: Option<string>, world: World, force: bool, now: Time): Store {
    var todo := Todo(world.catalog, None);
    RecordRemovals(Progress(s, job, todo, world, force, |todo|).0, job, database, KeysOf(todo), true, now)
  }

  /**
   Reconciliation: after an uncursored run over a named database reaches its end, the
   stored containers of that database are exactly those of the catalog, and every
   row of every other database, containers and columns, is what it was.
   */
  lemma FullRunReconciles(s: Store, job: JobId, d: string, world: World, force: bool, now: Time)
    requires d != "" && Labelled(world.catalog, d)
    ensures
      var t := FullRun(s, job, Some(d), world, force, now);
      && ContainerKeys(t, Some(d)) == KeysOf(world.catalog)
      && forall k: Key :: k.database != d ==> SameRows(s, t, k)
  {
    hide Progress, RecordRemovals, Columns;
    var todo := Todo(world.catalog, None);
    var reached := Progress(s, job, todo, world, force, |todo|).0;
    assert todo[..|todo|] == todo == world.catalog;
    ProgressKeys(s, job, todo, world, force, |todo|);
    assert forall k :: k in KeysOf(todo) ==> k.database == d;
    RemovalsLeaveSeen(reached, job, Some(d), KeysOf(todo), now);
    forall k: Key | k.database != d ensures SameRows(s, FullRun(s, job, Some(d), world, force, now), k) {
      assert SameRows(s, reached, k);
    }
  }

  /**
   What a run leaves stored, however it ends: a done run that began without a cursor leaves,
   in its scope, exactly the catalog's containers; any other removes nothing, and adds the
   first m it came to.
   */
  lemma EndedKeys(s: Store, job: JobId, database: Option<string>, cursor: Option<string>, force: bool, world: World,
                  state: ScanState, m: nat, now: Time)
    requires m <= |Todo(world.catalog, cursor)| && (state == Done ==> m == |Todo(world.catalog, cursor)|)
    ensures
      var t, todo := EndedAt(s, job, database, cursor, force, world, state, m, now), Todo(world.catalog, cursor);
      if state == Done && cursor.None? then
        && ContainerKeys(t, database) == (set k | k in KeysOf(world.catalog) && InScope(database, k))
        && forall k :: k in t.containers && !InScope(database, k) <==> (k in s.containers || k in KeysOf(world.catalog)) && !InScope(database, k)
      else t.containers.Keys == s.containers.Keys + KeysOf(todo[..m])
  {
    hide Progress, RecordRemovals;
    var todo := Todo(world.catalog, cursor);
    var reached := Progress(s, job, todo, world, force, m).0;
    ProgressKeys(s, job, todo, world, force, m);
    if state == Done {
      assert todo[..m] == todo;
      if cursor.None? {
        RemovalsLeaveSeen(reached, job, database, KeysOf(todo), now);
      } else {
        NothingRemoved(reached, job, database, KeysOf(todo), now);
      }
    }
  }

  lemma NothingRemoved(s: Store, job: JobId, database: Option<string>, seen: set<Key>, now: Time)
    ensures RecordRemovals(s, job, database, seen, false, now) == s
  {
  }

  /** The name a run leaves behind as its cursor. */
  function CursorAfter(world: World, cursor: Option<string>, m: nat): Option<string>
    requires m <= |Todo(world.catalog, cursor)|
  {
    if m == 0 then None else Some(Todo(world.catalog, cursor)[m - 1].containerName)
  }

  lemma EndedRows(s: Store, job: JobId, database: Option<string>, cursor: Option<string>, force: bool, world: World,
                  state: ScanState, m: nat, now: Time)
    requires job < |s.scans| && m <= |Todo(world.catalog, cursor)|
    ensures
      var t := EndedAt(s, job, database, cursor, force, world, state, m, now);
      && |t.scans| == |s.scans|
      && (forall j :: 0 <= j < |s.scans| && j != job ==> t.scans[j] == s.scans[j])
      && t.scans[job].database == s.scans[job].database && t.scans[job].startedAt == s.scans[job].startedAt
      && t.scans[job].cursor == if m == 0 then s.scans[job].cursor else CursorAfter(world, cursor, m)
  {
    hide Progress, ContainerKeys, Todo;
    var todo := Todo(world.catalog, cursor);
    ProgressRow(s, job, todo, world, force, m);
    var reached := Progress(s, job, todo, world, force, m).0;
    RemoveAllEffect(reached, job, Gone(reached, database, KeysOf(todo)), now);
  }

  /** A row whose run has ended: how, when, and what it counted over the first m containers. */
  ghost predicate EndedRow(row: ScanRow, s: Store, job: JobId, cursor: Option<string>, force: bool, world: World,
                           state: ScanState, error: Option<string>, m: nat, now: Time)
  {
    && row.state == state && row.error == error && row.finishedAt == Some(now)
    && Counted(s, job, Todo(world.catalog, cursor), world, force, m, row.done, row.failed, row.skipped)
  }

  /** A row as `CreateScan` leaves its counts. */
  predicate Uncounted(row: ScanRow) { row.done == 0 && row.failed == 0 && row.skipped == 0 }

  lemma EndedRowTells(s: Store, job: JobId, database: Option<string>, cursor: Option<string>, force: bool, world: World,
                      state: ScanState, error: Option<string>, m: nat, now: Time)
    requires job < |s.scans| && m <= |Todo(world.catalog, cursor)|
    requires Uncounted(s.scans[job])
    ensures
      var t := FinishScan(EndedAt(s, job, database, cursor, force, world, state, m, now), job, state, error, now);
      job < |t.scans| && EndedRow(t.scans[job], s, job, cursor, force, world, state, error, m, now)
  {
    hide Progress, ContainerKeys, Todo, Failing, Skipping;
    var todo := Todo(world.catalog, cursor);
    ProgressRow(s, job, todo, world, force, m);
    ProgressCounts(s, job, todo, world, force, m);
    NoneCounted(s, job, todo, world, force);
    var reached := Progress(s, job, todo, world, force, m).0;
    RemoveAllEffect(reached, job, Gone(reached, database, KeysOf(todo)), now);
  }

  // ---- what the next start makes of a run ----

  /** The tables once a run over s has ended: its row created, its containers scanned, its state written. */
  function AfterRun(s: Store, database: Option<string>, begun: Time, cursor: Option<string>, force: bool, world: World,
                    state: ScanState, error: Option<string>, m: nat, now: Time): Store
    requires m <= |Todo(world.catalog, cursor)|
  {
    var job := |s.scans|;
    FinishScan(EndedAt(CreateScan(s, database, begun), job, database, cursor, force, world, state, m, now), job, state, error, now)
  }

  /** One row more than before, this one. */
  ghost predicate OneRowMore(s: Store, t: Store, row: ScanRow) {
    && |t.scans| == |s.scans| + 1 && t.scans[|s.scans|] == row
    && forall j :: 0 <= j < |s.scans| ==> t.scans[j] == s.scans[j]
  }

  lemma RowAfterRun(s: Store, database: Option<string>, begun: Time, cursor: Option<string>, force: bool, world: World,
                    state: ScanState, error: Option<string>, m: nat, now: Time) returns (row: ScanRow)
    requires m <= |Todo(world.catalog, cursor)|
    ensures OneRowMore(s, AfterRun(s, database, begun, cursor, force, world, state, error, m, now), row)
    ensures row.database == database && row.state == state && row.startedAt == begun
    ensures row.cursor == CursorAfter(world, cursor, m)
    ensures EndedRow(row, CreateScan(s, database, begun), |s.scans|, cursor, force, world, state, error, m, now)
  {
    hide Progress, ContainerKeys, Todo, EndedAt, Counted;
    var created, job := CreateScan(s, database, begun), |s.scans|;
    EndedRows(created, job, database, cursor, force, world, state, m, now);
    EndedRowTells(created, job, database, cursor, force, world, state, error, m, now);
    row := AfterRun(s, database, begun, cursor, force, world, state, error, m, now).scans[job];
  }

  /** A cursor that starts nothing over again. */
  function Effective(cursor: Option<string>): Option<string> {
    if cursor == Some("") then None else cursor
  }

  /** No unfinished run of this database started later than `begun`. */
  ghost predicate IsNewest(s: Store, database: Option<string>, begun: Time) {
    forall j :: 0 <= j < |s.scans| && Unfinished(s.scans[j], database) ==> s.scans[j].startedAt <= begun
  }

  /** Which rows the next start may resume once one row more is there. */
  lemma ResumableAfter(s: Store, t: Store, database: Option<string>, row: ScanRow, j: JobId)
    requires OneRowMore(s, t, row) && row.database == database
    ensures Resumable(t, database, j) <==>
      if Unfinished(row, database) then
        || (j == |s.scans| && IsNewest(s, database, row.startedAt))
        || (Resumable(s, database, j) && row.startedAt <= s.scans[j].startedAt)
      else Resumable(s, database, j)
  {
    if Resumable(t, database, j) {
      assert forall i :: 0 <= i < |s.scans| && Unfinished(s.scans[i], database) ==> t.scans[i].startedAt <= t.scans[j].startedAt;
      assert Unfinished(t.scans[|s.scans|], database) ==> row.startedAt <= t.scans[j].startedAt;
    }
  }

  /** Where a resuming start may begin, in terms of the rows it may resume. */
  lemma StartsFromResumable(s: Store, database: Option<string>, c: Option<string>)
    ensures StartsFrom(s, database, true, c) <==>
      || (exists j: nat :: Resumable(s, database, j) && Effective(s.scans[j].cursor) == c)
      || (c.None? && forall j :: 0 <= j < |s.scans| ==> !Unfinished(s.scans[j], database))
  {
  }

  /**
   Done and cancelled runs leave no trace for the next start: it begins where it would
   have begun before them.  So a cancelled run's progress is not continued, and a done
   run does not make the next one full.
   */
  lemma SettledRunsLeaveNextStart(s: Store, database: Option<string>, begun: Time, cursor: Option<string>, force: bool, world: World,
                                  state: ScanState, error: Option<string>, m: nat, now: Time, c: Option<string>)
    requires m <= |Todo(world.catalog, cursor)| && (state == Done || state == Cancelled)
    ensures StartsFrom(AfterRun(s, database, begun, cursor, force, world, state, error, m, now), database, true, c)
       <==> StartsFrom(s, database, true, c)
  {
    hide AfterRun, Todo, StartsFrom, EndedRow;
    var t := AfterRun(s, database, begun, cursor, force, world, state, error, m, now);
    var row := RowAfterRun(s, database, begun, cursor, force, world, state, error, m, now);
    forall j: nat ensures Resumable(t, database, j) <==> Resumable(s, database, j) {
      ResumableAfter(s, t, database, row, j);
    }
    StartsFromResumable(s, database, c);
    StartsFromResumable(t, database, c);
  }

  /** One more unfinished row: it is continued if it is the newest, and an older one if it started no earlier. */
  lemma UnfinishedRowContinues(s: Store, t: Store, database: Option<string>, row: ScanRow, c: Option<string>)
    requires OneRowMore(s, t, row) && row.database == database && Unfinished(row, database)
    ensures StartsFrom(t, database, true, c) <==>
      || (IsNewest(s, database, row.startedAt) && c == Effective(row.cursor))
      || exists j: nat :: Resumable(s, database, j) && row.startedAt <= s.scans[j].startedAt && Effective(s.scans[j].cursor) == c
  {
    hide StartsFrom;
    forall j: nat ensures Resumable(t, database, j) <==>
      || (j == |s.scans| && IsNewest(s, database, row.startedAt))
      || (Resumable(s, database, j) && row.startedAt <= s.scans[j].startedAt)
    {
      ResumableAfter(s, t, database, row, j);
    }
    assert Unfinished(t.scans[|s.scans|], database);
    StartsFromResumable(t, database, c);
  }

  /**
   A failed run is the one continued, from its own cursor, if no unfinished run of the
   database started later; an older one is, from its cursor, if it started no earlier.
   */
  lemma FailedRunIsContinuedIffNewest(s: Store, database: Option<string>, begun: Time, cursor: Option<string>, force: bool, world: World,
                                      error: Option<string>, m: nat, now: Time, c: Option<string>)
    requires m <= |Todo(world.catalog, cursor)|
    ensures StartsFrom(AfterRun(s, database, begun, cursor, force, world, Failed, error, m, now), database, true, c) <==>
      || (IsNewest(s, database, begun) && c == Effective(CursorAfter(world, cursor, m)))
      || exists j: nat :: Resumable(s, database, j) && begun <= s.scans[j].startedAt && Effective(s.scans[j].cursor) == c
  {
    hide AfterRun, Todo, CursorAfter, StartsFrom, EndedRow;
    var row := RowAfterRun(s, database, begun, cursor, force, world, Failed, error, m, now);
    UnfinishedRowContinues(s, AfterRun(s, database, begun, cursor, force, world, Failed, error, m, now), database, row, c);
  }

  /** And so is one the process died under, whose row still says running. */
  lemma CrashedRunIsContinuedIffNewest(s: Store, database: Option<string>, begun: Time, cursor: Option<string>, force: bool, world: World,
                                       m: nat, c: Option<string>)
    requires m <= |Todo(world.catalog, cursor)|
    ensures
      var t := Progress(CreateScan(s, database, begun), |s.scans|, Todo(world.catalog, cursor), world, force, m).0;
      StartsFrom(t, database, true, c) <==>
        || (IsNewest(s, database, begun) && c == Effective(CursorAfter(world, cursor, m)))
        || exists j: nat :: Resumable(s, database, j) && begun <= s.scans[j].startedAt && Effective(s.scans[j].cursor) == c
  {
    hide Progress, StartsFrom, Todo;
    var created, job, todo := CreateScan(s, database, begun), |s.scans|, Todo(world.catalog, cursor);
    var t := Progress(created, job, todo, world, force, m).0;
    ProgressRow(created, job, todo, world, force, m);
    UnfinishedRowContinues(s, t, database, t.scans[job], c);
  }

  /** The next start is full, whichever of equally late rows it is given. */
  ghost predicate NextStartIsFull(s: Store, database: Option<string>) {
    forall c :: StartsFrom(s, database, true, c) ==> c.None?
  }

  /** It is full exactly when no row it may resume came anywhere. */
  lemma NextStartIsFullIff(s: Store, database: Option<string>)
    ensures NextStartIsFull(s, database) <==> forall j: nat :: Resumable(s, database, j) ==> Effective(s.scans[j].cursor).None?
  {
    if NextStartIsFull(s, database) {
      forall j: nat | Resumable(s, database, j) ensures Effective(s.scans[j].cursor).None? {
        StartsFromResumable(s, database, Effective(s.scans[j].cursor));
      }
    }
    forall c ensures StartsFrom(s, database, true, c) <==>
      || (exists j: nat :: Resumable(s, database, j) && Effective(s.scans[j].cursor) == c)
      || (c.None? && forall j :: 0 <= j < |s.scans| ==> !Unfinished(s.scans[j], database))
    {
      StartsFromResumable(s, database, c);
    }
  }

  /** After a done or a cancelled run the next start is full if and only if it would have been before. */
  lemma FullAfterSettledRunIff(s: Store, database: Option<string>, begun: Time, cursor: Option<string>, force: bool, world: World,
                               state: ScanState, error: Option<string>, m: nat, now: Time)
    requires m <= |Todo(world.catalog, cursor)| && (state == Done || state == Cancelled)
    ensures NextStartIsFull(AfterRun(s, database, begun, cursor, force, world, state, error, m, now), database)
       <==> NextStartIsFull(s, database)
  {
    hide AfterRun, StartsFrom, Todo;
    forall c ensures StartsFrom(AfterRun(s, database, begun, cursor, force, world, state, error, m, now), database, true, c)
                <==> StartsFrom(s, database, true, c)
    {
      SettledRunsLeaveNextStart(s, database, begun, cursor, force, world, state, error, m, now, c);
    }
  }

  /**
   A run that scans m and fails to read its second page, then a full run over what is
   by now an empty catalog, which ends done: the next start takes the old cursor.
   */
  lemma OldCursorAfterDoneRun()
    ensures
      var info := ContainerInfo("d", None, "m", Table, None, None, None);
      var first := World([info, info.(containerName := "n")], None, i => if i == 1 then Some("lost") else None,
                         _ => Unreadable("no"), _ => false, _ => 0);
      var second := World([], None, _ => None, _ => Unreadable("no"), _ => false, _ => 0);
      var s := AfterRun(EMPTY, None, 1, None, false, first, Failed, Some("lost"), 1, 2);
      var t := AfterRun(s, None, 3, None, false, second, Done, None, 0, 4);
      && MayEnd(first, None, 1, Failed, Some("lost"), 2, 1) && StartsFrom(s, None, false, None)
      && MayEnd(second, None, 1, Done, None, 1, 0)
      && forall c :: StartsFrom(t, None, true, c) <==> c == Some("m")
  {
    var info := ContainerInfo("d", None, "m", Table, None, None, None);
    var first := World([info, info.(containerName := "n")], None, i => if i == 1 then Some("lost") else None,
                       _ => Unreadable("no"), _ => false, _ => 0);
    var second := World([], None, _ => None, _ => Unreadable("no"), _ => false, _ => 0);
    hide AfterRun;
    var s := AfterRun(EMPTY, None, 1, None, false, first, Failed, Some("lost"), 1, 2);
    forall c ensures StartsFrom(AfterRun(s, None, 3, None, false, second, Done, None, 0, 4), None, true, c) <==> c == Some("m") {
      FailedRunIsContinuedIffNewest(EMPTY, None, 1, None, false, first, Some("lost"), 1, 2, c);
      SettledRunsLeaveNextStart(s, None, 3, None, false, second, Done, None, 0, 4, c);
    }
  }
}
