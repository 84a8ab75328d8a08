/**
 The inventory service: starting, cancelling and running scans over the staging store.

 `Run` pages through the catalog; its contract does not mention pages.
 */
module Inventory {
  import opened Wrappers
  import opened Ordering
  import opened Keyset
  import opened Contracts
  import T = Tables
  import S = Scan
  import R = Runs
  import L = ScanLog
  import W = CatalogWalk
  import opened Staging

  datatype ScanError = ScanAlreadyRunning

  datatype Started = Started(job: T.JobId, cursor: Option<string>)

  /** Why a run ended, how many pages it had asked for, and how many containers it had completed. */
  datatype Ending = Ending(state: T.ScanState, error: Option<string>, requests: nat, completed: nat)

  class InventoryService {
    const store: StagingStore
    const pageSize: int
    /** The cancel events, by job; true once set. */
    var cancels: map<T.JobId, bool>
    var runningDatabases: set<Option<string>>

    constructor (store: StagingStore, pageSize: Option<int>)
      ensures this.store == store
      ensures this.pageSize == if pageSize.Some? && pageSize.value != 0 then pageSize.value else 100
      ensures cancels == map[] && runningDatabases == {}
    {
      this.store := store;
      this.pageSize := if pageSize.None? || pageSize.value == 0 then 100 else pageSize.value;
      cancels := map[];
      runningDatabases := {};
    }

    /** How many containers the adapter puts on a page: the size asked for, capped. */
    function PageRows(): (rows: nat)
      ensures rows >= 1
    {
      W.CapPageSize(Some(pageSize))
    }

    // ---- control ----

    method Start(database: Option<string>, resume: bool, now: T.Time) returns (started: Result<Started, ScanError>)
      modifies this, store
      ensures started.Err? <==> database in old(runningDatabases)
      ensures started.Err? ==> store.View() == old(store.View()) && cancels == old(cancels) && runningDatabases == old(runningDatabases)
      ensures started.Ok? ==>
        var job, cursor := started.value.job, started.value.cursor;
        && job == |old(store.View()).scans|
        && store.View() == T.CreateScan(old(store.View()), database, now)
        && cancels == old(cancels)[job := false] && runningDatabases == old(runningDatabases) + {database}
        && R.StartsFrom(old(store.View()), database, resume, cursor)
    {
      if database in runningDatabases {
        return Err(ScanAlreadyRunning);
      }
      var cursor := None;
      if resume {
        var previous := store.ResumableScan(database);
        if previous.Some? {
          assert T.Resumable(store.View(), database, previous.value);
          if store.scans[previous.value].cursor.Some? && store.scans[previous.value].cursor.value != "" {
            cursor := store.scans[previous.value].cursor;
          }
        }
      }
      var job := store.CreateScan(database, now);
      cancels := cancels[job := false];
      runningDatabases := runningDatabases + {database};
      started := Ok(Started(job, cursor));
    }

    method Cancel(job: T.JobId) returns (known: bool)
      modifies this
      ensures known == (job in old(cancels))
      ensures cancels == if known then old(cancels)[job := true] else old(cancels)
      ensures runningDatabases == old(runningDatabases)
    {
      if job !in cancels {
        return false;
      }
      cancels := cancels[job := true];
      known := true;
    }

    // ---- the scan ----

    method Run(job: T.JobId, database: Option<string>, cursor: Option<string>, force: bool, world: R.World, now: T.Time)
      returns (ending: Ending)
      requires this as object != store && R.IsCatalog(world.catalog)
      modifies this, store
      ensures runningDatabases == old(runningDatabases) - {database} && cancels == old(cancels) - {job}
      ensures R.MayEnd(world, cursor, PageRows(), ending.state, ending.error, ending.requests, ending.completed)
      ensures store.View() == T.FinishScan(
        R.EndedAt(old(store.View()), job, database, cursor, force, world, ending.state, ending.completed, now),
        job, ending.state, ending.error, now)
      ensures job < |old(store.View()).scans| && R.Uncounted(old(store.View()).scans[job]) ==>
        job < |store.View().scans|
        && R.EndedRow(store.View().scans[job], old(store.View()), job, cursor, force, world, ending.state, ending.error, ending.completed, now)
    {
      hide *;
      ghost var start, todo := store.View(), R.Todo(world.catalog, cursor);
      if world.connectError.Some? {
        ending := Ending(T.Failed, world.connectError, 0, 0);
        CannotConnect(start, job, force, world, cursor, PageRows());
      } else {
        var seen;
        ending, seen := ScanPages(job, cursor, force, world);
        if ending.state.Done? {
          assert todo[..|todo|] == todo;
          MayEndBounds(world, cursor, PageRows(), ending.state, ending.error, ending.requests, ending.completed);
          RecordRemovals(job, database, seen, cursor.None?, now);
        }
      }
      MayEndBounds(world, cursor, PageRows(), ending.state, ending.error, ending.requests, ending.completed);
      Ends(start, job, database, cursor, force, world, ending.state, ending.completed, now);
      if job < |start.scans| && R.Uncounted(start.scans[job]) {
        R.EndedRowTells(start, job, database, cursor, force, world, ending.state, ending.error, ending.completed, now);
      }
      store.FinishScan(job, ending.state, ending.error, now);
      runningDatabases := runningDatabases - {database};
      cancels := cancels - {job};
    }

    /** The loop over pages: how far it came, and why it stopped there. */
    method ScanPages(job: T.JobId, cursor: Option<string>, force: bool, world: R.World) returns (ending: Ending, seen: set<T.Key>)
      requires this as object != store && R.IsCatalog(world.catalog) && world.connectError.None?
      modifies store
      ensures R.MayEnd(world, cursor, PageRows(), ending.state, ending.error, ending.requests, ending.completed)
      ensures
        var todo := R.Todo(world.catalog, cursor);
        && store.View() == R.Progress(old(store.View()), job, todo, world, force, ending.completed).0
        && seen == R.KeysOf(todo[..ending.completed])
    {
      hide *;
      var limit := PageRows();
      ghost var start, todo := store.View(), R.Todo(world.catalog, cursor);
      var at, tally, m: nat := cursor, R.Tally(0, 0, 0), 0;
      var requests: nat, stopped := 0, false;
      seen := {};
      Begins(start, job, world, cursor, force, limit);
      while true
        invariant R.BetweenPages(world.catalog, todo, at, limit, requests, m) && R.Quiet(world, requests)
        invariant R.Reached(start, job, todo, world, force, m, store.View(), tally, seen)
        decreases |todo| - m
      {
        ghost var from := m;
        ghost var n := PageIsNext(world.catalog, at, limit, todo, requests, m);
        WhatReachedMeans(start, job, todo, world, force, m, store.View(), tally, seen);
        var error := world.listError(requests);
        requests := requests + 1;
        if error.Some? {
          ending := Ending(T.Failed, error, requests, m);
          FailedWhileListing(world, cursor, at, limit, requests, m);
          break;
        }
        OneMoreQuiet(world, requests - 1);
        var page := ReadPage(R.InfoName, Before, world.catalog, at, limit);
        m, tally, seen, stopped := ScanPage(job, page.rows, force, world, m, tally, seen, start, todo, n);
        WhatReachedMeans(start, job, todo, world, force, m, store.View(), tally, seen);
        if stopped || page.next.None? {
          ending := Ending(if stopped then T.Cancelled else T.Done, None, requests, m);
          StoppedOrDone(world, cursor, at, limit, ending.state, requests, from, n, m);
          break;
        }
        at := page.next;
      }
    }

    /** One page: check for cancellation, scan, count, and persist how far the run came, container by container. */
    method ScanPage(job: T.JobId, page: seq<ContainerInfo>, force: bool, world: R.World, m: nat, before: R.Tally, seenBefore: set<T.Key>,
                    ghost start: T.Store, ghost todo: seq<ContainerInfo>, ghost end: nat)
      returns (n: nat, tally: R.Tally, seen: set<T.Key>, stopped: bool)
      requires m <= end <= |todo| && page == todo[m..end]
      requires R.Reached(start, job, todo, world, force, m, store.View(), before, seenBefore)
      modifies store
      ensures R.Reached(start, job, todo, world, force, n, store.View(), tally, seen)
      ensures if stopped then m <= n < end && world.cancelled(n) else n == end
    {
      hide R.Reached;
      n, tally, seen, stopped := m, before, seenBefore, false;
      for i := 0 to |page|
        invariant n == m + i <= |todo|
        invariant R.Reached(start, job, todo, world, force, n, store.View(), tally, seen)
      {
        if world.cancelled(n) {
          stopped := true;
          return;
        }
        assert page[i] == todo[n];
        tally, seen := ScanNext(job, page[i], force, world, n, tally, seen, start, todo);
        n := n + 1;
      }
    }

    method ScanNext(job: T.JobId, info: ContainerInfo, force: bool, world: R.World, n: nat, before: R.Tally, seenBefore: set<T.Key>,
                    ghost start: T.Store, ghost todo: seq<ContainerInfo>)
      returns (tally: R.Tally, seen: set<T.Key>)
      requires n < |todo| && info == todo[n] && !world.cancelled(n)
      requires R.Reached(start, job, todo, world, force, n, store.View(), before, seenBefore)
      modifies store
      ensures R.Reached(start, job, todo, world, force, n + 1, store.View(), tally, seen)
    {
      hide S.ScanContainer, S.OutcomeOf, T.AdvanceScan, R.KeysOf, T.KeyOf;
      KeysOneMore(todo, n);
      seen := seenBefore + {T.KeyOf(info)};
      var outcome := ScanContainer(job, info, world.read(info), force, world.clock(n));
      tally := R.Count(before, outcome);
      store.AdvanceScan(job, info.containerName, tally.done, tally.failed, tally.skipped);
    }

    /** The writes of one container, in their order, make up one `Scan.ScanContainer`. */
    method ScanContainer(job: T.JobId, info: ContainerInfo, reading: S.Reading, force: bool, now: T.Time) returns (outcome: S.Outcome)
      modifies store
      ensures store.View() == S.ScanContainer(old(store.View()), job, info, reading, force, now)
      ensures outcome == S.OutcomeOf(old(store.View()), info, reading, force)
      ensures L.Recorded(old(store.View()), store.View(), info, reading, force, now)
      ensures S.OutcomeTells(old(store.View()), info, reading, force, outcome)
    {
      hide L.Recorded, S.OutcomeTells, S.MoveTold, S.RecordMove, T.RecordSensitivity, T.ReplaceColumns, T.UpsertContainer, T.RecordProfile;
      L.ScanRecords(store.View(), job, info, reading, force, now);
      S.OutcomeOfTells(store.View(), info, reading, force);
      match reading
      case Unreadable(error) =>
        store.UpsertContainer(info, T.NoHash, Some(error), now);
        outcome := S.Unread;
      case Readable(columns, levels, profiles) =>
        var k := T.KeyOf(info);
        var current := S.CurrentHash(info, columns);
        var stored := T.StoredHash(store.View(), k);
        if stored == Some(current) && !force {
          return S.Skipped;
        }
        // `RecordMove` compares with the columns that `ReplaceColumns` overwrites below.
        RecordMove(job, k, stored, current, columns, now);
        store.UpsertContainer(info, current, None, now);
        store.ReplaceColumns(k, columns, now);
        if levels != map[] {
          var _ := store.RecordSensitivity(k, levels, T.Detected);
        }
        ghost var judged := store.View();
        for i := 0 to |profiles|
          invariant store.View() == S.RecordProfiles(judged, k, profiles[..i])
        {
          assert profiles[..i + 1][..i] == profiles[..i];
          store.RecordProfile(k, profiles[i].column, profiles[i].mode, profiles[i].result);
        }
        assert profiles[..|profiles|] == profiles;
        outcome := S.Scanned;
    }

    /** At most one record, made from the hash and the columns stored before this scan. */
    method RecordMove(job: T.JobId, k: T.Key, stored: Option<T.Hash>, current: T.Hash, columns: seq<ColumnInfo>, now: T.Time)
      modifies store
      ensures store.View() == S.RecordMove(old(store.View()), job, k, stored, current, columns, now)
      ensures S.MoveTold(old(store.View()), store.View(), job, k, stored, current, columns, now)
    {
      hide S.MoveTold;
      S.MoveIsTold(store.View(), job, k, stored, current, columns, now);
      if stored == Some(current) {
        return;
      }
      if stored.None? {
        store.RecordChange(T.Change(job, k, T.ContainerAdded, None, Some(current), None, now));
        return;
      }
      var previous := S.PreviousShape(T.Columns(store.View(), k));
      store.RecordChange(T.Change(job, k, T.SchemaChanged, stored, Some(current), S.DetailOf(previous, T.Shape(columns)), now));
    }

    /** Record and drop the containers this run never saw, only when it covered the whole catalog. */
    method RecordRemovals(job: T.JobId, database: Option<string>, seen: set<T.Key>, covered: bool, now: T.Time)
      modifies store
      ensures store.View() == R.RecordRemovals(old(store.View()), job, database, seen, covered, now)
    {
      if !covered {
        return;
      }
      var keys := store.ContainerKeys(database);
      T.KeysOrdered();
      var gone := SortSet(T.TupleBefore, keys - seen);
      ghost var before := store.View();
      for i := 0 to |gone|
        invariant store.View() == R.RemoveAll(before, job, gone[..i], now)
      {
        assert gone[..i + 1][..i] == gone[..i];
        store.RecordChange(T.Change(job, gone[i], T.ContainerRemoved, None, None, None, now));
        store.ForgetContainer(gone[i]);
      }
      assert gone[..|gone|] == gone;
    }
  }

  lemma Begins(s: T.Store, job: T.JobId, world: R.World, cursor: Option<string>, force: bool, limit: nat)
    requires limit >= 1
    ensures
      var todo := R.Todo(world.catalog, cursor);
      && R.Reached(s, job, todo, world, force, 0, s, R.Tally(0, 0, 0), {})
      && R.BetweenPages(world.catalog, todo, cursor, limit, 0, 0) && R.Quiet(world, 0)
  {
    assert R.Todo(world.catalog, cursor)[0..] == R.Todo(world.catalog, cursor);
  }

  lemma KeysOneMore(todo: seq<ContainerInfo>, n: nat)
    requires n < |todo|
    ensures R.KeysOf(todo[..n + 1]) == R.KeysOf(todo[..n]) + {T.KeyOf(todo[n])}
  {
    assert todo[..n + 1] == todo[..n] + [todo[n]];
  }

  lemma WhatReachedMeans(s: T.Store, job: T.JobId, todo: seq<ContainerInfo>, world: R.World, force: bool, m: nat,
                         now: T.Store, tally: R.Tally, seen: set<T.Key>)
    requires R.Reached(s, job, todo, world, force, m, now, tally, seen)
    ensures m <= |todo| && now == R.Progress(s, job, todo, world, force, m).0
    ensures seen == R.KeysOf(todo[..m]) && forall i :: 0 <= i < m ==> !world.cancelled(i)
  {
  }

  /** A page shows the next stretch of what is left to do, and its cursor leaves the rest. */
  lemma PageIsNext(catalog: seq<ContainerInfo>, at: Option<string>, limit: nat, todo: seq<ContainerInfo>, requests: nat, m: nat)
    returns (n: nat)
    requires limit >= 1 && R.IsCatalog(catalog) && R.BetweenPages(catalog, todo, at, limit, requests, m)
    ensures
      var page := ReadPage(R.InfoName, Before, catalog, at, limit);
      && m <= n <= |todo| && n <= m + limit && page.rows == todo[m..n]
      && (page.next.None? ==> n == |todo|)
      && (page.next.Some? ==> m < n && R.BetweenPages(catalog, todo, page.next, limit, requests + 1, n))
  {
    hide *;
    WhatBetweenMeans(catalog, todo, at, limit, requests, m);
    R.PageOfTodo(catalog, at, limit);
    var page := ReadPage(R.InfoName, Before, catalog, at, limit);
    n := m + |page.rows|;
    Slices(todo, m, |page.rows|);
    if page.next.Some? {
      assert |page.rows| == limit < |R.Todo(catalog, at)|;
      OnePageMore(requests, limit);
      NowBetween(catalog, todo, page.next, limit, requests + 1, n);
    }
  }

  lemma OnePageMore(requests: nat, limit: nat)
    ensures (requests + 1) * limit == requests * limit + limit
  {
  }

  lemma Slices<A>(s: seq<A>, m: nat, n: nat)
    requires m + n <= |s|
    ensures s[m..][..n] == s[m..m + n] && s[m..][n..] == s[m + n..]
  {
  }

  lemma WhatBetweenMeans(catalog: seq<ContainerInfo>, todo: seq<ContainerInfo>, at: Option<string>, limit: nat, requests: nat, m: nat)
    requires limit >= 1 && R.BetweenPages(catalog, todo, at, limit, requests, m)
    ensures m <= |todo| && R.Todo(catalog, at) == todo[m..] && m == requests * limit && (requests > 0 ==> m < |todo|)
  {
  }

  lemma NowBetween(catalog: seq<ContainerInfo>, todo: seq<ContainerInfo>, at: Option<string>, limit: nat, requests: nat, m: nat)
    requires limit >= 1 && m <= |todo| && R.Todo(catalog, at) == todo[m..] && m == requests * limit && (requests > 0 ==> m < |todo|)
    ensures R.BetweenPages(catalog, todo, at, limit, requests, m)
  {
  }

  lemma OneMoreQuiet(world: R.World, n: nat)
    requires R.Quiet(world, n) && world.listError(n).None?
    ensures R.Quiet(world, n + 1)
  {
  }

  /** What `EndedAt` says, for the two ways out of the loop. */
  lemma Ends(s: T.Store, job: T.JobId, database: Option<string>, cursor: Option<string>, force: bool, world: R.World,
             state: T.ScanState, m: nat, now: T.Time)
    requires m <= |R.Todo(world.catalog, cursor)|
    ensures
      var todo := R.Todo(world.catalog, cursor);
      R.EndedAt(s, job, database, cursor, force, world, state, m, now)
      == if state == T.Done
         then R.RecordRemovals(R.Progress(s, job, todo, world, force, m).0, job, database, R.KeysOf(todo), cursor.None?, now)
         else R.Progress(s, job, todo, world, force, m).0
  {
  }

  lemma MayEndBounds(world: R.World, cursor: Option<string>, limit: nat, state: T.ScanState, error: Option<string>, requests: nat, m: nat)
    requires limit >= 1 && R.MayEnd(world, cursor, limit, state, error, requests, m)
    ensures m <= |R.Todo(world.catalog, cursor)| && (state == T.Done ==> m == |R.Todo(world.catalog, cursor)|)
  {
  }

  lemma CannotConnect(s: T.Store, job: T.JobId, force: bool, world: R.World, cursor: Option<string>, limit: nat)
    requires limit >= 1 && world.connectError.Some?
    ensures R.MayEnd(world, cursor, limit, T.Failed, world.connectError, 0, 0)
    ensures R.Progress(s, job, R.Todo(world.catalog, cursor), world, force, 0).0 == s
  {
  }

  lemma FailedWhileListing(world: R.World, cursor: Option<string>, at: Option<string>, limit: nat, requests: nat, m: nat)
    requires limit >= 1 && requests >= 1 && world.connectError.None?
    requires R.BetweenPages(world.catalog, R.Todo(world.catalog, cursor), at, limit, requests - 1, m)
    requires R.Quiet(world, requests - 1) && world.listError(requests - 1).Some?
    requires forall i :: 0 <= i < m ==> !world.cancelled(i)
    ensures R.MayEnd(world, cursor, limit, T.Failed, world.listError(requests - 1), requests, m)
  {
  }

  lemma StoppedOrDone(world: R.World, cursor: Option<string>, at: Option<string>, limit: nat, state: T.ScanState, requests: nat,
                      from: nat, end: nat, m: nat)
    requires limit >= 1 && requests >= 1 && world.connectError.None? && R.Quiet(world, requests)
    requires R.BetweenPages(world.catalog, R.Todo(world.catalog, cursor), at, limit, requests - 1, from)
    requires from <= m <= end <= |R.Todo(world.catalog, cursor)| && end <= from + limit
    requires forall i :: 0 <= i < m ==> !world.cancelled(i)
    requires (state == T.Cancelled && m < end && world.cancelled(m))
          || (state == T.Done && m == |R.Todo(world.catalog, cursor)|)
    ensures R.MayEnd(world, cursor, limit, state, None, requests, m)
  {
    OnePageMore(requests - 1, limit);
  }
}
