/**
 A worker left to itself, step by step, against a run taken as a whole.

 The step machine lets everything interleave; the service object is proved against
 `Runs.EndedAt`.  Here the two meet: the steps of one worker, from its start to its
 leaving with nothing but cancel requests in between, leave the tables of `AfterRun`.
 */
module Solo {
  import opened Wrappers
  import opened Ordering
  import opened Keyset
  import opened Contracts
  import opened Tables
  import opened Scan
  import opened Runs
  import opened ScanService

  /**
   A step of this worker, taken in this world: what it reads, its clock, what its requests
   raise and whether it finds its cancel event set; or a cancel request.
   */
  predicate Follows(c: Config, sys: System, step: Step, job: JobId, world: World, now: Time)
    requires job in sys.workers && job < |sys.trails| && c.pageSize >= 1
  {
    var w := sys.workers[job];
    match step
    case Turn(j, move) => j == job && job in sys.cancels && InWorld(c, w, sys.trails[job].completed, sys.cancels[job], move, world)
    case ScanOne(j, reading, at) =>
      j == job && w.pc.Scanning? && reading == world.read(w.pc.info) && at == world.clock(|sys.trails[job].visited|)
    case Advance(j) => j == job
    case Drop(j, at) => j == job && at == now
    case Finish(j, at) => j == job && at == now
    case Cancel(_) => true
    case _ => false
  }

  /** The same of one move. A worker about to ask for a page has had full ones only, so it has asked m / pageSize times. */
  predicate InWorld(c: Config, w: Worker, m: nat, cancelled: bool, move: Move, world: World)
    requires c.pageSize >= 1
  {
    match move
    case Connect => world.connectError.None?
    case List => world.listError(m / c.pageSize).None?
    case Check => w.pc.Checking? && w.pc.page != [] ==> cancelled == world.cancelled(m)
    case Raise(error) =>
      || (w.pc.Connecting? && world.connectError == Some(error))
      || (w.pc.Listing? && world.listError(m / c.pageSize) == Some(error))
    case _ => true
  }

  /** What a run over these tables has left to forget, once it has seen everything. */
  function Forgotten(s: Store, job: JobId, w: Worker, world: World): seq<Key> {
    var todo := Todo(world.catalog, w.start);
    Gone(Progress(s, job, todo, world, w.force, |todo|).0, w.database, KeysOf(todo))
  }

  /** The tables and the counts are those of the run over s as far as this worker has come. */
  ghost predicate OnCourse(sys: System, job: JobId, s: Store, world: World, now: Time) {
    && job in sys.workers && job < |sys.trails| && job < |sys.store.scans|
    && AtPc(sys.store, sys.workers[job], sys.trails[job].completed, job, s, world, now)
  }

  ghost predicate AtPc(t: Store, w: Worker, m: nat, job: JobId, s: Store, world: World, now: Time)
    requires job < |t.scans|
  {
    var todo := Todo(world.catalog, w.start);
    && m <= |todo|
    && match w.pc
       case Advancing(info, _, _) => m < |todo| && info == todo[m] && Scanned(t, w, m, job, s, world)
       case Dropping(keys) => m == |todo| && w.start.None? && Dropped(t, w, keys, job, s, world, now)
       case Finishing(state, _) =>
         (state == Done ==> m == |todo|) && t == EndedAt(s, job, w.database, w.start, w.force, world, state, m, now)
       case Leaving =>
         var row := t.scans[job];
         t == FinishScan(EndedAt(s, job, w.database, w.start, w.force, world, row.state, m, now), job, row.state, row.error, now)
       case _ => (t, w.tally) == Progress(s, job, todo, world, w.force, m)
  }

  /** The m-th container is written and counted, and not yet persisted. */
  ghost predicate Scanned(t: Store, w: Worker, m: nat, job: JobId, s: Store, world: World)
    requires m < |Todo(world.catalog, w.start)|
  {
    var todo := Todo(world.catalog, w.start);
    var (before, tally) := Progress(s, job, todo, world, w.force, m);
    && t == ScanContainer(before, job, todo[m], world.read(todo[m]), w.force, world.clock(m))
    && w.tally == Count(tally, OutcomeOf(before, todo[m], world.read(todo[m]), w.force))
  }

  /** All but these keys are forgotten. */
  ghost predicate Dropped(t: Store, w: Worker, keys: seq<Key>, job: JobId, s: Store, world: World, now: Time) {
    var todo, gone := Todo(world.catalog, w.start), Forgotten(s, job, w, world);
    && |keys| <= |gone| && keys == gone[|gone| - |keys|..]
    && t == RemoveAll(Progress(s, job, todo, world, w.force, |todo|).0, job, gone[..|gone| - |keys|], now)
  }

  // ---- the steps ----

  /** A run that stops before its end leaves what it came to. */
  lemma StopsHere(w: Worker, m: nat, job: JobId, s: Store, world: World, now: Time, state: ScanState)
    requires m <= |Todo(world.catalog, w.start)| && state != Done
    ensures EndedAt(s, job, w.database, w.start, w.force, world, state, m, now)
         == Progress(s, job, Todo(world.catalog, w.start), world, w.force, m).0
  {
    hide Todo, Progress;
  }

  /** Where a worker between two containers may go without touching the tables. */
  lemma MoveStays(c: Config, t: Store, w: Worker, trail: Trail, cancelled: bool, move: Move, job: JobId, s: Store, world: World, now: Time)
    requires GoodConfig(c) && CanMove(w, move) && OnTrack(c, w, trail, cancelled) && world.catalog == c.catalog(w.database)
    requires InWorld(c, w, trail.completed, cancelled, move, world)
    requires job < |t.scans| && AtPc(t, w, trail.completed, job, s, world, now)
    ensures AtPc(t, Moved(c, t, w, cancelled, move), trail.completed, job, s, world, now)
  {
    hide Todo, Progress, EndedAt, FinishScan, Scanned, Dropped, ReadPage, GoodConfig, OnTrack, Gone;
    match move
    case Connect =>
    case List =>
    case Check => StopsHere(w, trail.completed, job, s, world, now, Cancelled);
    case Raise(_) => StopsHere(w, trail.completed, job, s, world, now, Failed);
    case Plan =>
      WhatRemovingMeans(c, w, trail, cancelled);
      PlanDrops(t, w, job, s, world, now);
    case EndDrop => DropsEnd(t, w, job, s, world, now);
  }

  lemma WhatRemovingMeans(c: Config, w: Worker, trail: Trail, cancelled: bool)
    requires w.pc.Removing? && OnTrack(c, w, trail, cancelled)
    ensures
      var todo := Todo(c.catalog(w.database), w.start);
      trail.completed == |todo| && w.seen == KeysOf(todo)
  {
    var todo := Todo(c.catalog(w.database), w.start);
    assert todo[..|todo|] == todo;
  }

  lemma PlanDrops(t: Store, w: Worker, job: JobId, s: Store, world: World, now: Time)
    requires
      var todo := Todo(world.catalog, w.start);
      t == Progress(s, job, todo, world, w.force, |todo|).0 && w.seen == KeysOf(todo)
    ensures Dropped(t, w.(pc := Dropping(Gone(t, w.database, w.seen))), Gone(t, w.database, w.seen), job, s, world, now)
    ensures w.start.Some? ==> t == EndedAt(s, job, w.database, w.start, w.force, world, Done, |Todo(world.catalog, w.start)|, now)
  {
    hide Todo, Progress, Gone;
    var gone := Forgotten(s, job, w, world);
    assert gone[0..] == gone && gone[..0] == [];
  }

  lemma DropsEnd(t: Store, w: Worker, job: JobId, s: Store, world: World, now: Time)
    requires w.start.None? && Dropped(t, w, [], job, s, world, now)
    ensures t == EndedAt(s, job, w.database, w.start, w.force, world, Done, |Todo(world.catalog, w.start)|, now)
  {
    hide Todo, Progress, Gone, RemoveAll;
    var gone := Forgotten(s, job, w, world);
    assert gone[..|gone|] == gone;
  }

  lemma DropMore(t: Store, w: Worker, keys: seq<Key>, job: JobId, s: Store, world: World, now: Time)
    requires keys != [] && Dropped(t, w, keys, job, s, world, now)
    ensures Dropped(RemoveContainer(t, job, keys[0], now), w, keys[1..], job, s, world, now)
  {
    hide Todo, Progress, Gone, RemoveContainer, Forgotten;
    var gone := Forgotten(s, job, w, world);
    var n := |gone| - |keys|;
    assert gone[..n + 1][..n] == gone[..n];
    assert keys[1..] == gone[n + 1..] && keys[0] == gone[n];
  }

  lemma Persist(t: Store, w: Worker, m: nat, job: JobId, s: Store, world: World)
    requires m < |Todo(world.catalog, w.start)| && Scanned(t, w, m, job, s, world)
    ensures
      var todo := Todo(world.catalog, w.start);
      (AdvanceScan(t, job, todo[m].containerName, w.tally.done, w.tally.failed, w.tally.skipped), w.tally)
      == Progress(s, job, todo, world, w.force, m + 1)
  {
    hide Todo, ScanContainer, OutcomeOf, Count, AdvanceScan;
  }

  lemma TurnOnCourse(c: Config, sys: System, step: Step, job: JobId, s: Store, world: World, now: Time)
    requires GoodConfig(c) && Inv(c, sys) && Enabled(sys, step) && step.Turn? && c.pageSize >= 1
    requires OnCourse(sys, job, s, world, now) && world.catalog == c.catalog(sys.workers[job].database)
    requires Follows(c, sys, step, job, world, now)
    ensures OnCourse(Next(c, sys, step), job, s, world, now)
    ensures Next(c, sys, step).workers[job].database == sys.workers[job].database
  {
    hide AtPc, Inv, OnTrack, Moved, GoodConfig;
    HeldBy(c, sys, job);
    MovedKeepsJob(c, sys.store, sys.workers[job], sys.cancels[job], step.move);
    MoveStays(c, sys.store, sys.workers[job], sys.trails[job], sys.cancels[job], step.move, job, s, world, now);
  }

  lemma ScanOnCourse(c: Config, sys: System, step: Step, job: JobId, s: Store, world: World, now: Time)
    requires GoodConfig(c) && Inv(c, sys) && Enabled(sys, step) && step.ScanOne? && c.pageSize >= 1
    requires OnCourse(sys, job, s, world, now) && world.catalog == c.catalog(sys.workers[job].database)
    requires Follows(c, sys, step, job, world, now)
    ensures OnCourse(Next(c, sys, step), job, s, world, now)
  {
    hide Inv, OnTrack, GoodConfig, Todo, Progress, ScanContainer, OutcomeOf, EndedAt, RowTells, Sound;
    HeldBy(c, sys, job);
    var w := sys.workers[job];
    ScanKeys(sys.store, job, w.pc.info, step.reading, w.force, step.now);
    NextToScan(c, w, sys.trails[job], sys.cancels[job]);
  }

  lemma NextToScan(c: Config, w: Worker, trail: Trail, cancelled: bool)
    requires w.pc.Scanning? && OnTrack(c, w, trail, cancelled)
    ensures
      var todo, v := Todo(c.catalog(w.database), w.start), |trail.visited|;
      trail.completed == v < |todo| && w.pc.info == todo[v]
  {
    var todo, v := Todo(c.catalog(w.database), w.start), |trail.visited|;
    assert todo[v..][0] == w.pc.info;
  }

  lemma AdvanceOnCourse(c: Config, sys: System, step: Step, job: JobId, s: Store, world: World, now: Time)
    requires GoodConfig(c) && Inv(c, sys) && Enabled(sys, step) && step.Advance? && c.pageSize >= 1
    requires OnCourse(sys, job, s, world, now) && Follows(c, sys, step, job, world, now)
    ensures OnCourse(Next(c, sys, step), job, s, world, now)
  {
    hide Inv, OnTrack, GoodConfig, Todo, Progress, Scanned, EndedAt;
    var w, m := sys.workers[job], sys.trails[job].completed;
    Persist(sys.store, w, m, job, s, world);
  }

  lemma DropOnCourse(c: Config, sys: System, step: Step, job: JobId, s: Store, world: World, now: Time)
    requires Enabled(sys, step) && step.Drop? && c.pageSize >= 1
    requires OnCourse(sys, job, s, world, now) && Follows(c, sys, step, job, world, now)
    ensures OnCourse(Next(c, sys, step), job, s, world, now)
  {
    hide Todo, Progress, Dropped, EndedAt;
    var w := sys.workers[job];
    DropMore(sys.store, w, w.pc.keys, job, s, world, now);
    DroppedByJob(RemoveContainer(sys.store, job, w.pc.keys[0], now), w, w.(pc := Dropping(w.pc.keys[1..])), w.pc.keys[1..], job, s, world, now);
  }

  lemma DroppedByJob(t: Store, v: Worker, w: Worker, keys: seq<Key>, job: JobId, s: Store, world: World, now: Time)
    requires Dropped(t, v, keys, job, s, world, now)
    requires w.database == v.database && w.start == v.start && w.force == v.force
    ensures Dropped(t, w, keys, job, s, world, now)
  {
    hide Todo, Progress, Gone, RemoveAll;
  }

  lemma FinishOnCourse(c: Config, sys: System, step: Step, job: JobId, s: Store, world: World, now: Time)
    requires Enabled(sys, step) && step.Finish? && c.pageSize >= 1
    requires OnCourse(sys, job, s, world, now) && Follows(c, sys, step, job, world, now)
    ensures OnCourse(Next(c, sys, step), job, s, world, now)
  {
    hide Todo, Progress, Scanned, Dropped, EndedAt;
  }

  lemma CancelOnCourse(c: Config, sys: System, step: Step, job: JobId, s: Store, world: World, now: Time)
    requires Enabled(sys, step) && step.Cancel? && c.pageSize >= 1 && OnCourse(sys, job, s, world, now)
    ensures OnCourse(Next(c, sys, step), job, s, world, now)
  {
    hide AtPc;
  }

  // ---- how it may end ----

  /** Where in its pages a worker is, having asked for r of them and completed m containers. */
  ghost predicate PacedAt(c: Config, w: Worker, row: ScanRow, m: nat, world: World, r: nat)
    requires c.pageSize >= 1
  {
    match w.pc
    case Connecting => r == 0 && m == 0
    case Listing => AtPageEnd(w, m, world, c.pageSize, r)
    case Checking(page, next) => OnPage(w, m, m + |page|, next, world, c.pageSize, r)
    case Scanning(_, page, next) => OnPage(w, m, m + 1 + |page|, next, world, c.pageSize, r) && !world.cancelled(m)
    case Advancing(_, page, next) => OnPage(w, m, m + 1 + |page|, next, world, c.pageSize, r) && !world.cancelled(m)
    case Removing => MayEnd(world, w.start, c.pageSize, Done, None, r, m)
    case Dropping(_) => MayEnd(world, w.start, c.pageSize, Done, None, r, m)
    case Finishing(state, error) => MayEnd(world, w.start, c.pageSize, state, error, r, m)
    case Leaving => MayEnd(world, w.start, c.pageSize, row.state, row.error, r, m)
  }

  ghost predicate SoFar(world: World, m: nat, r: nat) {
    world.connectError.None? && Quiet(world, r) && forall i :: 0 <= i < m ==> !world.cancelled(i)
  }

  ghost predicate AtPageEnd(w: Worker, m: nat, world: World, limit: nat, r: nat) {
    SoFar(world, m, r) && m == r * limit && (r > 0 ==> m < |Todo(world.catalog, w.start)|)
  }

  ghost predicate OnPage(w: Worker, m: nat, end: nat, next: Option<string>, world: World, limit: nat, r: nat) {
    var size := |Todo(world.catalog, w.start)|;
    && SoFar(world, m, r) && r > 0 && (r - 1) * limit <= m <= end <= r * limit
    && (r > 1 ==> (r - 1) * limit < size)
    && if next.Some? then end == r * limit < size else end == size
  }

  ghost predicate Paced(c: Config, sys: System, job: JobId, world: World)
    requires c.pageSize >= 1
  {
    && job in sys.workers && job < |sys.trails| && job < |sys.store.scans|
    && exists r: nat :: PacedAt(c, sys.workers[job], sys.store.scans[job], sys.trails[job].completed, world, r)
  }

  lemma SameQuotient(r: nat, limit: nat, q: int, rest: nat)
    requires r * limit == q * limit + rest && rest < limit
    ensures q == r
  {
    if r > q { OneMoreAtLeast(r, q, limit); }
    if r < q { OneMoreAtLeast(q, r, limit); }
  }

  lemma OneMoreAtLeast(a: int, b: int, limit: nat)
    requires a > b
    ensures a * limit >= b * limit + limit
  {
    assert a * limit == (b + 1) * limit + (a - b - 1) * limit;
  }

  lemma Requests(r: nat, limit: nat)
    requires limit >= 1
    ensures (r * limit) / limit == r && (r + 1) * limit == r * limit + limit
  {
    SameQuotient(r, limit, (r * limit) / limit, (r * limit) % limit);
  }

  lemma ListPaced(c: Config, s: Store, w: Worker, row: ScanRow, trail: Trail, cancelled: bool, world: World, r: nat)
    requires GoodConfig(c) && w.pc.Listing? && OnTrack(c, w, trail, cancelled) && world.catalog == c.catalog(w.database)
    requires PacedAt(c, w, row, trail.completed, world, r) && InWorld(c, w, trail.completed, cancelled, List, world)
    ensures PacedAt(c, Moved(c, s, w, cancelled, List), row, trail.completed, world, r + 1)
  {
    hide ReadPage, Todo;
    Requests(r, c.pageSize);
    PageOfTodo(c.catalog(w.database), w.at, c.pageSize);
  }

  lemma CheckPaced(c: Config, s: Store, w: Worker, row: ScanRow, trail: Trail, cancelled: bool, world: World, r: nat)
    requires c.pageSize >= 1 && w.pc.Checking? && PacedAt(c, w, row, trail.completed, world, r)
    requires InWorld(c, w, trail.completed, cancelled, Check, world)
    ensures PacedAt(c, Moved(c, s, w, cancelled, Check), row, trail.completed, world, r)
  {
    hide Todo, ReadPage, Gone;
  }

  lemma RaisedPaced(c: Config, s: Store, w: Worker, row: ScanRow, trail: Trail, cancelled: bool, world: World, r: nat, error: string)
    requires c.pageSize >= 1 && CanMove(w, Raise(error)) && OnTrack(c, w, trail, cancelled) && world.catalog == c.catalog(w.database)
    requires PacedAt(c, w, row, trail.completed, world, r) && InWorld(c, w, trail.completed, cancelled, Raise(error), world)
    ensures PacedAt(c, Moved(c, s, w, cancelled, Raise(error)), row, trail.completed, world, if w.pc.Connecting? then 0 else r + 1)
  {
    hide Todo, KeysOf, Ahead;
    Requests(r, c.pageSize);
  }

  lemma MovePaced(c: Config, s: Store, w: Worker, row: ScanRow, trail: Trail, cancelled: bool, move: Move, world: World, r: nat)
    returns (n: nat)
    requires GoodConfig(c) && CanMove(w, move) && OnTrack(c, w, trail, cancelled) && world.catalog == c.catalog(w.database)
    requires InWorld(c, w, trail.completed, cancelled, move, world) && PacedAt(c, w, row, trail.completed, world, r)
    ensures PacedAt(c, Moved(c, s, w, cancelled, move), row, trail.completed, world, n)
  {
    n := r;
    assert c.pageSize >= 1;
    hide OnTrack, PacedAt, InWorld, Moved, GoodConfig;
    match move
    case List =>
      ListPaced(c, s, w, row, trail, cancelled, world, r);
      n := r + 1;
    case Check => CheckPaced(c, s, w, row, trail, cancelled, world, r);
    case Raise(error) =>
      RaisedPaced(c, s, w, row, trail, cancelled, world, r, error);
      n := if w.pc.Connecting? then 0 else r + 1;
    case _ => OtherMovePaced(c, s, w, row, trail.completed, cancelled, move, world, r);
  }

  lemma OtherMovePaced(c: Config, s: Store, w: Worker, row: ScanRow, m: nat, cancelled: bool, move: Move, world: World, r: nat)
    requires c.pageSize >= 1 && CanMove(w, move) && (move == Connect || move == Plan || move == EndDrop)
    requires InWorld(c, w, m, cancelled, move, world) && PacedAt(c, w, row, m, world, r)
    ensures PacedAt(c, Moved(c, s, w, cancelled, move), row, m, world, r)
  {
    hide Gone, ReadPage, Todo, MayEnd;
  }

  /** Scanning a container, persisting it, forgetting one, and writing down how the run ended. */
  predicate Does(w: Worker, w': Worker, row': ScanRow, m: nat, m': nat) {
    && w'.start == w.start
    && match w.pc
       case Scanning(info, page, next) => m' == m && w'.pc == Advancing(info, page, next)
       case Advancing(_, page, next) => m' == m + 1 && w'.pc == Checking(page, next)
       case Dropping(_) => m' == m && w'.pc.Dropping?
       case Finishing(state, error) => m' == m && w'.pc.Leaving? && row'.state == state && row'.error == error
       case _ => false
  }

  lemma WorkedPaced(c: Config, w: Worker, w': Worker, row: ScanRow, row': ScanRow, m: nat, m': nat, world: World, r: nat)
    requires c.pageSize >= 1 && PacedAt(c, w, row, m, world, r) && Does(w, w', row', m, m')
    ensures PacedAt(c, w', row', m', world, r)
  {
    hide Todo, MayEnd;
  }

  lemma TurnPaced(c: Config, sys: System, step: Step, job: JobId, world: World, now: Time)
    requires GoodConfig(c) && Inv(c, sys) && Enabled(sys, step) && step.Turn? && c.pageSize >= 1
    requires Paced(c, sys, job, world) && world.catalog == c.catalog(sys.workers[job].database)
    requires Follows(c, sys, step, job, world, now)
    ensures Paced(c, Next(c, sys, step), job, world)
  {
    hide PacedAt, Inv, OnTrack, Moved, GoodConfig, InWorld;
    HeldBy(c, sys, job);
    var w, row, trail := sys.workers[job], sys.store.scans[job], sys.trails[job];
    var r: nat :| PacedAt(c, w, row, trail.completed, world, r);
    var n := MovePaced(c, sys.store, w, row, trail, sys.cancels[job], step.move, world, r);
    assert Next(c, sys, step).workers[job] == Moved(c, sys.store, w, sys.cancels[job], step.move);
  }

  lemma WorkPaced(c: Config, sys: System, step: Step, job: JobId, world: World, now: Time)
    requires GoodConfig(c) && Inv(c, sys) && Enabled(sys, step) && c.pageSize >= 1
    requires step.ScanOne? || step.Advance? || step.Drop? || step.Finish?
    requires Paced(c, sys, job, world) && Follows(c, sys, step, job, world, now)
    ensures Paced(c, Next(c, sys, step), job, world)
  {
    hide PacedAt, GoodConfig;
    var w, row, m := sys.workers[job], sys.store.scans[job], sys.trails[job].completed;
    var r: nat :| PacedAt(c, w, row, m, world, r);
    var next := Next(c, sys, step);
    Worked(c, sys, step, job);
    hide Next;
    WorkedPaced(c, w, next.workers[job], row, next.store.scans[job], m, next.trails[job].completed, world, r);
  }

  /** What these steps make of the worker and its row. */
  lemma Worked(c: Config, sys: System, step: Step, job: JobId)
    requires Inv(c, sys) && Enabled(sys, step) && c.pageSize >= 1 && job in sys.workers && job < |sys.trails|
    requires (step.ScanOne? || step.Advance? || step.Drop? || step.Finish?) && step.job == job
    ensures
      var sys', w, m := Next(c, sys, step), sys.workers[job], sys.trails[job].completed;
      && job in sys'.workers && job < |sys'.trails| && job < |sys'.store.scans|
      && Does(w, sys'.workers[job], sys'.store.scans[job], m, sys'.trails[job].completed)
  {
    HeldBy(c, sys, job);
    if step.ScanOne? { ScanStore(c, sys, job, step.reading, step.now); }
    hide Inv, OnTrack, RowTells, Sound, ScanContainer, OutcomeOf, KeyOf, Count;
  }

  lemma CancelPaced(c: Config, sys: System, step: Step, job: JobId, world: World)
    requires Enabled(sys, step) && step.Cancel? && c.pageSize >= 1 && Paced(c, sys, job, world)
    ensures Paced(c, Next(c, sys, step), job, world)
  {
    hide PacedAt;
  }

  lemma StepPaced(c: Config, sys: System, step: Step, job: JobId, world: World, now: Time)
    requires GoodConfig(c) && Inv(c, sys) && Enabled(sys, step) && !step.Leave? && c.pageSize >= 1
    requires Paced(c, sys, job, world) && world.catalog == c.catalog(sys.workers[job].database)
    requires Follows(c, sys, step, job, world, now)
    ensures Paced(c, Next(c, sys, step), job, world)
  {
    hide Paced, Inv, GoodConfig, Next, InWorld;
    if step.Turn? {
      TurnPaced(c, sys, step, job, world, now);
    } else if step.Cancel? {
      CancelPaced(c, sys, step, job, world);
    } else {
      WorkPaced(c, sys, step, job, world, now);
    }
  }

  /** Every step of a worker left to itself keeps it on the course of the run. */
  lemma StepOnCourse(c: Config, sys: System, step: Step, job: JobId, s: Store, world: World, now: Time)
    requires GoodConfig(c) && Inv(c, sys) && Enabled(sys, step) && !step.Leave? && c.pageSize >= 1
    requires OnCourse(sys, job, s, world, now) && world.catalog == c.catalog(sys.workers[job].database)
    requires Follows(c, sys, step, job, world, now)
    ensures OnCourse(Next(c, sys, step), job, s, world, now)
    ensures Next(c, sys, step).workers[job].database == sys.workers[job].database
  {
    hide OnCourse, Inv, GoodConfig, Moved;
    match step {
      case Turn(_, _) => TurnOnCourse(c, sys, step, job, s, world, now);
      case ScanOne(_, _, _) => ScanOnCourse(c, sys, step, job, s, world, now);
      case Advance(_) => AdvanceOnCourse(c, sys, step, job, s, world, now);
      case Drop(_, _) => DropOnCourse(c, sys, step, job, s, world, now);
      case Finish(_, _) => FinishOnCourse(c, sys, step, job, s, world, now);
      case Cancel(_) => CancelOnCourse(c, sys, step, job, s, world, now);
    }
  }

  // ---- the run ----

  /** Between its start at step a and step b the worker is alone. */
  ghost predicate Alone(c: Config, systems: seq<System>, steps: seq<Step>, a: nat, b: nat, world: World, now: Time)
    requires c.pageSize >= 1 && IsRun(c, systems, steps) && a < b <= |steps|
  {
    && steps[a].Start? && world.catalog == c.catalog(steps[a].database)
    && forall i :: a < i < b ==>
         var job := |systems[a].trails|;
         && job in systems[i].workers && job < |systems[i].trails| && !steps[i].Leave?
         && Follows(c, systems[i], steps[i], job, world, now)
  }

  lemma StartOnCourse(c: Config, sys: System, step: Step, world: World, now: Time)
    requires c.pageSize >= 1 && Enabled(sys, step) && step.Start? && |sys.trails| == |sys.store.scans|
    ensures
      var next, job := Next(c, sys, step), |sys.trails|;
      && OnCourse(next, job, CreateScan(sys.store, step.database, step.now), world, now) && next.workers[job].database == step.database
      && Paced(c, next, job, world)
  {
    hide Todo;
    var next, job := Next(c, sys, step), |sys.trails|;
    assert PacedAt(c, next.workers[job], next.store.scans[job], next.trails[job].completed, world, 0);
  }

  lemma {:induction false} AloneOnCourse(c: Config, systems: seq<System>, steps: seq<Step>, a: nat, b: nat, world: World, now: Time)
    requires GoodConfig(c) && c.pageSize >= 1 && IsRun(c, systems, steps) && a < b <= |steps|
    requires Alone(c, systems, steps, a, b, world, now)
    ensures
      var s, job := CreateScan(systems[a].store, steps[a].database, steps[a].now), |systems[a].trails|;
      && OnCourse(systems[b], job, s, world, now) && systems[b].workers[job].database == steps[a].database
      && Paced(c, systems[b], job, world)
    decreases b
  {
    hide OnCourse, Paced, Inv, GoodConfig, Next, Enabled;
    RunsKeepInv(c, systems, steps, a);
    if b == a + 1 {
      BooksAgree(c, systems[a]);
      StartOnCourse(c, systems[a], steps[a], world, now);
    } else {
      var s, job := CreateScan(systems[a].store, steps[a].database, steps[a].now), |systems[a].trails|;
      AloneOnCourse(c, systems, steps, a, b - 1, world, now);
      RunsKeepInv(c, systems, steps, b - 1);
      StepOnCourse(c, systems[b - 1], steps[b - 1], job, s, world, now);
      StepPaced(c, systems[b - 1], steps[b - 1], job, world, now);
    }
  }

  lemma BooksAgree(c: Config, sys: System)
    requires Inv(c, sys)
    ensures |sys.trails| == |sys.store.scans|
  {
  }

  /**
   A worker alone from its start until it is about to leave: the tables are those of a
   run taken as a whole, ended the way its row says, after the containers it persisted,
   and that is a way a run may end in this world.
   */
  lemma AloneIsAfterRun(c: Config, systems: seq<System>, steps: seq<Step>, a: nat, b: nat, world: World, now: Time)
    requires GoodConfig(c) && c.pageSize >= 1 && IsRun(c, systems, steps) && a < b <= |steps|
    requires Alone(c, systems, steps, a, b, world, now)
    requires
      var job := |systems[a].trails|;
      job in systems[b].workers && systems[b].workers[job].pc.Leaving?
    ensures
      var job := |systems[a].trails|;
      && job < |systems[b].trails| && job < |systems[b].store.scans|
      && var w, m, row := systems[b].workers[job], systems[b].trails[job].completed, systems[b].store.scans[job];
         && m <= |Todo(world.catalog, w.start)|
         && systems[b].store == AfterRun(systems[a].store, steps[a].database, steps[a].now, w.start, w.force, world,
                                         row.state, row.error, m, now)
         && exists requests: nat :: MayEnd(world, w.start, c.pageSize, row.state, row.error, requests, m)
  {
    RunsKeepInv(c, systems, steps, a);
    AloneOnCourse(c, systems, steps, a, b, world, now);
    hide Inv, GoodConfig, Next, Enabled, EndedAt, Todo, FinishScan, Scanned, Dropped, IsRun, Alone, MayEnd;
    BooksAgree(c, systems[a]);
  }
}
