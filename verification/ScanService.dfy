/**
 The scan service as a step machine.

 Workers of several databases, cancel requests, annotations, exceptions and
 crashes of the whole process interleave; one step is one thing a worker does
 between two points where another thread may come in.  A process that starts
 again after a crash goes on with the tables the old one left.
 */
module ScanService {
  import opened Wrappers
  import opened Ordering
  import opened Keyset
  import opened Contracts
  import opened Tables
  import opened Scan
  import opened Runs

  /** A fixed catalog for every database argument, and how many containers a page holds. */
  datatype Config = Config(catalog: Option<string> -> seq<ContainerInfo>, pageSize: nat)

  ghost predicate GoodConfig(c: Config) {
    c.pageSize >= 1 && forall database :: IsCatalog(c.catalog(database))
  }

  /** Where a worker is in `_run`. */
  datatype Pc =
    | Connecting
    | Listing
    | Checking(page: seq<ContainerInfo>, next: Option<string>)
    | Scanning(info: ContainerInfo, page: seq<ContainerInfo>, next: Option<string>)
    | Advancing(info: ContainerInfo, page: seq<ContainerInfo>, next: Option<string>)
    | Removing
    | Dropping(keys: seq<Key>)
    | Finishing(state: ScanState, error: Option<string>)
    | Leaving

  datatype Worker = Worker(database: Option<string>, start: Option<string>, force: bool, pc: Pc,
                           at: Option<string>, tally: Tally, seen: set<Key>)

  /**
   What happened to a job, for stating properties only: the run it resumed, its
   starting cursor, the names it scanned in order and what came of each, how many of
   those were persisted, and how many it began after a cancel request.
   */
  datatype Trail = Trail(origin: Option<JobId>, start: Option<string>, visited: seq<string>, outcomes: seq<Outcome>,
                         completed: nat, afterCancel: nat)

  datatype System = System(store: Store, workers: map<JobId, Worker>, running: set<Option<string>>,
                           cancels: map<JobId, bool>, trails: seq<Trail>)

  const INITIAL := System(EMPTY, map[], {}, map[], [])

  /** What a worker does with its own variables only. */
  datatype Move = Connect | List | Check | Plan | EndDrop | Raise(error: string)

  datatype Step =
    | Start(database: Option<string>, resume: bool, previous: Option<JobId>, force: bool, now: Time)
    | Cancel(job: JobId)
    | Turn(job: JobId, move: Move)
    | ScanOne(job: JobId, reading: Reading, now: Time)
    | Advance(job: JobId)
    | Drop(job: JobId, now: Time)
    | Finish(job: JobId, now: Time)
    | Leave(job: JobId)
    | Write(key: Key, description: Option<string>, annotations: seq<Annotation>, source: Source, now: Time)
    | Crash

  /** The cursor a start resumes from: that of the previous run, unless it has none. */
  function CursorOf(s: Store, previous: Option<JobId>): Option<string> {
    if previous.Some? && previous.value < |s.scans| then Effective(s.scans[previous.value].cursor) else None
  }

  /** `resumable_scan` answers with a latest unfinished run, or with none when there is none. */
  predicate Answers(s: Store, database: Option<string>, previous: Option<JobId>) {
    match previous
    case Some(j) => Resumable(s, database, j)
    case None => forall j :: 0 <= j < |s.scans| ==> !Unfinished(s.scans[j], database)
  }

  /** The cursors a start may take, as the service object states them, are those of the machine's start step. */
  lemma StartsAgree(s: Store, database: Option<string>, resume: bool, cursor: Option<string>)
    ensures StartsFrom(s, database, resume, cursor)
       <==> exists previous ::
              (if resume then Answers(s, database, previous) else previous.None?) && CursorOf(s, previous) == cursor
  {
    if StartsFrom(s, database, resume, cursor) {
      if resume && exists j: nat :: Resumable(s, database, j) {
        if cursor.Some? {
          var j: nat :| Resumable(s, database, j) && s.scans[j].cursor == cursor;
          assert Answers(s, database, Some(j)) && CursorOf(s, Some(j)) == cursor;
        } else {
          var j: nat :| Resumable(s, database, j) && (s.scans[j].cursor.None? || s.scans[j].cursor == Some(""));
          assert Answers(s, database, Some(j)) && CursorOf(s, Some(j)) == cursor;
        }
      } else {
        assert CursorOf(s, None) == cursor;
      }
    }
  }

  predicate CanMove(w: Worker, move: Move) {
    match move
    case Connect => w.pc.Connecting?
    case List => w.pc.Listing?
    case Check => w.pc.Checking?
    case Plan => w.pc.Removing?
    case EndDrop => w.pc == Dropping([])
    case Raise(_) => !w.pc.Leaving?
  }

  function Moved(c: Config, s: Store, w: Worker, cancelled: bool, move: Move): Worker
    requires c.pageSize >= 1 && CanMove(w, move)
  {
    match move
    case Connect => w.(pc := Listing)
    case List =>
      var page := ReadPage(InfoName, Before, c.catalog(w.database), w.at, c.pageSize);
      w.(pc := Checking(page.rows, page.next))
    case Check =>
      if w.pc.page == [] then
        if w.pc.next.None? then w.(pc := Removing) else w.(pc := Listing, at := w.pc.next)
      else if cancelled then w.(pc := Finishing(Cancelled, None))
      else w.(pc := Scanning(w.pc.page[0], w.pc.page[1..], w.pc.next))
    case Plan => if w.start.None? then w.(pc := Dropping(Gone(s, w.database, w.seen))) else w.(pc := Finishing(Done, None))
    case EndDrop => w.(pc := Finishing(Done, None))
    case Raise(error) =>
      // Whatever raises is recorded as a failure; if recording it raises too, the row stays as it is.
      if w.pc.Finishing? && w.pc.state == Failed then w.(pc := Leaving) else w.(pc := Finishing(Failed, Some(error)))
  }

  predicate Enabled(sys: System, step: Step) {
    match step
    case Start(database, resume, previous, _, _) =>
      database !in sys.running && if resume then Answers(sys.store, database, previous) else previous.None?
    case Cancel(_) => true
    case Turn(job, move) => job in sys.workers && job in sys.cancels && CanMove(sys.workers[job], move)
    case ScanOne(job, _, _) => job in sys.workers && sys.workers[job].pc.Scanning? && job in sys.cancels && job < |sys.trails|
    case Advance(job) => job in sys.workers && sys.workers[job].pc.Advancing? && job < |sys.trails|
    case Drop(job, _) => job in sys.workers && sys.workers[job].pc.Dropping? && sys.workers[job].pc.keys != []
    case Finish(job, _) => job in sys.workers && sys.workers[job].pc.Finishing?
    case Leave(job) => job in sys.workers && sys.workers[job].pc.Leaving?
    case Write(_, _, _, _, _) => true
    case Crash => true
  }

  function Fresh(database: Option<string>, cursor: Option<string>, force: bool): Worker {
    Worker(database, cursor, force, Connecting, cursor, Tally(0, 0, 0), {})
  }

  function Started(sys: System, database: Option<string>, previous: Option<JobId>, force: bool, now: Time): System {
    var job := |sys.store.scans|;
    var cursor := CursorOf(sys.store, previous);
    System(CreateScan(sys.store, database, now), sys.workers[job := Fresh(database, cursor, force)],
           sys.running + {database}, sys.cancels[job := false],
           sys.trails + [Trail(if cursor.Some? then previous else None, cursor, [], [], 0, 0)])
  }

  function Next(c: Config, sys: System, step: Step): System
    requires c.pageSize >= 1 && Enabled(sys, step)
  {
    match step
    case Start(database, _, previous, force, now) => Started(sys, database, previous, force, now)
    case Cancel(job) => if job in sys.cancels then sys.(cancels := sys.cancels[job := true]) else sys
    case Turn(job, move) =>
      sys.(workers := sys.workers[job := Moved(c, sys.store, sys.workers[job], sys.cancels[job], move)])
    case ScanOne(job, reading, now) =>
      var w, trail := sys.workers[job], sys.trails[job];
      var info := w.pc.info;
      var outcome := OutcomeOf(sys.store, info, reading, w.force);
      var tally := Count(w.tally, outcome);
      sys.(store := ScanContainer(sys.store, job, info, reading, w.force, now),
           workers := sys.workers[job := w.(pc := Advancing(info, w.pc.page, w.pc.next), tally := tally, seen := w.seen + {KeyOf(info)})],
           trails := sys.trails[job := trail.(visited := trail.visited + [info.containerName],
                                              outcomes := trail.outcomes + [outcome],
                                              afterCancel := trail.afterCancel + if sys.cancels[job] then 1 else 0)])
    case Advance(job) =>
      var w, trail := sys.workers[job], sys.trails[job];
      sys.(store := AdvanceScan(sys.store, job, w.pc.info.containerName, w.tally.done, w.tally.failed, w.tally.skipped),
           workers := sys.workers[job := w.(pc := Checking(w.pc.page, w.pc.next))],
           trails := sys.trails[job := trail.(completed := trail.completed + 1)])
    case Drop(job, now) =>
      var w := sys.workers[job];
      sys.(store := RemoveContainer(sys.store, job, w.pc.keys[0], now),
           workers := sys.workers[job := w.(pc := Dropping(w.pc.keys[1..]))])
    case Finish(job, now) =>
      var w := sys.workers[job];
      sys.(store := FinishScan(sys.store, job, w.pc.state, w.pc.error, now), workers := sys.workers[job := w.(pc := Leaving)])
    case Leave(job) =>
      sys.(workers := sys.workers - {job}, running := sys.running - {sys.workers[job].database}, cancels := sys.cancels - {job})
    case Write(key, description, annotations, source, now) =>
      sys.(store := Annotate(sys.store, key, description, annotations, source, now))
    case Crash => sys.(workers := map[], running := {}, cancels := map[])
  }

  /** A run of the whole system from an empty store: systems[i] is the state before steps[i]. */
  ghost predicate IsRun(c: Config, systems: seq<System>, steps: seq<Step>)
    requires c.pageSize >= 1
  {
    && |systems| == |steps| + 1 && systems[0] == INITIAL
    && forall i :: 0 <= i < |steps| ==> Enabled(systems[i], steps[i]) && systems[i + 1] == Next(c, systems[i], steps[i])
  }

  /** A start step is there for a database that is not running, and its worker may begin exactly where the service object's may. */
  lemma StartsAsTold(c: Config, sys: System, database: Option<string>, resume: bool, force: bool, now: Time, cursor: Option<string>)
    requires c.pageSize >= 1
    ensures (database !in sys.running && StartsFrom(sys.store, database, resume, cursor)) <==>
      exists previous :: Begins(c, sys, Start(database, resume, previous, force, now), cursor)
  {
    hide StartsFrom, Answers, CursorOf;
    StartsAgree(sys.store, database, resume, cursor);
    forall previous ensures Begins(c, sys, Start(database, resume, previous, force, now), cursor) <==>
      && database !in sys.running && (if resume then Answers(sys.store, database, previous) else previous.None?)
      && CursorOf(sys.store, previous) == cursor
    {
    }
  }

  predicate Begins(c: Config, sys: System, step: Step, cursor: Option<string>)
    requires c.pageSize >= 1
  {
    && Enabled(sys, step) && |sys.store.scans| in Next(c, sys, step).workers
    && Next(c, sys, step).workers[|sys.store.scans|].start == cursor
  }

  // ---- invariants ----

  function Names(infos: seq<ContainerInfo>): seq<string> {
    seq(|infos|, i requires 0 <= i < |infos| => infos[i].containerName)
  }

  /** The names scanned by a run or by any run it resumed from. */
  function Covered(trails: seq<Trail>, job: JobId): set<string>
    requires job < |trails|
  {
    var trail := trails[job];
    (set name | name in trail.visited)
    + if trail.origin.Some? && trail.origin.value < job then Covered(trails, trail.origin.value) else {}
  }

  ghost predicate CoversUpTo(c: Config, sys: System, database: Option<string>, job: JobId, cursor: string)
    requires job < |sys.trails|
  {
    forall info :: info in c.catalog(database) && !Before(cursor, info.containerName)
      ==> info.containerName in Covered(sys.trails, job)
  }

  function Databases(workers: map<JobId, Worker>): set<Option<string>> {
    set j | j in workers :: workers[j].database
  }

  /** One live worker a database; `running` and `cancels` are exactly about the live workers. */
  ghost predicate Books(sys: System) {
    && |sys.trails| == |sys.store.scans|
    && sys.cancels.Keys == sys.workers.Keys
    && sys.running == Databases(sys.workers)
    && (forall j :: j in sys.workers ==> Booked(sys, j))
    && (forall j, k :: j in sys.workers && k in sys.workers && sys.workers[j].database == sys.workers[k].database ==> j == k)
  }

  ghost predicate Booked(sys: System, j: JobId)
    requires j in sys.workers
  {
    && j < |sys.store.scans| && j < |sys.trails|
    && sys.workers[j].database == sys.store.scans[j].database
    && sys.workers[j].start == sys.trails[j].start
    && (!sys.workers[j].pc.Leaving? ==> sys.store.scans[j].state == Running)
  }

  function TodoOf(c: Config, row: ScanRow, trail: Trail): seq<ContainerInfo> {
    Todo(c.catalog(row.database), trail.start)
  }

  /** These are the numbers of containers scanned, unread and skipped among so many outcomes. */
  predicate Tallies(done: nat, failed: nat, skipped: nat, outcomes: seq<Outcome>) {
    var each := multiset(outcomes);
    done == each[Scanned] && failed == each[Unread] && skipped == each[Skipped]
  }

  /** A row's error and finish time say what its state says. */
  predicate StateTells(row: ScanRow) {
    (row.state == Running <==> row.finishedAt.None?) && (row.state == Failed <==> row.error.Some?)
  }

  /** A job's row against what it did: in order, once each, persisted one behind at most. */
  ghost predicate RowTells(c: Config, row: ScanRow, trail: Trail) {
    var todo := TodoOf(c, row, trail);
    && trail.completed <= |trail.visited| <= |todo|
    && |trail.visited| <= trail.completed + 1
    && trail.visited == Names(todo)[..|trail.visited|]
    && row.done + row.failed + row.skipped == trail.completed
    && |trail.outcomes| == |trail.visited| && Tallies(row.done, row.failed, row.skipped, trail.outcomes[..trail.completed])
    && StateTells(row)
    && row.cursor == (if trail.completed == 0 then None else Some(trail.visited[trail.completed - 1]))
    && (row.state == Done ==> trail.completed == |todo|)
    && trail.afterCancel <= 1
  }

  /** A starting cursor is one a previous run of the same database had covered everything up to. */
  ghost predicate StartCovered(c: Config, sys: System, j: JobId)
    requires j < |sys.trails| == |sys.store.scans|
  {
    var trail := sys.trails[j];
    trail.start.Some? ==>
      && trail.origin.Some? && trail.origin.value < j
      && sys.store.scans[trail.origin.value].database == sys.store.scans[j].database
      && CoversUpTo(c, sys, sys.store.scans[j].database, trail.origin.value, trail.start.value)
  }

  /** The catalog on the pages still to come. */
  function Ahead(c: Config, database: Option<string>, next: Option<string>): seq<ContainerInfo> {
    if next.None? then [] else Todo(c.catalog(database), next)
  }

  /** A worker's variables against what it still has to do. */
  ghost predicate OnTrack(c: Config, w: Worker, trail: Trail, cancelled: bool) {
    var todo := Todo(c.catalog(w.database), w.start);
    var v := |trail.visited|;
    && v <= |todo|
    && w.tally.done + w.tally.failed + w.tally.skipped == v
    && Tallies(w.tally.done, w.tally.failed, w.tally.skipped, trail.outcomes)
    && w.seen == KeysOf(todo[..v])
    && (trail.completed == v || w.pc.Advancing? || w.pc.Leaving? || (w.pc.Finishing? && w.pc.state == Failed))
    && (!cancelled ==> trail.afterCancel == 0)
    && (w.pc.Scanning? ==> trail.afterCancel == 0)
    && match w.pc
       case Connecting => Todo(c.catalog(w.database), w.at) == todo[v..]
       case Listing => Todo(c.catalog(w.database), w.at) == todo[v..]
       case Checking(page, next) => page + Ahead(c, w.database, next) == todo[v..] && (next.Some? ==> Ahead(c, w.database, next) != [])
       case Scanning(info, page, next) => [info] + page + Ahead(c, w.database, next) == todo[v..] && (next.Some? ==> Ahead(c, w.database, next) != [])
       case Advancing(info, page, next) =>
         v == trail.completed + 1 && info == todo[v - 1] && page + Ahead(c, w.database, next) == todo[v..] && (next.Some? ==> Ahead(c, w.database, next) != [])
       case Removing => v == |todo|
       case Dropping(_) => v == |todo| && w.start.None?
       case Finishing(state, error) => state != Running && (state == Failed <==> error.Some?) && (state == Done ==> v == |todo|)
       case Leaving => true
  }

  ghost predicate JobHolds(c: Config, sys: System, j: JobId)
    requires Books(sys) && j < |sys.trails|
  {
    && RowTells(c, sys.store.scans[j], sys.trails[j])
    && StartCovered(c, sys, j)
    && (j in sys.workers ==> OnTrack(c, sys.workers[j], sys.trails[j], sys.cancels[j]))
  }

  ghost predicate Inv(c: Config, sys: System) {
    && Books(sys)
    && Sound(sys.store)
    && forall j :: 0 <= j < |sys.trails| ==> JobHolds(c, sys, j)
  }

  // ---- every step keeps them ----

  lemma {:induction false} CoveredGrows(a: seq<Trail>, b: seq<Trail>, j: JobId)
    requires j < |a| <= |b|
    requires forall i :: 0 <= i < |a| ==> a[i].origin == b[i].origin && forall name :: name in a[i].visited ==> name in b[i].visited
    ensures Covered(a, j) <= Covered(b, j)
  {
    if a[j].origin.Some? && a[j].origin.value < j {
      CoveredGrows(a, b, a[j].origin.value);
    }
  }

  lemma StartStaysCovered(c: Config, sys: System, sys': System, j: JobId)
    requires j < |sys.trails| == |sys.store.scans| && |sys.trails| <= |sys'.trails| == |sys'.store.scans|
    requires forall i :: 0 <= i < |sys.trails| ==>
      && sys.trails[i].origin == sys'.trails[i].origin && sys.store.scans[i].database == sys'.store.scans[i].database
      && forall name :: name in sys.trails[i].visited ==> name in sys'.trails[i].visited
    requires sys'.trails[j].start == sys.trails[j].start
    requires StartCovered(c, sys, j)
    ensures StartCovered(c, sys', j)
  {
    if sys.trails[j].start.Some? {
      CoveredGrows(sys.trails, sys'.trails, sys.trails[j].origin.value);
    }
  }

  /** A step of one worker: its variables, its row and its trail may change, nobody else's. */
  ghost predicate ByWorker(sys: System, sys': System, job: JobId) {
    && job in sys.workers && job in sys'.workers && job < |sys.trails| == |sys.store.scans|
    && |sys'.trails| == |sys.trails| && |sys'.store.scans| == |sys.store.scans|
    && sys'.running == sys.running && sys'.cancels == sys.cancels
    && sys'.workers == sys.workers[job := sys'.workers[job]]
    && (forall j :: 0 <= j < |sys.trails| && j != job ==>
          sys'.trails[j] == sys.trails[j] && sys'.store.scans[j] == sys.store.scans[j])
    && sys'.workers[job].database == sys.workers[job].database && sys'.workers[job].start == sys.workers[job].start
    && sys'.trails[job].origin == sys.trails[job].origin && sys'.trails[job].start == sys.trails[job].start
    && sys'.store.scans[job].database == sys.store.scans[job].database
    && (forall name :: name in sys.trails[job].visited ==> name in sys'.trails[job].visited)
    && (!sys'.workers[job].pc.Leaving? ==> sys'.store.scans[job].state == Running)
  }

  lemma SameDatabases(workers: map<JobId, Worker>, job: JobId, w: Worker)
    requires job in workers && w.database == workers[job].database
    ensures Databases(workers[job := w]) == Databases(workers)
  {
    forall database | database in Databases(workers) ensures database in Databases(workers[job := w]) {
      var j :| j in workers && workers[j].database == database;
      assert j in workers[job := w] && workers[job := w][j].database == database;
    }
  }

  lemma BooksByWorker(sys: System, sys': System, job: JobId)
    requires Books(sys) && ByWorker(sys, sys', job)
    ensures Books(sys')
  {
    SameDatabases(sys.workers, job, sys'.workers[job]);
    hide Databases;
    assert Booked(sys, job);
    forall j | j in sys'.workers ensures Booked(sys', j) {
      assert Booked(sys, j);
    }
  }

  lemma InvByWorker(c: Config, sys: System, sys': System, job: JobId)
    requires Inv(c, sys) && ByWorker(sys, sys', job) && Sound(sys'.store)
    requires RowTells(c, sys'.store.scans[job], sys'.trails[job])
    requires job in sys.cancels && OnTrack(c, sys'.workers[job], sys'.trails[job], sys.cancels[job])
    ensures Inv(c, sys')
  {
    hide RowTells, OnTrack, Sound, Databases, Books, StartCovered;
    BooksByWorker(sys, sys', job);
    forall j | 0 <= j < |sys'.trails| ensures JobHolds(c, sys', j) {
      JobHoldsByWorker(c, sys, sys', job, j);
    }
  }

  lemma JobHoldsByWorker(c: Config, sys: System, sys': System, job: JobId, j: JobId)
    requires Inv(c, sys) && ByWorker(sys, sys', job) && Books(sys') && j < |sys'.trails|
    requires RowTells(c, sys'.store.scans[job], sys'.trails[job])
    requires job in sys.cancels && OnTrack(c, sys'.workers[job], sys'.trails[job], sys.cancels[job])
    ensures JobHolds(c, sys', j)
  {
    hide RowTells, OnTrack, Sound, Databases, StartCovered;
    assert JobHolds(c, sys, j);
    StartStaysCovered(c, sys, sys', j);
  }

  lemma HeldBy(c: Config, sys: System, job: JobId)
    requires Inv(c, sys) && job in sys.workers
    ensures job < |sys.trails| == |sys.store.scans| && job in sys.cancels
    ensures sys.workers[job].database == sys.store.scans[job].database && sys.workers[job].start == sys.trails[job].start
    ensures RowTells(c, sys.store.scans[job], sys.trails[job])
    ensures OnTrack(c, sys.workers[job], sys.trails[job], sys.cancels[job])
    ensures !sys.workers[job].pc.Leaving? ==> sys.store.scans[job].state == Running
    ensures Sound(sys.store)
  {
    hide RowTells, OnTrack, Sound, Databases;
    assert Booked(sys, job) && JobHolds(c, sys, job);
  }

  /** The new variables, row and trail belong to the same job as the old ones. */
  ghost predicate SameJob(v: Worker, w: Worker, earlier: Trail, trail: Trail, before: ScanRow, row: ScanRow) {
    && w.database == v.database && w.start == v.start && trail.origin == earlier.origin && trail.start == earlier.start
    && row.database == before.database && (!w.pc.Leaving? ==> row.state == Running)
    && forall name :: name in earlier.visited ==> name in trail.visited
  }

  lemma ReplaceKeeps(c: Config, sys: System, job: JobId, store: Store, w: Worker, row: ScanRow, trail: Trail)
    requires Inv(c, sys) && job in sys.workers && job in sys.cancels && job < |sys.trails| == |sys.store.scans|
    requires Sound(store) && store.scans == sys.store.scans[job := row]
    requires SameJob(sys.workers[job], w, sys.trails[job], trail, sys.store.scans[job], row)
    requires RowTells(c, row, trail) && OnTrack(c, w, trail, sys.cancels[job])
    ensures Inv(c, System(store, sys.workers[job := w], sys.running, sys.cancels, sys.trails[job := trail]))
  {
    var sys' := System(store, sys.workers[job := w], sys.running, sys.cancels, sys.trails[job := trail]);
    assert ByWorker(sys, sys', job);
    hide *;
    InvByWorker(c, sys, sys', job);
  }

  /** A step that moves only the worker's own variables. */
  lemma LocalStep(c: Config, sys: System, job: JobId, w: Worker)
    requires Inv(c, sys) && job in sys.workers && job in sys.cancels && job < |sys.trails|
    requires w.database == sys.workers[job].database && w.start == sys.workers[job].start && !sys.workers[job].pc.Leaving?
    requires OnTrack(c, w, sys.trails[job], sys.cancels[job])
    ensures Inv(c, sys.(workers := sys.workers[job := w]))
  {
    HeldBy(c, sys, job);
    hide Inv, Sound, OnTrack, RowTells;
    assert sys.store.scans == sys.store.scans[job := sys.store.scans[job]] && sys.trails == sys.trails[job := sys.trails[job]];
    ReplaceKeeps(c, sys, job, sys.store, w, sys.store.scans[job], sys.trails[job]);
  }

  // What each kind of step makes of the worker's own variables.

  lemma PageJoinsRest(c: Config, database: Option<string>, at: Option<string>)
    requires GoodConfig(c)
    ensures
      var page := ReadPage(InfoName, Before, c.catalog(database), at, c.pageSize);
      && page.rows + Ahead(c, database, page.next) == Todo(c.catalog(database), at)
      && (page.next.Some? ==> Ahead(c, database, page.next) != [])
  {
    hide ReadPage, Todo;
    PageOfTodo(c.catalog(database), at, c.pageSize);
    var live := Todo(c.catalog(database), at);
    var page := ReadPage(InfoName, Before, c.catalog(database), at, c.pageSize);
    assert page.next.Some? ==> live == live[..c.pageSize] + live[c.pageSize..];
  }

  lemma ListOnTrack(c: Config, w: Worker, trail: Trail, cancelled: bool)
    requires GoodConfig(c) && w.pc.Listing? && OnTrack(c, w, trail, cancelled)
    ensures
      var page := ReadPage(InfoName, Before, c.catalog(w.database), w.at, c.pageSize);
      OnTrack(c, w.(pc := Checking(page.rows, page.next)), trail, cancelled)
  {
    PageJoinsRest(c, w.database, w.at);
    hide ReadPage, Todo, KeysOf, Ahead, GoodConfig;
  }

  lemma CheckOnTrack(c: Config, s: Store, w: Worker, trail: Trail, cancelled: bool)
    requires c.pageSize >= 1 && w.pc.Checking? && OnTrack(c, w, trail, cancelled)
    ensures OnTrack(c, Moved(c, s, w, cancelled, Check), trail, cancelled)
  {
    hide Todo, KeysOf, Gone, ReadPage;
    if w.pc.page == [] {
      assert w.pc.page + Ahead(c, w.database, w.pc.next) == Ahead(c, w.database, w.pc.next);
    } else {
      assert [w.pc.page[0]] + w.pc.page[1..] == w.pc.page;
    }
  }

  lemma RaisedOnTrack(c: Config, w: Worker, trail: Trail, cancelled: bool, pc: Pc)
    requires OnTrack(c, w, trail, cancelled) && !w.pc.Leaving?
    requires pc == Leaving || (pc.Finishing? && pc.state == Failed && pc.error.Some?)
    ensures OnTrack(c, w.(pc := pc), trail, cancelled)
  {
    hide Todo, KeysOf, Ahead;
  }

  lemma PlannedOnTrack(c: Config, w: Worker, trail: Trail, cancelled: bool, pc: Pc)
    requires OnTrack(c, w, trail, cancelled) && (w.pc.Removing? || w.pc.Dropping?)
    requires (w.start.None? && pc.Dropping?) || pc == Finishing(Done, None)
    ensures OnTrack(c, w.(pc := pc), trail, cancelled)
  {
    hide Todo, KeysOf, Ahead;
  }

  lemma MovedOnTrack(c: Config, s: Store, w: Worker, trail: Trail, cancelled: bool, move: Move)
    requires GoodConfig(c) && CanMove(w, move) && OnTrack(c, w, trail, cancelled)
    ensures OnTrack(c, Moved(c, s, w, cancelled, move), trail, cancelled)
  {
    var w' := Moved(c, s, w, cancelled, move);
    match move
    case List => ListOnTrack(c, w, trail, cancelled);
    case Check => CheckOnTrack(c, s, w, trail, cancelled);
    case Raise(_) => hide OnTrack; RaisedOnTrack(c, w, trail, cancelled, w'.pc);
    case Connect => hide Todo, KeysOf;
    case _ => hide OnTrack; PlannedOnTrack(c, w, trail, cancelled, w'.pc);
  }

  /** Scanning adds the next name, and nothing else, to what was visited. */
  lemma ScannedOnTrack(c: Config, w: Worker, trail: Trail, cancelled: bool, outcome: Outcome)
    requires w.pc.Scanning? && OnTrack(c, w, trail, cancelled)
    requires |trail.visited| <= |Todo(c.catalog(w.database), w.start)|
    requires trail.visited == Names(Todo(c.catalog(w.database), w.start))[..|trail.visited|]
    ensures
      var after := trail.(visited := trail.visited + [w.pc.info.containerName],
                          outcomes := trail.outcomes + [outcome],
                          afterCancel := trail.afterCancel + if cancelled then 1 else 0);
      && OnTrack(c, w.(pc := Advancing(w.pc.info, w.pc.page, w.pc.next), tally := Count(w.tally, outcome),
                       seen := w.seen + {KeyOf(w.pc.info)}), after, cancelled)
      && |after.visited| <= |Todo(c.catalog(w.database), w.start)|
      && after.visited == Names(Todo(c.catalog(w.database), w.start))[..|after.visited|]
      && trail.completed == |trail.visited| && after.afterCancel <= 1
  {
    var todo, v := Todo(c.catalog(w.database), w.start), |trail.visited|;
    hide Todo, KeyOf;
    var rest := w.pc.page + Ahead(c, w.database, w.pc.next);
    assert [w.pc.info] + w.pc.page + Ahead(c, w.database, w.pc.next) == [w.pc.info] + rest;
    OffTheFront(todo, v, w.pc.info, rest);
    hide KeysOf, Names;
  }

  lemma WhatRowTells(c: Config, row: ScanRow, trail: Trail)
    requires RowTells(c, row, trail)
    ensures |trail.visited| <= |TodoOf(c, row, trail)| && trail.visited == Names(TodoOf(c, row, trail))[..|trail.visited|]
  {
  }

  lemma ScannedRowTells(c: Config, row: ScanRow, trail: Trail, after: Trail, name: string, outcome: Outcome)
    requires RowTells(c, row, trail) && trail.completed == |trail.visited| && row.state == Running
    requires after == trail.(visited := trail.visited + [name], outcomes := trail.outcomes + [outcome], afterCancel := after.afterCancel)
    requires after.afterCancel <= 1
    requires |after.visited| <= |TodoOf(c, row, trail)| && after.visited == Names(TodoOf(c, row, trail))[..|after.visited|]
    ensures RowTells(c, row, after)
  {
    hide Names, Todo, Tallies;
    assert after.outcomes[..trail.completed] == trail.outcomes[..trail.completed];
  }

  lemma OffTheFront(todo: seq<ContainerInfo>, v: nat, info: ContainerInfo, rest: seq<ContainerInfo>)
    requires v <= |todo| && [info] + rest == todo[v..]
    ensures v < |todo| && todo[v] == info && rest == todo[v + 1..]
    ensures KeysOf(todo[..v + 1]) == KeysOf(todo[..v]) + {KeyOf(info)}
    ensures Names(todo)[..v + 1] == Names(todo)[..v] + [info.containerName]
  {
    assert |todo[v..]| > 0 && todo[v..][0] == todo[v] && todo[v..][1..] == todo[v + 1..];
    assert todo[..v + 1] == todo[..v] + [info];
  }

  lemma MovedKeepsJob(c: Config, s: Store, w: Worker, cancelled: bool, move: Move)
    requires c.pageSize >= 1 && CanMove(w, move)
    ensures
      var w' := Moved(c, s, w, cancelled, move);
      !w.pc.Leaving? && w'.database == w.database && w'.start == w.start
  {
    hide ReadPage, Gone;
  }

  lemma TurnKeeps(c: Config, sys: System, job: JobId, move: Move)
    requires GoodConfig(c) && Inv(c, sys) && job in sys.workers && job in sys.cancels && CanMove(sys.workers[job], move)
    ensures Inv(c, sys.(workers := sys.workers[job := Moved(c, sys.store, sys.workers[job], sys.cancels[job], move)]))
  {
    var w := sys.workers[job];
    var w' := Moved(c, sys.store, w, sys.cancels[job], move);
    hide *;
    MovedKeepsJob(c, sys.store, w, sys.cancels[job], move);
    HeldBy(c, sys, job);
    MovedOnTrack(c, sys.store, w, sys.trails[job], sys.cancels[job], move);
    LocalStep(c, sys, job, w');
  }

  lemma ScanOneKeeps(c: Config, sys: System, job: JobId, outcome: Outcome, store: Store, w: Worker, trail: Trail)
    requires Inv(c, sys) && job in sys.workers && job in sys.cancels && job < |sys.trails| && sys.workers[job].pc.Scanning?
    requires Sound(store) && store.scans == sys.store.scans
    requires
      var v, earlier := sys.workers[job], sys.trails[job];
      && w == v.(pc := Advancing(v.pc.info, v.pc.page, v.pc.next), tally := Count(v.tally, outcome), seen := v.seen + {KeyOf(v.pc.info)})
      && trail == earlier.(visited := earlier.visited + [v.pc.info.containerName],
                           outcomes := earlier.outcomes + [outcome],
                           afterCancel := earlier.afterCancel + if sys.cancels[job] then 1 else 0)
    ensures Inv(c, System(store, sys.workers[job := w], sys.running, sys.cancels, sys.trails[job := trail]))
  {
    var v, earlier := sys.workers[job], sys.trails[job];
    var name := v.pc.info.containerName;
    HeldBy(c, sys, job);
    var row := sys.store.scans[job];
    assert store.scans == sys.store.scans[job := row];
    hide Inv, Sound, OnTrack, Todo, Names, KeyOf, Count, KeysOf, RowTells;
    WhatRowTells(c, row, earlier);
    ScannedOnTrack(c, v, earlier, sys.cancels[job], outcome);
    ScannedRowTells(c, row, earlier, trail, name, outcome);
    hide *;
    assert SameJob(v, w, earlier, trail, row, row) by { ScanIsSameJob(v, w, earlier, trail, row); }
    ReplaceKeeps(c, sys, job, store, w, row, trail);
  }

  lemma ScanIsSameJob(v: Worker, w: Worker, earlier: Trail, trail: Trail, row: ScanRow)
    requires w.database == v.database && w.start == v.start && !w.pc.Leaving? && row.state == Running
    requires trail.origin == earlier.origin && trail.start == earlier.start && earlier.visited <= trail.visited
    ensures SameJob(v, w, earlier, trail, row, row)
  {
  }

  /** Persisting a container's outcome: the row catches up with what was visited. */
  lemma AdvancedTells(c: Config, row: ScanRow, w: Worker, trail: Trail, cancelled: bool)
    requires RowTells(c, row, trail) && OnTrack(c, w, trail, cancelled) && w.pc.Advancing? && row.state == Running
    requires w.database == row.database && w.start == trail.start
    ensures
      var after := trail.(completed := trail.completed + 1);
      && RowTells(c, row.(cursor := Some(w.pc.info.containerName), done := w.tally.done, failed := w.tally.failed, skipped := w.tally.skipped), after)
      && OnTrack(c, w.(pc := Checking(w.pc.page, w.pc.next)), after, cancelled)
  {
    hide Todo, KeysOf, Ahead;
    var todo, v := TodoOf(c, row, trail), |trail.visited|;
    assert trail.visited[v - 1] == Names(todo)[v - 1] == todo[v - 1].containerName;
    assert trail.outcomes[..v] == trail.outcomes;
  }

  lemma AdvanceKeeps(c: Config, sys: System, job: JobId, w: Worker, trail: Trail)
    requires Inv(c, sys) && job in sys.workers && job < |sys.trails| && sys.workers[job].pc.Advancing?
    requires w == sys.workers[job].(pc := Checking(sys.workers[job].pc.page, sys.workers[job].pc.next))
    requires trail == sys.trails[job].(completed := sys.trails[job].completed + 1)
    ensures Inv(c, System(AdvanceScan(sys.store, job, sys.workers[job].pc.info.containerName, w.tally.done, w.tally.failed, w.tally.skipped),
                          sys.workers[job := w], sys.running, sys.cancels, sys.trails[job := trail]))
  {
    HeldBy(c, sys, job);
    hide Inv, Sound, RowTells, OnTrack;
    var v := sys.workers[job];
    AdvancedTells(c, sys.store.scans[job], v, sys.trails[job], sys.cancels[job]);
    var store := AdvanceScan(sys.store, job, v.pc.info.containerName, w.tally.done, w.tally.failed, w.tally.skipped);
    ScansDoNotMatter(sys.store, store);
    ReplaceKeeps(c, sys, job, store, w, store.scans[job], trail);
  }

  lemma DropKeeps(c: Config, sys: System, job: JobId, now: Time, w: Worker)
    requires Inv(c, sys) && job in sys.workers && sys.workers[job].pc.Dropping? && sys.workers[job].pc.keys != []
    requires w == sys.workers[job].(pc := Dropping(sys.workers[job].pc.keys[1..]))
    ensures Inv(c, sys.(store := RemoveContainer(sys.store, job, sys.workers[job].pc.keys[0], now), workers := sys.workers[job := w]))
  {
    HeldBy(c, sys, job);
    hide Inv, Sound, RowTells, Todo, KeysOf, Ahead;
    var store := RemoveContainer(sys.store, job, sys.workers[job].pc.keys[0], now);
    RemovalKeepsSound(sys.store, job, sys.workers[job].pc.keys[0], now);
    assert OnTrack(c, w, sys.trails[job], sys.cancels[job]);
    hide OnTrack;
    assert sys.store.scans == sys.store.scans[job := sys.store.scans[job]] && sys.trails == sys.trails[job := sys.trails[job]];
    ReplaceKeeps(c, sys, job, store, w, sys.store.scans[job], sys.trails[job]);
  }

  lemma FinishedTells(c: Config, row: ScanRow, w: Worker, trail: Trail, cancelled: bool, now: Time)
    requires RowTells(c, row, trail) && OnTrack(c, w, trail, cancelled) && w.pc.Finishing?
    requires w.database == row.database && w.start == trail.start
    ensures RowTells(c, row.(state := w.pc.state, error := w.pc.error, finishedAt := Some(now)), trail)
    ensures OnTrack(c, w.(pc := Leaving), trail, cancelled)
  {
    hide Todo, KeysOf, Ahead, Names;
  }

  lemma FinishKeeps(c: Config, sys: System, job: JobId, now: Time, w: Worker)
    requires Inv(c, sys) && job in sys.workers && sys.workers[job].pc.Finishing? && w == sys.workers[job].(pc := Leaving)
    ensures Inv(c, sys.(store := FinishScan(sys.store, job, sys.workers[job].pc.state, sys.workers[job].pc.error, now),
                        workers := sys.workers[job := w]))
  {
    HeldBy(c, sys, job);
    hide Inv, Sound, RowTells, OnTrack;
    var v := sys.workers[job];
    FinishedTells(c, sys.store.scans[job], v, sys.trails[job], sys.cancels[job], now);
    var store := FinishScan(sys.store, job, v.pc.state, v.pc.error, now);
    ScansDoNotMatter(sys.store, store);
    assert sys.trails == sys.trails[job := sys.trails[job]];
    ReplaceKeeps(c, sys, job, store, w, store.scans[job], sys.trails[job]);
  }

  lemma LeaveKeeps(c: Config, sys: System, job: JobId)
    requires Inv(c, sys) && job in sys.workers
    ensures Inv(c, sys.(workers := sys.workers - {job}, running := sys.running - {sys.workers[job].database}, cancels := sys.cancels - {job}))
  {
    var sys' := sys.(workers := sys.workers - {job}, running := sys.running - {sys.workers[job].database}, cancels := sys.cancels - {job});
    assert Books(sys') by {
      OneLess(sys.workers, job);
      hide Databases;
      forall j | j in sys'.workers ensures Booked(sys', j) { assert Booked(sys, j); }
    }
    hide RowTells, OnTrack, Sound, Books;
    forall j | 0 <= j < |sys'.trails| ensures JobHolds(c, sys', j) {
      assert JobHolds(c, sys, j);
    }
  }

  lemma OneLess(workers: map<JobId, Worker>, job: JobId)
    requires job in workers
    requires forall j :: j in workers && workers[j].database == workers[job].database ==> j == job
    ensures Databases(workers - {job}) == Databases(workers) - {workers[job].database}
  {
    forall database | database in Databases(workers) - {workers[job].database} ensures database in Databases(workers - {job}) {
      var j :| j in workers && workers[j].database == database;
      assert j in workers - {job} && (workers - {job})[j].database == database;
    }
  }

  lemma CancelKeeps(c: Config, sys: System, job: JobId)
    requires Inv(c, sys) && job in sys.cancels
    ensures Inv(c, sys.(cancels := sys.cancels[job := true]))
  {
    var sys' := sys.(cancels := sys.cancels[job := true]);
    assert Books(sys') by {
      hide Databases;
      forall j | j in sys'.workers ensures Booked(sys', j) { assert Booked(sys, j); }
    }
    hide RowTells, Sound, Todo, KeysOf, Books;
    forall j | 0 <= j < |sys'.trails| ensures JobHolds(c, sys', j) {
      assert JobHolds(c, sys, j);
    }
  }

  lemma CrashKeeps(c: Config, sys: System)
    requires Inv(c, sys)
    ensures Inv(c, sys.(workers := map[], running := {}, cancels := map[]))
  {
    var sys' := sys.(workers := map[], running := {}, cancels := map[]);
    hide RowTells, OnTrack, Sound;
    forall j | 0 <= j < |sys'.trails| ensures JobHolds(c, sys', j) {
      assert JobHolds(c, sys, j);
    }
  }

  lemma WriteKeeps(c: Config, sys: System, key: Key, description: Option<string>, annotations: seq<Annotation>, source: Source, now: Time)
    requires Inv(c, sys)
    ensures Inv(c, sys.(store := Annotate(sys.store, key, description, annotations, source, now)))
  {
    var sys' := sys.(store := Annotate(sys.store, key, description, annotations, source, now));
    AnnotateKeepsShape(sys.store, key, description, annotations, source, now);
    SoundUpToShape(sys.store, sys'.store);
    assert sys'.store.scans == sys.store.scans;
    hide RowTells, OnTrack, Sound, Annotate, Databases;
    forall j | j in sys'.workers ensures Booked(sys', j) { assert Booked(sys, j); }
    forall j | 0 <= j < |sys'.trails| ensures JobHolds(c, sys', j) {
      assert JobHolds(c, sys, j);
    }
  }

  // ---- coverage ----

  lemma {:induction false} TodoHas(catalog: seq<ContainerInfo>, start: Option<string>, info: ContainerInfo)
    requires info in catalog && (start.Some? ==> Before(start.value, info.containerName))
    ensures info in Todo(catalog, start)
  {
  }

  /** What lies between a run's start and its cursor, it visited. */
  lemma VisitedToCursor(c: Config, row: ScanRow, trail: Trail, info: ContainerInfo)
    requires IsCatalog(c.catalog(row.database)) && RowTells(c, row, trail) && row.cursor.Some?
    requires info in c.catalog(row.database) && !Before(row.cursor.value, info.containerName)
    requires trail.start.Some? ==> Before(trail.start.value, info.containerName)
    ensures info.containerName in trail.visited
  {
    hide Before, IsCatalog, Todo;
    var todo := TodoOf(c, row, trail);
    TodoHas(c.catalog(row.database), trail.start, info);
    assert trail.visited[trail.completed - 1] == Names(todo)[trail.completed - 1] == todo[trail.completed - 1].containerName;
    var k := VisitedUpTo(c.catalog(row.database), trail.start, trail.completed - 1, info);
    assert trail.visited[k] == Names(todo)[k] == todo[k].containerName;
  }

  /**
   The persisted cursor is honest: every container of the fixed catalog named up to
   it has been visited by that run or by a run it resumed from.
   */
  lemma CursorIsCovered(c: Config, sys: System, j: JobId)
    requires GoodConfig(c) && Inv(c, sys) && j < |sys.trails| && sys.store.scans[j].cursor.Some?
    ensures CoversUpTo(c, sys, sys.store.scans[j].database, j, sys.store.scans[j].cursor.value)
  {
    assert JobHolds(c, sys, j);
    var row, trail := sys.store.scans[j], sys.trails[j];
    assert IsCatalog(c.catalog(row.database));
    hide Inv, GoodConfig, Books, Sound, RowTells, OnTrack, Before, IsCatalog;
    forall info | info in c.catalog(row.database) && !Before(row.cursor.value, info.containerName)
      ensures info.containerName in Covered(sys.trails, j)
    {
      if trail.start.None? || Before(trail.start.value, info.containerName) {
        VisitedToCursor(c, row, trail, info);
      }
    }
  }

  /** In an ascending list, whatever is not behind the i-th name is among the first i + 1. */
  lemma VisitedUpTo(catalog: seq<ContainerInfo>, start: Option<string>, i: nat, info: ContainerInfo) returns (k: nat)
    requires IsCatalog(catalog) && i < |Todo(catalog, start)| && info in Todo(catalog, start)
    requires !Before(Todo(catalog, start)[i].containerName, info.containerName)
    ensures k <= i && Todo(catalog, start)[k] == info
  {
    StringsOrdered();
    AscendingLive(InfoName, Before, catalog, start);
    var todo := Todo(catalog, start);
    k :| k < |todo| && todo[k] == info;
    assert forall n :: i < n < |todo| ==> Before(InfoName(todo[i]), InfoName(todo[n]));
  }

  // ---- starting ----

  lemma OneMore(workers: map<JobId, Worker>, job: JobId, w: Worker)
    requires job !in workers
    ensures Databases(workers[job := w]) == Databases(workers) + {w.database}
  {
    var more := workers[job := w];
    forall database | database in Databases(workers) + {w.database} ensures database in Databases(more) {
      if database == w.database {
        assert job in more && more[job].database == database;
      } else {
        var j :| j in workers && workers[j].database == database;
        assert j in more && more[j].database == database;
      }
    }
  }

  lemma StartBooks(sys: System, database: Option<string>, previous: Option<JobId>, force: bool, now: Time)
    requires Books(sys) && database !in sys.running
    ensures Books(Started(sys, database, previous, force, now))
  {
    var sys', job := Started(sys, database, previous, force, now), |sys.store.scans|;
    forall j | j in sys.workers ensures j < job && sys.workers[j].database != database {
      assert Booked(sys, j) && sys.workers[j].database in Databases(sys.workers);
    }
    OneMore(sys.workers, job, sys'.workers[job]);
    hide Databases, CursorOf;
    forall j | j in sys'.workers ensures Booked(sys', j) {
      if j != job { assert Booked(sys, j); }
    }
  }

  lemma FreshHolds(c: Config, database: Option<string>, cursor: Option<string>, origin: Option<JobId>, force: bool, now: Time)
    ensures RowTells(c, ScanRow(database, Running, None, 0, 0, 0, None, now, None), Trail(origin, cursor, [], [], 0, 0))
    ensures OnTrack(c, Fresh(database, cursor, force), Trail(origin, cursor, [], [], 0, 0), false)
  {
    hide Todo;
    var todo := Todo(c.catalog(database), cursor);
    assert todo[0..] == todo && KeysOf(todo[..0]) == {} && Names(todo)[..0] == [];
  }

  lemma StartKeeps(c: Config, sys: System, database: Option<string>, previous: Option<JobId>, force: bool, now: Time)
    requires GoodConfig(c) && Inv(c, sys) && database !in sys.running
    requires previous.Some? ==> previous.value < |sys.store.scans| && sys.store.scans[previous.value].database == database
    ensures Inv(c, Started(sys, database, previous, force, now))
  {
    hide RowTells, OnTrack, Sound, Databases, Fresh;
    var sys', job, cursor := Started(sys, database, previous, force, now), |sys.store.scans|, CursorOf(sys.store, previous);
    if cursor.Some? { CursorIsCovered(c, sys, previous.value); }
    StartBooks(sys, database, previous, force, now);
    ScansDoNotMatter(sys.store, sys'.store);
    FreshHolds(c, database, cursor, if cursor.Some? then previous else None, force, now);
    forall j | 0 <= j < |sys'.trails| ensures JobHolds(c, sys', j) {
      if j < job {
        assert JobHolds(c, sys, j);
        StartStaysCovered(c, sys, sys', j);
      } else if cursor.Some? {
        CoveredGrows(sys.trails, sys'.trails, previous.value);
      }
    }
  }

  lemma AnswerIsOfDatabase(s: Store, database: Option<string>, previous: Option<JobId>)
    requires previous.None? || Answers(s, database, previous)
    ensures previous.Some? ==> previous.value < |s.scans| && s.scans[previous.value].database == database
  {
  }

  // ---- all runs ----

  /** What these steps make of the system, one by one. */
  lemma NextOutside(c: Config, sys: System, step: Step)
    requires Enabled(sys, step) && c.pageSize >= 1
    ensures step.Start? ==>
      Next(c, sys, step) == Started(sys, step.database, step.previous, step.force, step.now)
    ensures step.Cancel? ==>
      Next(c, sys, step) == if step.job in sys.cancels then sys.(cancels := sys.cancels[step.job := true]) else sys
    ensures step.Write? ==>
      Next(c, sys, step) == sys.(store := Annotate(sys.store, step.key, step.description, step.annotations, step.source, step.now))
    ensures step.Crash? ==> Next(c, sys, step) == sys.(workers := map[], running := {}, cancels := map[])
    ensures step.Leave? ==> step.job in sys.workers
    ensures step.Leave? ==>
      Next(c, sys, step) == sys.(workers := sys.workers - {step.job}, running := sys.running - {sys.workers[step.job].database},
                                 cancels := sys.cancels - {step.job})
    ensures step.Start? ==> step.database !in sys.running && (step.previous.None? || Answers(sys.store, step.database, step.previous))
  {
    hide Annotate, Started, Answers, Moved, CanMove, ScanContainer, OutcomeOf, AdvanceScan, FinishScan, RemoveContainer;
  }

  lemma OutsideKeepsInv(c: Config, sys: System, step: Step)
    requires GoodConfig(c) && Inv(c, sys) && Enabled(sys, step)
    requires step.Start? || step.Cancel? || step.Write? || step.Crash? || step.Leave?
    ensures Inv(c, Next(c, sys, step))
  {
    assert c.pageSize >= 1;
    hide *;
    NextOutside(c, sys, step);
    match step
    case Start(database, resume, previous, force, now) =>
      AnswerIsOfDatabase(sys.store, database, previous);
      StartKeeps(c, sys, database, previous, force, now);
    case Cancel(job) => if job in sys.cancels { CancelKeeps(c, sys, job); }
    case Write(key, description, annotations, source, now) => WriteKeeps(c, sys, key, description, annotations, source, now);
    case Crash => CrashKeeps(c, sys);
    case Leave(job) => LeaveKeeps(c, sys, job);
  }

  lemma ScanKeepsInv(c: Config, sys: System, job: JobId, reading: Reading, now: Time)
    requires GoodConfig(c) && Inv(c, sys) && Enabled(sys, ScanOne(job, reading, now))
    ensures c.pageSize >= 1 && Inv(c, Next(c, sys, ScanOne(job, reading, now)))
  {
    assert c.pageSize >= 1;
    hide Inv, GoodConfig, Sound, ScanContainer, OutcomeOf, KeyOf, Count;
    var w, sys' := sys.workers[job], Next(c, sys, ScanOne(job, reading, now));
    ScanStore(c, sys, job, reading, now);
    ScanOneKeeps(c, sys, job, OutcomeOf(sys.store, w.pc.info, reading, w.force), sys'.store, sys'.workers[job], sys'.trails[job]);
  }

  lemma TurnKeepsInv(c: Config, sys: System, job: JobId, move: Move)
    requires GoodConfig(c) && Inv(c, sys) && Enabled(sys, Turn(job, move)) && c.pageSize >= 1
    ensures Inv(c, Next(c, sys, Turn(job, move)))
  {
    hide Inv, GoodConfig, Moved, CanMove;
    TurnKeeps(c, sys, job, move);
  }

  lemma WorkKeepsInv(c: Config, sys: System, step: Step)
    requires GoodConfig(c) && Inv(c, sys) && Enabled(sys, step) && c.pageSize >= 1
    requires step.Advance? || step.Drop? || step.Finish?
    ensures Inv(c, Next(c, sys, step))
  {
    hide Inv, GoodConfig, Sound, RemoveContainer, AdvanceScan, FinishScan;
    match step
    case Advance(job) => AdvanceKeeps(c, sys, job, Next(c, sys, step).workers[job], Next(c, sys, step).trails[job]);
    case Drop(job, now) => DropKeeps(c, sys, job, now, Next(c, sys, step).workers[job]);
    case Finish(job, now) => FinishKeeps(c, sys, job, now, Next(c, sys, step).workers[job]);
  }

  lemma StepKeepsInv(c: Config, sys: System, step: Step)
    requires GoodConfig(c) && Inv(c, sys) && Enabled(sys, step)
    ensures Inv(c, Next(c, sys, step))
  {
    assert c.pageSize >= 1;
    hide *;
    if step.ScanOne? {
      ScanKeepsInv(c, sys, step.job, step.reading, step.now);
    } else if step.Turn? {
      TurnKeepsInv(c, sys, step.job, step.move);
    } else if step.Advance? || step.Drop? || step.Finish? {
      WorkKeepsInv(c, sys, step);
    } else {
      OutsideKeepsInv(c, sys, step);
    }
  }

  lemma ScanStore(c: Config, sys: System, job: JobId, reading: Reading, now: Time)
    requires Inv(c, sys) && job in sys.workers && sys.workers[job].pc.Scanning?
    ensures
      var w := sys.workers[job];
      var store := ScanContainer(sys.store, job, w.pc.info, reading, w.force, now);
      Sound(store) && store.scans == sys.store.scans
  {
    var w := sys.workers[job];
    assert Sound(sys.store);
    hide Inv;
    ScanKeys(sys.store, job, w.pc.info, reading, w.force, now);
    ScanKeepsSound(sys.store, job, w.pc.info, reading, w.force, now);
  }

  lemma InitialHolds(c: Config)
    ensures Inv(c, INITIAL)
  {
  }

  /** What every reachable state keeps: for every interleaving, with crashes and exceptions at any step. */
  lemma {:induction false} RunsKeepInv(c: Config, systems: seq<System>, steps: seq<Step>, i: nat)
    requires GoodConfig(c) && IsRun(c, systems, steps) && i < |systems|
    ensures Inv(c, systems[i])
  {
    hide Inv, Next, Enabled;
    if i == 0 {
      InitialHolds(c);
    } else {
      RunsKeepInv(c, systems, steps, i - 1);
      StepKeepsInv(c, systems[i - 1], steps[i - 1]);
    }
  }

  /**
   Coverage across crashes: in every reachable state, every container of the fixed
   catalog named up to a job's persisted cursor has been visited by that job or by a
   run it resumed from; and a job that is done has, with those runs, visited them all.
   */
  lemma CoverageAcrossResumes(c: Config, systems: seq<System>, steps: seq<Step>, i: nat, j: JobId)
    requires GoodConfig(c) && IsRun(c, systems, steps) && i < |systems| && j < |systems[i].trails| == |systems[i].store.scans|
    ensures
      var sys := systems[i];
      var row := sys.store.scans[j];
      && (row.cursor.Some? ==> CoversUpTo(c, sys, row.database, j, row.cursor.value))
      && (row.state == Done ==>
            forall info :: info in c.catalog(row.database) ==> info.containerName in Covered(sys.trails, j))
  {
    RunsKeepInv(c, systems, steps, i);
    var sys := systems[i];
    var row := sys.store.scans[j];
    if row.cursor.Some? { CursorIsCovered(c, sys, j); }
    if row.state == Done { DoneCoversAll(c, sys, j); }
  }

  lemma DoneCoversAll(c: Config, sys: System, j: JobId)
    requires GoodConfig(c) && Inv(c, sys) && j < |sys.trails| && sys.store.scans[j].state == Done
    ensures forall info :: info in c.catalog(sys.store.scans[j].database) ==> info.containerName in Covered(sys.trails, j)
  {
    assert JobHolds(c, sys, j);
    var row, trail := sys.store.scans[j], sys.trails[j];
    var catalog, todo := c.catalog(row.database), TodoOf(c, row, trail);
    forall info | info in catalog ensures info.containerName in Covered(sys.trails, j) {
      if trail.start.None? || Before(trail.start.value, info.containerName) {
        TodoHas(catalog, trail.start, info);
        var k :| 0 <= k < |todo| && todo[k] == info;
        assert trail.visited[k] == Names(todo)[..|trail.visited|][k] == todo[k].containerName;
      }
    }
  }

  /** One run visits in strictly increasing order, so no container twice, and its row counts what was persisted. */
  lemma VisitsAscend(c: Config, systems: seq<System>, steps: seq<Step>, i: nat, j: JobId)
    requires GoodConfig(c) && IsRun(c, systems, steps) && i < |systems| && j < |systems[i].trails| == |systems[i].store.scans|
    ensures
      var trail, row := systems[i].trails[j], systems[i].store.scans[j];
      && Increasing(Before, trail.visited)
      && row.done + row.failed + row.skipped == trail.completed <= |trail.visited| <= trail.completed + 1
      && row.cursor == (if trail.completed == 0 then None else Some(trail.visited[trail.completed - 1]))
  {
    RunsKeepInv(c, systems, steps, i);
    assert JobHolds(c, systems[i], j);
    var row, trail := systems[i].store.scans[j], systems[i].trails[j];
    var todo := TodoOf(c, row, trail);
    StringsOrdered();
    AscendingLive(InfoName, Before, c.catalog(row.database), trail.start);
    forall a, b | 0 <= a < b < |trail.visited| ensures Before(trail.visited[a], trail.visited[b]) {
      assert trail.visited[a] == Names(todo)[a] == InfoName(todo[a]) && trail.visited[b] == Names(todo)[b] == InfoName(todo[b]);
    }
  }

  /** At most one live worker a database, and `running` is exactly the databases of the live workers. */
  lemma OneWorkerPerDatabase(c: Config, systems: seq<System>, steps: seq<Step>, i: nat)
    requires GoodConfig(c) && IsRun(c, systems, steps) && i < |systems|
    ensures
      var sys := systems[i];
      && sys.running == (set j | j in sys.workers :: sys.workers[j].database)
      && (forall j, k :: j in sys.workers && k in sys.workers && sys.workers[j].database == sys.workers[k].database ==> j == k)
  {
    RunsKeepInv(c, systems, steps, i);
  }

  /** After a cancel request at most one more container is scanned. */
  lemma CancelStopsSoon(c: Config, systems: seq<System>, steps: seq<Step>, i: nat, j: JobId)
    requires GoodConfig(c) && IsRun(c, systems, steps) && i < |systems| && j < |systems[i].trails|
    ensures systems[i].trails[j].afterCancel <= 1
  {
    RunsKeepInv(c, systems, steps, i);
    assert JobHolds(c, systems[i], j);
  }

  /** While a job's event is set, each container it begins counts as one begun after a cancel request. */
  lemma StepAfterCancel(c: Config, sys: System, step: Step, j: JobId)
    requires c.pageSize >= 1 && Enabled(sys, step) && j < |sys.trails| && |sys.trails| == |sys.store.scans|
    requires sys.cancels.Keys == sys.workers.Keys && (j in sys.workers ==> sys.cancels[j])
    ensures j < |Next(c, sys, step).trails|
    ensures
      var before, after := sys.trails[j], Next(c, sys, step).trails[j];
      |after.visited| - |before.visited| == after.afterCancel - before.afterCancel
    ensures j in Next(c, sys, step).workers ==> j in Next(c, sys, step).cancels && Next(c, sys, step).cancels[j]
  {
    hide ScanContainer, OutcomeOf, AdvanceScan, FinishScan, RemoveContainer, Annotate, Moved, CanMove, Answers, Count;
  }

  lemma WhatBooksSay(c: Config, sys: System)
    requires Inv(c, sys)
    ensures |sys.trails| == |sys.store.scans| && sys.cancels.Keys == sys.workers.Keys
  {
  }

  lemma {:induction false} SinceCancelled(c: Config, systems: seq<System>, steps: seq<Step>, i: nat, k: nat, j: JobId)
    requires GoodConfig(c) && IsRun(c, systems, steps) && i < k < |systems|
    requires steps[i] == Cancel(j) && j in systems[i].workers && j < |systems[i].trails|
    ensures j < |systems[k].trails| && (j in systems[k].workers ==> j in systems[k].cancels && systems[k].cancels[j])
    ensures |systems[k].trails[j].visited| - |systems[i].trails[j].visited|
         == systems[k].trails[j].afterCancel - systems[i].trails[j].afterCancel
    decreases k
  {
    hide Inv, Next, Enabled, GoodConfig;
    GoodPageSize(c);
    if k == i + 1 {
      RunsKeepInv(c, systems, steps, i);
      WhatBooksSay(c, systems[i]);
      CancelSets(c, systems[i], j);
    } else {
      SinceCancelled(c, systems, steps, i, k - 1, j);
      RunsKeepInv(c, systems, steps, k - 1);
      WhatBooksSay(c, systems[k - 1]);
      StepAfterCancel(c, systems[k - 1], steps[k - 1], j);
    }
  }

  lemma CancelSets(c: Config, sys: System, j: JobId)
    requires c.pageSize >= 1 && j in sys.cancels
    ensures Enabled(sys, Cancel(j))
    ensures
      var sys' := Next(c, sys, Cancel(j));
      sys'.trails == sys.trails && j in sys'.cancels && sys'.cancels[j]
  {
  }

  /** A cancel request is heeded: from then on the job visits at most one container more. */
  lemma CancelIsHeeded(c: Config, systems: seq<System>, steps: seq<Step>, i: nat, k: nat, j: JobId)
    requires GoodConfig(c) && IsRun(c, systems, steps) && i < k < |systems|
    requires steps[i] == Cancel(j) && j in systems[i].workers
    ensures j < |systems[i].trails| && j < |systems[k].trails|
    ensures |systems[k].trails[j].visited| <= |systems[i].trails[j].visited| + 1
  {
    RunsKeepInv(c, systems, steps, i);
    HeldBy(c, systems[i], j);
    hide Inv, Next, Enabled, GoodConfig;
    SinceCancelled(c, systems, steps, i, k, j);
    CancelStopsSoon(c, systems, steps, k, j);
  }

  // ---- what is counted ----

  /** A step of this run scanned this container for the job, and this is what came of it. */
  ghost predicate ScannedAt(c: Config, systems: seq<System>, steps: seq<Step>, p: nat, j: JobId, name: string, outcome: Outcome)
    requires c.pageSize >= 1 && IsRun(c, systems, steps)
  {
    && p < |steps| && steps[p].ScanOne? && steps[p].job == j && j in systems[p].workers
    && var w := systems[p].workers[j];
       && w.pc.Scanning? && w.pc.info.containerName == name
       && OutcomeTells(systems[p].store, w.pc.info, steps[p].reading, w.force, outcome)
  }

  /** What a step does to the list of a job's outcomes. */
  lemma StepOutcomes(c: Config, sys: System, step: Step, j: JobId)
    requires c.pageSize >= 1 && Enabled(sys, step) && j < |sys.trails|
    ensures j < |Next(c, sys, step).trails|
    ensures
      var before, after := sys.trails[j], Next(c, sys, step).trails[j];
      if step.ScanOne? && step.job == j then
        && j in sys.workers && sys.workers[j].pc.Scanning?
        && var w := sys.workers[j];
           && after.visited == before.visited + [w.pc.info.containerName]
           && after.outcomes == before.outcomes + [OutcomeOf(sys.store, w.pc.info, step.reading, w.force)]
      else after.visited == before.visited && after.outcomes == before.outcomes
  {
    hide ScanContainer, OutcomeOf, AdvanceScan, FinishScan, RemoveContainer, Annotate, Moved, CanMove, Answers, Count;
  }

  lemma NewTrail(c: Config, sys: System, step: Step, j: JobId)
    requires c.pageSize >= 1 && Enabled(sys, step) && |sys.trails| <= j < |Next(c, sys, step).trails|
    ensures Next(c, sys, step).trails[j].outcomes == [] && Next(c, sys, step).trails[j].visited == []
  {
    hide ScanContainer, OutcomeOf, AdvanceScan, FinishScan, RemoveContainer, Annotate, Moved, CanMove, Answers, Count;
  }

  /** Every outcome of a job is that of a scan it made, read against the tables as they were just before it. */
  lemma {:induction false} OutcomesAreOfScans(c: Config, systems: seq<System>, steps: seq<Step>, i: nat, j: JobId, n: nat) returns (p: nat)
    requires GoodConfig(c) && IsRun(c, systems, steps) && i < |systems| && j < |systems[i].trails|
    requires n < |systems[i].trails[j].outcomes| == |systems[i].trails[j].visited|
    ensures p < i && ScannedAt(c, systems, steps, p, j, systems[i].trails[j].visited[n], systems[i].trails[j].outcomes[n])
  {
    hide Next, Enabled, OutcomeTells, OutcomeOf, GoodConfig;
    GoodPageSize(c);
    if i > 0 {
      var before, step := systems[i - 1], steps[i - 1];
      if j < |before.trails| {
        StepOutcomes(c, before, step, j);
        if step.ScanOne? && step.job == j && n == |systems[i].trails[j].outcomes| - 1 {
          p := i - 1;
          var w := before.workers[j];
          OutcomeOfTells(before.store, w.pc.info, step.reading, w.force);
        } else {
          p := OutcomesAreOfScans(c, systems, steps, i - 1, j, n);
        }
      } else {
        NewTrail(c, before, step, j);
      }
    }
  }

  lemma GoodPageSize(c: Config)
    requires GoodConfig(c)
    ensures c.pageSize >= 1
  {
  }

  /** A job's row counts, kind by kind, the persisted ones among its outcomes, and says when and why the job ended. */
  lemma RowsCount(c: Config, systems: seq<System>, steps: seq<Step>, i: nat, j: JobId)
    requires GoodConfig(c) && IsRun(c, systems, steps) && i < |systems| && j < |systems[i].trails| == |systems[i].store.scans|
    ensures
      var trail, row := systems[i].trails[j], systems[i].store.scans[j];
      && trail.completed <= |trail.outcomes| == |trail.visited|
      && row.done == multiset(trail.outcomes[..trail.completed])[Scanned]
      && row.failed == multiset(trail.outcomes[..trail.completed])[Unread]
      && row.skipped == multiset(trail.outcomes[..trail.completed])[Skipped]
      && (row.state == Running <==> row.finishedAt.None?) && (row.state == Failed <==> row.error.Some?)
  {
    RunsKeepInv(c, systems, steps, i);
    assert JobHolds(c, systems[i], j);
  }

  // ---- a job leaves `running` at most once ----

  lemma SettledRowsStay(c: Config, sys: System, step: Step, j: JobId)
    requires GoodConfig(c) && Inv(c, sys) && Enabled(sys, step)
    requires j < |sys.store.scans| && sys.store.scans[j].state != Running
    ensures j < |Next(c, sys, step).store.scans| && Next(c, sys, step).store.scans[j] == sys.store.scans[j]
  {
    assert c.pageSize >= 1;
    if step.ScanOne? || step.Advance? || step.Drop? || step.Finish? {
      HeldBy(c, sys, step.job);
    }
    if step.ScanOne? { ScanStore(c, sys, step.job, step.reading, step.now); }
    hide Inv, GoodConfig, Sound, ScanContainer, OutcomeOf, ReadPage, Gone, RowTells, OnTrack;
  }

  /** Once a job is done, failed or cancelled its row never changes again. */
  lemma {:induction false} LeavesRunningOnce(c: Config, systems: seq<System>, steps: seq<Step>, i: nat, k: nat, j: JobId)
    requires GoodConfig(c) && IsRun(c, systems, steps) && i <= k < |systems|
    requires j < |systems[i].store.scans| && systems[i].store.scans[j].state != Running
    ensures j < |systems[k].store.scans| && systems[k].store.scans[j] == systems[i].store.scans[j]
  {
    hide Next, Enabled, Inv;
    if i < k {
      LeavesRunningOnce(c, systems, steps, i, k - 1, j);
      RunsKeepInv(c, systems, steps, k - 1);
      SettledRowsStay(c, systems[k - 1], steps[k - 1], j);
    }
  }

  // ---- a run ends ----

  /** Where a worker is within one container's worth of work; it only goes down until the next one. */
  function Stage(pc: Pc): nat {
    match pc
    case Connecting => 11
    case Advancing(_, _, _) => 10
    case Checking(page, next) => if page != [] then 7 else if next.Some? then 9 else 5
    case Listing => 8
    case Scanning(_, _, _) => 6
    case Removing => 4
    case Dropping(_) => 3
    case Finishing(state, _) => if state == Failed then 1 else 2
    case Leaving => 0
  }

  function KeysLeft(pc: Pc): nat {
    if pc.Dropping? then |pc.keys| else 0
  }

  predicate Below(a: (nat, nat, nat), b: (nat, nat, nat)) {
    a.0 < b.0 || (a.0 == b.0 && (a.1 < b.1 || (a.1 == b.1 && a.2 < b.2)))
  }

  /** This order is well founded: nothing goes down it for ever. */
  lemma DescentEnds(f: nat -> (nat, nat, nat))
    ensures exists i: nat :: !Below(f(i + 1), f(i))
  {
    if forall i: nat :: Below(f(i + 1), f(i)) { NoEndlessDescent(f, 0); }
  }

  lemma {:induction false} NoEndlessDescent(f: nat -> (nat, nat, nat), i: nat)
    requires forall j: nat :: Below(f(j + 1), f(j))
    ensures false
    decreases f(i).0, f(i).1, f(i).2
  {
    assert Below(f(i + 1), f(i));
    NoEndlessDescent(f, i + 1);
  }

  /** Containers still to visit, stage within the current one, removals still to record. */
  function Measure(c: Config, w: Worker, trail: Trail): (nat, nat, nat) {
    var size := |Todo(c.catalog(w.database), w.start)|;
    (if |trail.visited| <= size then size - |trail.visited| else 0, Stage(w.pc), KeysLeft(w.pc))
  }

  ghost predicate Descends(c: Config, sys: System, sys': System, job: JobId) {
    && job in sys.workers && job < |sys.trails| && job < |sys'.trails|
    && (job in sys'.workers ==>
          Below(Measure(c, sys'.workers[job], sys'.trails[job]), Measure(c, sys.workers[job], sys.trails[job])))
  }

  predicate IsStepOf(step: Step, job: JobId) {
    (step.Turn? || step.ScanOne? || step.Advance? || step.Drop? || step.Finish? || step.Leave?) && step.job == job
  }

  /** A page that is not the last is never empty. */
  lemma ListedPage(c: Config, w: Worker, trail: Trail, cancelled: bool)
    requires GoodConfig(c) && w.pc.Listing? && OnTrack(c, w, trail, cancelled)
    ensures
      var page := ReadPage(InfoName, Before, c.catalog(w.database), w.at, c.pageSize);
      page.rows == [] ==> page.next.None?
  {
    PageOfTodo(c.catalog(w.database), w.at, c.pageSize);
  }

  lemma MovedDescends(c: Config, s: Store, w: Worker, trail: Trail, cancelled: bool, move: Move)
    requires GoodConfig(c) && CanMove(w, move) && OnTrack(c, w, trail, cancelled)
    ensures Stage(Moved(c, s, w, cancelled, move).pc) < Stage(w.pc)
  {
    hide Gone, ReadPage, OnTrack;
    if move == List { ListedPage(c, w, trail, cancelled); }
  }

  lemma TurnDescends(c: Config, sys: System, job: JobId, w: Worker)
    requires job in sys.workers && job < |sys.trails|
    requires w.database == sys.workers[job].database && w.start == sys.workers[job].start
    requires Stage(w.pc) < Stage(sys.workers[job].pc)
    ensures Descends(c, sys, sys.(workers := sys.workers[job := w]), job)
  {
    hide Todo, Stage;
  }

  lemma ScanDescends(c: Config, sys: System, job: JobId, reading: Reading, now: Time)
    requires GoodConfig(c) && Inv(c, sys) && Enabled(sys, ScanOne(job, reading, now)) && c.pageSize >= 1
    ensures Descends(c, sys, Next(c, sys, ScanOne(job, reading, now)), job)
  {
    assert job in sys.workers && sys.workers[job].pc.Scanning?;
    HeldBy(c, sys, job);
    WhatScanningMeans(c, sys.workers[job], sys.trails[job], sys.cancels[job]);
    hide Inv, GoodConfig, Sound, ScanContainer, OutcomeOf, RowTells, OnTrack, Todo, KeyOf, Count;
  }

  lemma WorkDescends(c: Config, sys: System, step: Step)
    requires GoodConfig(c) && Inv(c, sys) && Enabled(sys, step) && c.pageSize >= 1
    requires step.Advance? || step.Drop? || step.Finish? || step.Leave?
    ensures Descends(c, sys, Next(c, sys, step), step.job)
  {
    hide Inv, GoodConfig, Sound, RowTells, OnTrack, Todo, RemoveContainer, AdvanceScan, FinishScan;
    HeldBy(c, sys, step.job);
  }

  /** Which steps are a worker's own, and what a turn is. */
  lemma StepOfJob(c: Config, sys: System, step: Step, job: JobId)
    requires GoodConfig(c) && Enabled(sys, step) && IsStepOf(step, job) && job in sys.workers
    ensures c.pageSize >= 1
    ensures step.Turn? ==>
      && job in sys.cancels && CanMove(sys.workers[job], step.move)
      && var w, w' := sys.workers[job], Moved(c, sys.store, sys.workers[job], sys.cancels[job], step.move);
         w'.database == w.database && w'.start == w.start && Next(c, sys, step) == sys.(workers := sys.workers[job := w'])
    ensures !step.Turn? ==>
      (step.ScanOne? || step.Advance? || step.Drop? || step.Finish? || step.Leave?) && step.job == job
  {
    hide ReadPage, Gone, ScanContainer, AdvanceScan, FinishScan, RemoveContainer, Annotate;
  }

  /** Every step of a worker brings it closer to its end, in the lexicographic order of a well-founded measure. */
  lemma WorkerStepsDescend(c: Config, sys: System, step: Step, job: JobId)
    requires GoodConfig(c) && Inv(c, sys) && Enabled(sys, step) && IsStepOf(step, job) && job in sys.workers
    ensures Descends(c, sys, Next(c, sys, step), job)
  {
    hide *;
    StepOfJob(c, sys, step, job);
    if step.Turn? {
      HeldBy(c, sys, job);
      var w := sys.workers[job];
      MovedDescends(c, sys.store, w, sys.trails[job], sys.cancels[job], step.move);
      TurnDescends(c, sys, job, Moved(c, sys.store, w, sys.cancels[job], step.move));
    } else {
      if step.ScanOne? {
        ScanDescends(c, sys, job, step.reading, step.now);
      } else {
        WorkDescends(c, sys, step);
      }
    }
  }

  lemma WhatScanningMeans(c: Config, w: Worker, trail: Trail, cancelled: bool)
    requires w.pc.Scanning? && OnTrack(c, w, trail, cancelled)
    ensures |trail.visited| < |Todo(c.catalog(w.database), w.start)|
  {
    assert |Todo(c.catalog(w.database), w.start)[|trail.visited|..]| >= 1;
  }

  ghost predicate Stays(c: Config, sys: System, sys': System, job: JobId) {
    && job in sys.workers && job < |sys.trails| && job < |sys'.trails|
    && (job in sys'.workers ==>
          Measure(c, sys'.workers[job], sys'.trails[job]) == Measure(c, sys.workers[job], sys.trails[job]))
  }

  /** A step of someone else leaves a worker's variables and its history as they are. */
  lemma OthersStay(c: Config, sys: System, step: Step, job: JobId)
    requires Inv(c, sys) && Enabled(sys, step) && c.pageSize >= 1 && job in sys.workers && !IsStepOf(step, job)
    ensures job < |sys.trails| && job < |Next(c, sys, step).trails| && Next(c, sys, step).trails[job] == sys.trails[job]
    ensures job in Next(c, sys, step).workers ==> Next(c, sys, step).workers[job] == sys.workers[job]
    ensures step.ScanOne? || step.Drop? ==> step.job != job
  {
    HeldBy(c, sys, job);
    hide Inv, Sound, RowTells, OnTrack, ScanContainer, OutcomeOf, AdvanceScan, FinishScan, RemoveContainer, Annotate,
      Moved, CanMove, Started, Answers;
    if step.Start? { StartLeavesOthers(sys, step, job); }
  }

  lemma StartLeavesOthers(sys: System, step: Step, job: JobId)
    requires step.Start? && job in sys.workers && job < |sys.trails| == |sys.store.scans|
    ensures
      var sys' := Started(sys, step.database, step.previous, step.force, step.now);
      && job < |sys'.trails| && sys'.trails[job] == sys.trails[job]
      && job in sys'.workers && sys'.workers[job] == sys.workers[job]
  {
    hide CursorOf;
  }

  /** Nothing anyone else does moves a worker back. */
  lemma OthersLeaveMeasure(c: Config, sys: System, step: Step, job: JobId)
    requires GoodConfig(c) && Inv(c, sys) && Enabled(sys, step) && !IsStepOf(step, job) && job in sys.workers
    ensures Stays(c, sys, Next(c, sys, step), job)
  {
    assert c.pageSize >= 1;
    hide Inv, GoodConfig, Next, Enabled, Measure;
    OthersStay(c, sys, step, job);
  }
}
