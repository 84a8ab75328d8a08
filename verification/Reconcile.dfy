/**
 Reconciliation while scans of several databases interleave: when a run that began
 without a cursor is done, the stored containers in its scope are exactly those of
 its catalog; and what a chain of resumed runs visited is still stored at its end.

 Both need the scans that are live at the same time to agree with this one about
 the containers both are about.  A scan that named no database is about all of them.
 */
module Reconcile {
  import opened Wrappers
  import opened Ordering
  import opened Keyset
  import opened Contracts
  import opened Tables
  import opened Scan
  import opened Runs
  import opened ScanService

  // ---- which scans get on ----

  /** A scan of this database finds nothing outside its own scope. */
  ghost predicate KeepsToScope(c: Config, database: Option<string>) {
    forall k :: k in KeysOf(c.catalog(database)) ==> InScope(database, k)
  }

  /** Of the other's catalog, a scan of this database finds all that is in its own scope. */
  ghost predicate Spares(c: Config, database: Option<string>, other: Option<string>) {
    forall k :: k in KeysOf(c.catalog(other)) && InScope(database, k) ==> k in KeysOf(c.catalog(database))
  }

  predicate Apart(database: Option<string>, other: Option<string>) {
    database.Some? && other.Some? && database.value != "" && other.value != "" && database.value != other.value
  }

  /**
   A scan that may be live beside one of this database.  What it finds in the scope
   of that one is in that one's catalog; and if it removes, which it does only when
   it began without a cursor, it finds what that one finds, or, where the two are to
   be kept apart, their scopes have nothing in common.
   */
  ghost predicate GetsOn(c: Config, w: Worker, database: Option<string>, apart: bool) {
    && Spares(c, database, w.database)
    && (w.start.None? ==> if apart then Apart(w.database, database) else Spares(c, w.database, database))
  }

  /** So has every scan that was live together with this job. */
  ghost predicate Undisturbed(c: Config, systems: seq<System>, i: nat, job: JobId, apart: bool)
    requires i < |systems|
  {
    forall m :: 0 <= m <= i && job in systems[m].workers ==> Beside(c, systems[m], job, apart)
  }

  ghost predicate Beside(c: Config, sys: System, job: JobId, apart: bool)
    requires job in sys.workers
  {
    forall j :: j in sys.workers && j != job ==> GetsOn(c, sys.workers[j], sys.workers[job].database, apart)
  }

  /** Scans of different databases, each naming its own and labelled with it, get on. */
  lemma NamedGetOn(c: Config, w: Worker, d: string, apart: bool)
    requires d != "" && Labelled(c.catalog(Some(d)), d)
    requires w.database.Some? && w.database.value !in {"", d} && Labelled(c.catalog(w.database), w.database.value)
    ensures KeepsToScope(c, Some(d)) && GetsOn(c, w, Some(d), apart)
  {
  }

  /** No less will do: where all the other finds is stored, a removal takes nothing of it if and only if it is spared. */
  lemma RemovalSparesIff(c: Config, s: Store, database: Option<string>, other: Option<string>)
    requires KeysOf(c.catalog(other)) <= s.containers.Keys
    ensures (forall k :: k in Gone(s, database, KeysOf(c.catalog(database))) ==> k !in KeysOf(c.catalog(other)))
       <==> Spares(c, database, other)
  {
    GoneHas(s, database, KeysOf(c.catalog(database)));
    hide Gone, KeysOf;
    forall k | k in KeysOf(c.catalog(other)) && InScope(database, k)
      ensures k in Gone(s, database, KeysOf(c.catalog(database))) <==> k !in KeysOf(c.catalog(database))
    {
      assert k in ContainerKeys(s, database);
    }
  }

  // ---- what a worker knows ----

  ghost predicate NoRepeats<T>(s: seq<T>) {
    forall i, j :: 0 <= i < j < |s| ==> s[i] != s[j]
  }

  /** What a worker knows about the stored keys in its scope. */
  ghost predicate KeepsTrack(s: Store, w: Worker, apart: bool) {
    && w.seen <= ContainerKeys(s, w.database)
    && (w.pc.Dropping? ==>
          && NoRepeats(w.pc.keys)
          && (forall k :: k in w.pc.keys ==> k !in w.seen && (apart ==> k in ContainerKeys(s, w.database)))
          && forall k :: k in ContainerKeys(s, w.database) && k !in w.seen ==> k in w.pc.keys)
    && (w.pc.Finishing? && w.pc.state == Done && w.start.None? ==> ContainerKeys(s, w.database) == w.seen)
  }

  /** A worker removes only what is in its scope and it has not seen. */
  ghost predicate DropsOwn(w: Worker) {
    w.pc.Dropping? ==> forall k :: k in w.pc.keys ==> k !in w.seen && InScope(w.database, k)
  }

  ghost predicate AllDropOwn(sys: System) {
    forall j :: j in sys.workers ==> DropsOwn(sys.workers[j])
  }

  lemma SeenIsHome(c: Config, w: Worker, trail: Trail, cancelled: bool)
    requires OnTrack(c, w, trail, cancelled)
    ensures w.seen <= KeysOf(c.catalog(w.database))
    ensures w.pc.Scanning? ==> w.pc.info in c.catalog(w.database)
    ensures w.start.None? && (w.pc.Dropping? || (w.pc.Finishing? && w.pc.state == Done)) ==> w.seen == KeysOf(c.catalog(w.database))
  {
    var todo, v := Todo(c.catalog(w.database), w.start), |trail.visited|;
    assert forall info :: info in todo ==> info in c.catalog(w.database);
    assert v == |todo| ==> todo[..v] == todo;
    if w.pc.Scanning? {
      assert w.pc.info == ([w.pc.info] + w.pc.page + Ahead(c, w.database, w.pc.next))[0] == todo[v..][0] == todo[v];
    }
  }

  // ---- removals are a worker's own ----

  lemma MovedDropsOwn(c: Config, s: Store, w: Worker, cancelled: bool, move: Move)
    requires c.pageSize >= 1 && CanMove(w, move) && DropsOwn(w)
    ensures DropsOwn(Moved(c, s, w, cancelled, move))
  {
    hide Gone, ContainerKeys, ReadPage;
    if move == Plan && w.start.None? { GoneOnce(s, w.database, w.seen); }
  }

  lemma StepDropsOwn(c: Config, sys: System, step: Step)
    requires c.pageSize >= 1 && Enabled(sys, step) && AllDropOwn(sys)
    ensures AllDropOwn(Next(c, sys, step))
  {
    var sys' := Next(c, sys, step);
    hide Moved, Started, ScanContainer, OutcomeOf, AdvanceScan, FinishScan, RemoveContainer, Annotate, DropsOwn, CanMove;
    if step.Turn? {
      MovedDropsOwn(c, sys.store, sys.workers[step.job], sys.cancels[step.job], step.move);
    } else if step.Start? {
      StartDropsOwn(sys, step);
    } else {
      forall j | j in sys'.workers ensures DropsOwn(sys'.workers[j]) {
        assert DropsOwn(sys.workers[j]);
        SmallerDropsOwn(sys.workers[j], sys'.workers[j]);
      }
    }
  }

  lemma StartDropsOwn(sys: System, step: Step)
    requires step.Start? && AllDropOwn(sys)
    ensures AllDropOwn(Started(sys, step.database, step.previous, step.force, step.now))
  {
  }

  lemma SmallerDropsOwn(w: Worker, w': Worker)
    requires DropsOwn(w) && w'.database == w.database
    requires w' == w || !w'.pc.Dropping? || (w.pc.Dropping? && w'.seen == w.seen && w.pc.keys != [] && w'.pc.keys == w.pc.keys[1..])
    ensures DropsOwn(w')
  {
  }

  lemma {:induction false} RunsDropOwn(c: Config, systems: seq<System>, steps: seq<Step>, i: nat)
    requires GoodConfig(c) && IsRun(c, systems, steps) && i < |systems|
    ensures AllDropOwn(systems[i])
  {
    hide Next, Enabled;
    if i > 0 {
      RunsDropOwn(c, systems, steps, i - 1);
      StepDropsOwn(c, systems[i - 1], steps[i - 1]);
    }
  }

  /** What a worker is about to remove is not in the catalog of a database it spares. */
  lemma DropSpares(c: Config, sys: System, job: JobId, other: Option<string>)
    requires Inv(c, sys) && AllDropOwn(sys) && job in sys.workers && sys.workers[job].pc.Dropping? && sys.workers[job].pc.keys != []
    requires Spares(c, sys.workers[job].database, other)
    ensures sys.workers[job].pc.keys[0] !in KeysOf(c.catalog(other))
  {
    HeldBy(c, sys, job);
    var w := sys.workers[job];
    WhatDroppingMeans(c, w, sys.trails[job], sys.cancels[job]);
    hide Inv, OnTrack, RowTells, Sound, KeysOf;
    SeenIsHome(c, w, sys.trails[job], sys.cancels[job]);
    assert DropsOwn(w) && w.pc.keys[0] in w.pc.keys;
  }

  lemma WhatDroppingMeans(c: Config, w: Worker, trail: Trail, cancelled: bool)
    requires w.pc.Dropping? && OnTrack(c, w, trail, cancelled)
    ensures w.start.None?
  {
  }

  // ---- each step keeps a worker's knowledge ----

  /** Another worker's scan: what it adds to this scope is in this catalog. */
  lemma MoreFoundKeepsTrack(c: Config, s: Store, t: Store, w: Worker, trail: Trail, cancelled: bool, k: Key, apart: bool)
    requires OnTrack(c, w, trail, cancelled) && KeepsTrack(s, w, apart)
    requires t.containers.Keys == s.containers.Keys + {k} && (InScope(w.database, k) ==> k in KeysOf(c.catalog(w.database)))
    ensures KeepsTrack(t, w, apart)
  {
    SeenIsHome(c, w, trail, cancelled);
    WhatFullMeans(c, w, trail, cancelled);
    hide OnTrack, KeysOf, NoRepeats;
  }

  lemma WhatFullMeans(c: Config, w: Worker, trail: Trail, cancelled: bool)
    requires OnTrack(c, w, trail, cancelled)
    ensures w.pc.Dropping? ==> w.start.None?
  {
  }

  /** Another worker's removal: nothing of this catalog. */
  lemma LessStoredKeepsTrack(c: Config, s: Store, t: Store, w: Worker, trail: Trail, cancelled: bool, k: Key, apart: bool)
    requires OnTrack(c, w, trail, cancelled) && KeepsTrack(s, w, apart)
    requires t.containers.Keys == s.containers.Keys - {k} && k !in KeysOf(c.catalog(w.database)) && (apart ==> !InScope(w.database, k))
    ensures KeepsTrack(t, w, apart)
  {
    SeenIsHome(c, w, trail, cancelled);
    hide OnTrack, KeysOf, NoRepeats;
  }

  lemma SameKeysKeepTrack(s: Store, t: Store, w: Worker, apart: bool)
    requires KeepsTrack(s, w, apart) && t.containers.Keys == s.containers.Keys
    ensures KeepsTrack(t, w, apart)
  {
    assert ContainerKeys(t, w.database) == ContainerKeys(s, w.database);
  }

  lemma OthersScanKeepsTrack(c: Config, sys: System, step: Step, j: JobId, apart: bool)
    requires GoodConfig(c) && Inv(c, sys) && Enabled(sys, step) && c.pageSize >= 1
    requires j in sys.workers && step.ScanOne? && step.job != j && Beside(c, sys, j, apart) && KeepsTrack(sys.store, sys.workers[j], apart)
    ensures KeepsTrack(Next(c, sys, step).store, sys.workers[j], apart)
  {
    hide Inv, GoodConfig, Sound, OnTrack, RowTells, ScanContainer, OutcomeOf, KeepsTrack, KeyOf;
    HeldBy(c, sys, step.job);
    HeldBy(c, sys, j);
    var w := sys.workers[step.job];
    assert GetsOn(c, w, sys.workers[j].database, apart);
    SeenIsHome(c, w, sys.trails[step.job], sys.cancels[step.job]);
    ScanKeys(sys.store, step.job, w.pc.info, step.reading, w.force, step.now);
    MoreFoundKeepsTrack(c, sys.store, Next(c, sys, step).store, sys.workers[j], sys.trails[j], sys.cancels[j], KeyOf(w.pc.info), apart);
  }

  lemma OthersDropKeepsTrack(c: Config, sys: System, step: Step, j: JobId, apart: bool)
    requires GoodConfig(c) && Inv(c, sys) && AllDropOwn(sys) && Enabled(sys, step) && c.pageSize >= 1
    requires j in sys.workers && KeepsToScope(c, sys.workers[j].database)
    requires step.Drop? && step.job != j && Beside(c, sys, j, apart) && KeepsTrack(sys.store, sys.workers[j], apart)
    ensures KeepsTrack(Next(c, sys, step).store, sys.workers[j], apart)
  {
    var w, v, k := sys.workers[step.job], sys.workers[j], sys.workers[step.job].pc.keys[0];
    hide Inv, GoodConfig, Sound, OnTrack, RowTells, KeepsTrack;
    HeldBy(c, sys, step.job);
    HeldBy(c, sys, j);
    WhatDroppingMeans(c, w, sys.trails[step.job], sys.cancels[step.job]);
    assert GetsOn(c, w, v.database, apart) && DropsOwn(w) && k in w.pc.keys;
    DropSpares(c, sys, step.job, v.database);
    LessStoredKeepsTrack(c, sys.store, Next(c, sys, step).store, v, sys.trails[j], sys.cancels[j], k, apart);
  }

  lemma OthersKeepTrack(c: Config, sys: System, step: Step, j: JobId, apart: bool)
    requires GoodConfig(c) && Inv(c, sys) && AllDropOwn(sys) && Enabled(sys, step) && c.pageSize >= 1
    requires j in sys.workers && Beside(c, sys, j, apart) && KeepsToScope(c, sys.workers[j].database) && KeepsTrack(sys.store, sys.workers[j], apart)
    requires step.ScanOne? || step.Drop? ==> step.job != j
    ensures KeepsTrack(Next(c, sys, step).store, sys.workers[j], apart)
  {
    hide Inv, GoodConfig, AllDropOwn, Beside, KeepsToScope, KeepsTrack, BlankToNone, DescriptionFor, SensitivityFor, Moved, ScanContainer, Sound;
    if step.ScanOne? {
      OthersScanKeepsTrack(c, sys, step, j, apart);
    } else if step.Drop? {
      OthersDropKeepsTrack(c, sys, step, j, apart);
    } else {
      SameKeysKeepTrack(sys.store, Next(c, sys, step).store, sys.workers[j], apart);
    }
  }

  lemma ScannerKeepsTrack(c: Config, sys: System, job: JobId, reading: Reading, now: Time, apart: bool)
    requires GoodConfig(c) && Inv(c, sys) && Enabled(sys, ScanOne(job, reading, now)) && c.pageSize >= 1
    requires KeepsToScope(c, sys.workers[job].database) && KeepsTrack(sys.store, sys.workers[job], apart)
    ensures
      var sys' := Next(c, sys, ScanOne(job, reading, now));
      job in sys'.workers && KeepsTrack(sys'.store, sys'.workers[job], apart)
  {
    hide Inv, GoodConfig, Sound, OnTrack, RowTells, ScanContainer, OutcomeOf, KeyOf;
    HeldBy(c, sys, job);
    var w := sys.workers[job];
    SeenIsHome(c, w, sys.trails[job], sys.cancels[job]);
    ScanKeys(sys.store, job, w.pc.info, reading, w.force, now);
  }

  lemma DropperKeepsTrack(s: Store, w: Worker, job: JobId, now: Time, apart: bool)
    requires KeepsTrack(s, w, apart) && w.pc.Dropping? && w.pc.keys != []
    ensures KeepsTrack(RemoveContainer(s, job, w.pc.keys[0], now), w.(pc := Dropping(w.pc.keys[1..])), apart)
  {
    var keys, t := w.pc.keys, RemoveContainer(s, job, w.pc.keys[0], now);
    assert keys[0] in keys;
    assert t.containers.Keys == s.containers.Keys - {keys[0]};
    forall k ensures k in keys[1..] <==> k in keys && k != keys[0] {
      assert keys == [keys[0]] + keys[1..];
    }
  }

  lemma MoverKeepsTrack(c: Config, s: Store, w: Worker, trail: Trail, cancelled: bool, move: Move, apart: bool)
    requires c.pageSize >= 1 && KeepsTrack(s, w, apart) && CanMove(w, move) && OnTrack(c, w, trail, cancelled)
    ensures KeepsTrack(s, Moved(c, s, w, cancelled, move), apart)
  {
    hide OnTrack, Gone, ContainerKeys, NoRepeats;
    if move == Plan && w.start.None? {
      GoneOnce(s, w.database, w.seen);
    } else if move == EndDrop {
      forall k ensures k in ContainerKeys(s, w.database) <==> k in w.seen {
        assert k !in w.pc.keys;
      }
    }
  }

  lemma GoneOnce(s: Store, database: Option<string>, seen: set<Key>)
    ensures NoRepeats(Gone(s, database, seen))
    ensures forall k :: k in Gone(s, database, seen) <==> k in ContainerKeys(s, database) && k !in seen
    ensures forall k :: k in Gone(s, database, seen) ==> InScope(database, k)
  {
    KeysOrdered();
    assert forall k :: k in ContainerKeys(s, database) ==> InScope(database, k);
    hide ContainerKeys, TupleBefore, InScope;
    var keys := Gone(s, database, seen);
    forall i, j | 0 <= i < j < |keys| ensures keys[i] != keys[j] {
      assert TupleBefore(keys[i], keys[j]);
    }
  }

  lemma TurnKeepsTrack(c: Config, sys: System, job: JobId, move: Move, apart: bool)
    requires GoodConfig(c) && Inv(c, sys) && Enabled(sys, Turn(job, move)) && c.pageSize >= 1 && KeepsTrack(sys.store, sys.workers[job], apart)
    ensures
      var sys' := Next(c, sys, Turn(job, move));
      job in sys'.workers && KeepsTrack(sys'.store, sys'.workers[job], apart)
  {
    HeldBy(c, sys, job);
    hide Inv, OnTrack, RowTells, Sound, GoodConfig, Moved, CanMove, KeepsTrack;
    MoverKeepsTrack(c, sys.store, sys.workers[job], sys.trails[job], sys.cancels[job], move, apart);
  }

  lemma OwnStepKeepsTrack(c: Config, sys: System, step: Step, j: JobId, apart: bool)
    requires GoodConfig(c) && Inv(c, sys) && Enabled(sys, step) && c.pageSize >= 1
    requires j in sys.workers && KeepsToScope(c, sys.workers[j].database) && KeepsTrack(sys.store, sys.workers[j], apart)
    requires j in Next(c, sys, step).workers && IsStepOf(step, j)
    ensures KeepsTrack(Next(c, sys, step).store, Next(c, sys, step).workers[j], apart)
  {
    hide Inv, GoodConfig, KeepsToScope;
    match step
    case Turn(_, move) => TurnKeepsTrack(c, sys, j, move, apart);
    case ScanOne(_, reading, now) => ScannerKeepsTrack(c, sys, j, reading, now, apart);
    case Drop(_, now) => DropperKeepsTrack(sys.store, sys.workers[j], j, now, apart);
    case _ =>
  }

  lemma StepKeepsTrack(c: Config, sys: System, step: Step, j: JobId, apart: bool)
    requires GoodConfig(c) && Inv(c, sys) && AllDropOwn(sys) && Enabled(sys, step) && c.pageSize >= 1
    requires j in sys.workers ==>
      Beside(c, sys, j, apart) && KeepsToScope(c, sys.workers[j].database) && KeepsTrack(sys.store, sys.workers[j], apart)
    requires j in Next(c, sys, step).workers
    ensures KeepsTrack(Next(c, sys, step).store, Next(c, sys, step).workers[j], apart)
  {
    hide Inv, GoodConfig, AllDropOwn, Beside, KeepsToScope;
    if j !in sys.workers {
      assert Next(c, sys, step).workers[j].seen == {};
    } else if IsStepOf(step, j) {
      OwnStepKeepsTrack(c, sys, step, j, apart);
    } else {
      OthersStay(c, sys, step, j);
      OthersKeepTrack(c, sys, step, j, apart);
    }
  }

  lemma DatabaseStays(c: Config, sys: System, step: Step, j: JobId)
    requires Inv(c, sys) && Enabled(sys, step) && c.pageSize >= 1 && j in sys.workers && j in Next(c, sys, step).workers
    ensures Next(c, sys, step).workers[j].database == sys.workers[j].database
  {
    hide Inv, ScanContainer, OutcomeOf, Annotate, ReadPage, Gone;
    if !IsStepOf(step, j) { OthersStay(c, sys, step, j); }
  }

  /**
   Beside scans it gets on with, a worker's seen containers are stored, and what it is
   about to remove is unseen and takes in all that is stored and unseen; where the others'
   removals have nothing in common with its scope, exactly that.
   */
  lemma {:induction false} RunsKeepTrack(c: Config, systems: seq<System>, steps: seq<Step>, i: nat, job: JobId, apart: bool)
    requires GoodConfig(c) && IsRun(c, systems, steps) && i < |systems| && job in systems[i].workers
    requires KeepsToScope(c, systems[i].workers[job].database) && Undisturbed(c, systems, i, job, apart)
    ensures KeepsTrack(systems[i].store, systems[i].workers[job], apart)
  {
    hide Inv, Next, Enabled, KeepsTrack, KeepsToScope, Beside, GoodConfig;
    if i > 0 {
      GoodPages(c);
      RunsKeepInv(c, systems, steps, i - 1);
      RunsDropOwn(c, systems, steps, i - 1);
      if job in systems[i - 1].workers {
        DatabaseStays(c, systems[i - 1], steps[i - 1], job);
        RunsKeepTrack(c, systems, steps, i - 1, job, apart);
        assert Beside(c, systems[i - 1], job, apart);
      }
      StepKeepsTrack(c, systems[i - 1], steps[i - 1], job, apart);
    }
  }

  /**
   When a run without a starting cursor is about to be recorded as done, the stored keys
   in its scope are exactly the keys of its catalog, whatever the scans it gets on with
   did meanwhile, and whatever any scan did before it began.
   */
  lemma DoneRunReconciles(c: Config, systems: seq<System>, steps: seq<Step>, i: nat, job: JobId)
    requires GoodConfig(c) && IsRun(c, systems, steps) && i < |systems|
    requires job in systems[i].workers && systems[i].workers[job].start.None?
    requires KeepsToScope(c, systems[i].workers[job].database) && Undisturbed(c, systems, i, job, false)
    requires systems[i].workers[job].pc.Finishing? && systems[i].workers[job].pc.state == Done
    ensures
      var sys, w := systems[i], systems[i].workers[job];
      ContainerKeys(sys.store, w.database) == KeysOf(c.catalog(w.database))
  {
    RunsKeepInv(c, systems, steps, i);
    RunsKeepTrack(c, systems, steps, i, job, false);
    var sys := systems[i];
    HeldBy(c, sys, job);
    hide Inv, GoodConfig, IsRun, OnTrack, RowTells, Sound, Undisturbed, KeysOf, KeepsToScope;
    SeenIsHome(c, sys.workers[job], sys.trails[job], sys.cancels[job]);
  }

  // ---- what a chain of runs visited stays stored ----

  /** A job resumes a run of its own database. */
  ghost predicate Chained(sys: System) {
    && |sys.trails| == |sys.store.scans|
    && forall j :: 0 <= j < |sys.trails| && sys.trails[j].origin.Some? ==>
         && sys.trails[j].origin.value < j
         && sys.store.scans[sys.trails[j].origin.value].database == sys.store.scans[j].database
  }

  ghost predicate Visited(c: Config, sys: System, database: Option<string>, j: JobId, info: ContainerInfo)
    requires j < |sys.trails| && j < |sys.store.scans|
  {
    sys.store.scans[j].database == database && info in c.catalog(database) && info.containerName in sys.trails[j].visited
  }

  /** The containers that jobs of this database, from `base` on, visited are stored. */
  ghost predicate VisitedStored(c: Config, sys: System, database: Option<string>, base: JobId) {
    forall j, info :: base <= j < |sys.trails| && j < |sys.store.scans| && Visited(c, sys, database, j, info) ==> KeyOf(info) in sys.store.containers
  }

  /** Whoever may remove containers spares this catalog. */
  ghost predicate Spared(c: Config, sys: System, database: Option<string>) {
    forall j :: j in sys.workers && sys.workers[j].start.None? ==> Spares(c, sys.workers[j].database, database)
  }

  /** The first run of a chain of resumed runs. */
  function Root(trails: seq<Trail>, job: JobId): (root: JobId)
    requires job < |trails|
    ensures root <= job
  {
    if trails[job].origin.Some? && trails[job].origin.value < job then Root(trails, trails[job].origin.value) else job
  }

  /** What a step does to the histories of the jobs: one name more for a scan, a new one for a start. */
  lemma StepTrails(c: Config, sys: System, step: Step)
    requires Inv(c, sys) && Enabled(sys, step) && c.pageSize >= 1
    ensures
      var sys' := Next(c, sys, step);
      && |sys.trails| == |sys.store.scans| <= |sys'.trails| == |sys'.store.scans|
      && (forall j :: 0 <= j < |sys.trails| ==>
            && sys'.trails[j].origin == sys.trails[j].origin && sys'.store.scans[j].database == sys.store.scans[j].database
            && sys'.trails[j].visited == sys.trails[j].visited
               + if step.ScanOne? && step.job == j then [sys.workers[j].pc.info.containerName] else [])
      && (forall j :: |sys.trails| <= j < |sys'.trails| ==> sys'.trails[j].visited == [])
      && (step.Start? ==>
            && |sys'.trails| == |sys.trails| + 1
            && sys'.store.scans[|sys.trails|].database == step.database
            && (sys'.trails[|sys.trails|].origin.Some? ==> sys'.trails[|sys.trails|].origin == step.previous))
      && (!step.Start? ==> |sys'.trails| == |sys.trails|)
  {
    if step.ScanOne? { ScanStore(c, sys, step.job, step.reading, step.now); }
    hide Inv, Sound, OnTrack, RowTells, ScanContainer, OutcomeOf, Moved, BlankToNone, DescriptionFor, SensitivityFor, CanMove;
  }

  lemma BooksTogether(c: Config, sys: System)
    requires Inv(c, sys)
    ensures |sys.trails| == |sys.store.scans|
  {
  }

  lemma StepKeepsChained(c: Config, sys: System, step: Step)
    requires Inv(c, sys) && Enabled(sys, step) && c.pageSize >= 1 && Chained(sys)
    ensures Chained(Next(c, sys, step))
  {
    StepTrails(c, sys, step);
    hide Inv, Next;
  }

  lemma {:induction false} RunsKeepChained(c: Config, systems: seq<System>, steps: seq<Step>, i: nat)
    requires GoodConfig(c) && IsRun(c, systems, steps) && i < |systems|
    ensures Chained(systems[i])
  {
    hide Inv, Next, Enabled;
    if i > 0 {
      RunsKeepChained(c, systems, steps, i - 1);
      RunsKeepInv(c, systems, steps, i - 1);
      StepKeepsChained(c, systems[i - 1], steps[i - 1]);
    }
  }

  /** In a catalog a name is one container. */
  lemma OneOfName(catalog: seq<ContainerInfo>, a: ContainerInfo, b: ContainerInfo)
    requires IsCatalog(catalog) && a in catalog && b in catalog && a.containerName == b.containerName
    ensures a == b
  {
    StringsOrdered();
    var i :| 0 <= i < |catalog| && catalog[i] == a;
    var j :| 0 <= j < |catalog| && catalog[j] == b;
    assert InfoName(a) == InfoName(b);
  }

  lemma StepKeepsVisited(c: Config, sys: System, step: Step, database: Option<string>, base: JobId)
    requires GoodConfig(c) && Inv(c, sys) && AllDropOwn(sys) && Enabled(sys, step) && c.pageSize >= 1
    requires Spared(c, sys, database) && VisitedStored(c, sys, database, base)
    ensures VisitedStored(c, Next(c, sys, step), database, base)
  {
    StepTrails(c, sys, step);
    var sys' := Next(c, sys, step);
    hide Inv, GoodConfig, Next, KeyOf, Spares, Enabled;
    forall j, info | base <= j < |sys'.trails| && j < |sys'.store.scans| && Visited(c, sys', database, j, info)
      ensures KeyOf(info) in sys'.store.containers
    {
      if step.ScanOne? && step.job == j && info.containerName !in sys.trails[j].visited {
        ScannedIsStored(c, sys, step, info);
      } else {
        assert Visited(c, sys, database, j, info);
        if KeyOf(info) !in sys'.store.containers {
          OnlyDropsRemove(c, sys, step, KeyOf(info));
          DropLeaves(c, sys, step, database);
        }
      }
    }
  }

  lemma ScannedIsStored(c: Config, sys: System, step: Step, info: ContainerInfo)
    requires GoodConfig(c) && Inv(c, sys) && Enabled(sys, step) && c.pageSize >= 1 && step.ScanOne?
    requires info in c.catalog(sys.workers[step.job].database) && info.containerName == sys.workers[step.job].pc.info.containerName
    ensures KeyOf(info) in Next(c, sys, step).store.containers
  {
    var w := sys.workers[step.job];
    HeldBy(c, sys, step.job);
    SeenIsHome(c, w, sys.trails[step.job], sys.cancels[step.job]);
    OneOfName(c.catalog(w.database), info, w.pc.info);
    ScanKeys(sys.store, step.job, w.pc.info, step.reading, w.force, step.now);
    hide Inv, OnTrack, RowTells, Sound, ScanContainer, OutcomeOf, KeyOf;
  }

  lemma DropLeaves(c: Config, sys: System, step: Step, database: Option<string>)
    requires Inv(c, sys) && AllDropOwn(sys) && Enabled(sys, step) && step.Drop? && Spared(c, sys, database)
    ensures sys.workers[step.job].pc.keys[0] !in KeysOf(c.catalog(database))
  {
    HeldBy(c, sys, step.job);
    WhatDroppingMeans(c, sys.workers[step.job], sys.trails[step.job], sys.cancels[step.job]);
    hide Inv, OnTrack, RowTells, Sound, KeysOf;
    DropSpares(c, sys, step.job, database);
  }

  lemma {:induction false} RunsKeepVisited(c: Config, systems: seq<System>, steps: seq<Step>, a: nat, i: nat, database: Option<string>)
    requires GoodConfig(c) && IsRun(c, systems, steps) && a <= i < |systems|
    requires forall m :: a <= m < i ==> Spared(c, systems[m], database)
    ensures VisitedStored(c, systems[i], database, |systems[a].trails|)
    decreases i
  {
    hide Inv, Next, Enabled, GoodConfig, Spared;
    if a < i {
      GoodPages(c);
      RunsKeepVisited(c, systems, steps, a, i - 1, database);
      RunsKeepInv(c, systems, steps, i - 1);
      RunsDropOwn(c, systems, steps, i - 1);
      StepKeepsVisited(c, systems[i - 1], steps[i - 1], database, |systems[a].trails|);
    }
  }

  /** What a chain covers, some job of it visited, and all of them are of one database. */
  lemma {:induction false} CoveredByOne(sys: System, job: JobId, name: string) returns (j: JobId)
    requires Chained(sys) && job < |sys.trails| && name in Covered(sys.trails, job)
    ensures Root(sys.trails, job) <= j < |sys.trails| && name in sys.trails[j].visited
    ensures sys.store.scans[j].database == sys.store.scans[job].database
  {
    if name in sys.trails[job].visited {
      j := job;
    } else {
      j := CoveredByOne(sys, sys.trails[job].origin.value, name);
    }
  }

  /**
   A done job leaves its whole catalog stored, and it stays stored: also when it was
   resumed, once or more, from runs that failed or crashed, as long as from the first
   of them on whoever may remove containers spares this catalog.
   */
  lemma DoneChainIsStored(c: Config, systems: seq<System>, steps: seq<Step>, a: nat, i: nat, job: JobId)
    requires GoodConfig(c) && IsRun(c, systems, steps) && a <= i < |systems|
    requires job < |systems[i].trails| == |systems[i].store.scans| && systems[i].store.scans[job].state == Done
    requires |systems[a].trails| <= Root(systems[i].trails, job)
    requires forall m :: a <= m < i ==> Spared(c, systems[m], systems[i].store.scans[job].database)
    ensures
      var sys, database := systems[i], systems[i].store.scans[job].database;
      && KeysOf(c.catalog(database)) <= sys.store.containers.Keys
      && (KeepsToScope(c, database) ==> KeysOf(c.catalog(database)) <= ContainerKeys(sys.store, database))
  {
    RunsKeepChained(c, systems, steps, i);
    CoverageAcrossResumes(c, systems, steps, i, job);
    var sys, database := systems[i], systems[i].store.scans[job].database;
    RunsKeepVisited(c, systems, steps, a, i, database);
    hide GoodConfig, Spared, IsRun, KeyOf;
    forall info | info in c.catalog(database) ensures KeyOf(info) in sys.store.containers {
      var j := CoveredByOne(sys, job, info.containerName);
      assert Visited(c, sys, database, j, info);
    }
  }

  /** A worker forgets containers only when its run began without a cursor and has visited the whole catalog. */
  lemma OnlyFullRunsForget(c: Config, systems: seq<System>, steps: seq<Step>, i: nat, job: JobId)
    requires GoodConfig(c) && IsRun(c, systems, steps) && i < |systems|
    requires job in systems[i].workers && systems[i].workers[job].pc.Dropping?
    ensures job < |systems[i].trails|
    ensures
      var w := systems[i].workers[job];
      w.start.None? && systems[i].trails[job].visited == Names(c.catalog(w.database))
  {
    RunsKeepInv(c, systems, steps, i);
    HeldBy(c, systems[i], job);
    var names, v := Names(c.catalog(systems[i].workers[job].database)), |systems[i].trails[job].visited|;
    assert names[..v] == names;
  }

  /** Only a drop takes a container away: scans and annotations never do. */
  lemma OnlyDropsRemove(c: Config, sys: System, step: Step, k: Key)
    requires c.pageSize >= 1 && Enabled(sys, step)
    requires k in sys.store.containers && k !in Next(c, sys, step).store.containers
    ensures step.Drop? && sys.workers[step.job].pc.keys[0] == k
  {
    hide Moved, ScanContainer, BlankToNone, DescriptionFor, SensitivityFor, Started, Gone;
    if step.ScanOne? {
      ScanKeys(sys.store, step.job, sys.workers[step.job].pc.info, step.reading, sys.workers[step.job].force, step.now);
    }
    if step.Start? { StartedKeepsContainers(sys, step); }
  }

  lemma StartedKeepsContainers(sys: System, step: Step)
    requires step.Start?
    ensures Started(sys, step.database, step.previous, step.force, step.now).store.containers == sys.store.containers
  {
  }

  /**
   A stored container disappears, in any run of the system, only as the head of what a
   worker drops, and that worker began without a cursor and has visited the whole
   catalog of its database.
   */
  lemma ForgottenOnlyByFullRuns(c: Config, systems: seq<System>, steps: seq<Step>, i: nat, k: Key)
    requires GoodConfig(c) && IsRun(c, systems, steps) && i < |steps|
    requires k in systems[i].store.containers && k !in systems[i + 1].store.containers
    ensures steps[i].Drop? && steps[i].job in systems[i].workers && steps[i].job < |systems[i].trails|
    ensures
      var w, trail := systems[i].workers[steps[i].job], systems[i].trails[steps[i].job];
      && w.pc.Dropping? && w.pc.keys != [] && w.pc.keys[0] == k
      && w.start.None? && trail.visited == Names(c.catalog(w.database))
  {
    hide Next, GoodConfig;
    GoodPages(c);
    OnlyDropsRemove(c, systems[i], steps[i], k);
    OnlyFullRunsForget(c, systems, steps, i, steps[i].job);
  }

  lemma GoodPages(c: Config)
    requires GoodConfig(c)
    ensures c.pageSize >= 1
  {
  }
}
