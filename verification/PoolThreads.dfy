/**
 Threads sharing one pool: who owns each adapter.

 The locked section of a call is one step; each close after the lock is released
 is a step of its own, so the closes of one thread interleave with everything the
 others do.  An adapter is a number, in the order of creation.
 */
module PoolThreads {
  import opened Wrappers
  import L = Lru
  import P = Pool

  /** An adapter some thread took out of the pool and still has to close. */
  datatype Pending = Pending(thread: nat, adapter: nat)

  /** `lost`: taken out by a `get` that then raised, so nobody closes it. */
  datatype State = State(entries: seq<L.Entry>, pending: seq<Pending>, closed: seq<nat>, lost: seq<nat>, created: nat)

  const INITIAL := State([], [], [], [], 0)

  datatype Step =
    | Get(thread: nat, key: string, sweptAt: real, usedAt: real, alive: nat -> bool, creates: bool)
    | Reap(thread: nat, at: real)
    | Close(thread: nat)
    | CloseOne(thread: nat)

  function Tagged(thread: nat, adapters: seq<nat>): seq<Pending> {
    seq(|adapters|, i requires 0 <= i < |adapters| => Pending(thread, adapters[i]))
  }

  function Adapters(pending: seq<Pending>): seq<nat> {
    seq(|pending|, i requires 0 <= i < |pending| => pending[i].adapter)
  }

  /** Where a thread's next pending close is; `|pending|` when it has none. */
  function FirstOf(pending: seq<Pending>, thread: nat): (i: nat)
    ensures i <= |pending|
    ensures i < |pending| ==> pending[i].thread == thread
    ensures forall j :: 0 <= j < i ==> pending[j].thread != thread
  {
    if pending == [] || pending[0].thread == thread then 0 else 1 + FirstOf(pending[1..], thread)
  }

  function Locked(settings: L.Settings, s: State, step: Step): L.Locked
    requires settings.maxSize >= 1
  {
    match step
    case Get(_, key, sweptAt, usedAt, alive, creates) =>
      L.Got(settings, s.entries, key, sweptAt, usedAt, alive, if creates then Some(s.created) else None)
    case Reap(_, at) => L.Swept(settings, s.entries, at)
    case Close(_) => L.Locked([], L.AdaptersOf(s.entries), None)
    case CloseOne(_) => L.Locked(s.entries, [], None)
  }

  predicate Raises(settings: L.Settings, s: State, step: Step)
    requires settings.maxSize >= 1
  {
    step.Get? && Locked(settings, s, step).handed.None?
  }

  function Next(settings: L.Settings, s: State, step: Step): State
    requires settings.maxSize >= 1
  {
    var i := FirstOf(s.pending, step.thread);
    if step.CloseOne? then
      if i == |s.pending| then s
      else s.(pending := s.pending[..i] + s.pending[i + 1..], closed := s.closed + [s.pending[i].adapter])
    else
      var locked := Locked(settings, s, step);
      if Raises(settings, s, step) then s.(entries := locked.entries, lost := s.lost + locked.discarded)
      else s.(entries := locked.entries,
              pending := s.pending + Tagged(step.thread, locked.discarded),
              created := if locked.handed == Some(s.created) then s.created + 1 else s.created)
  }

  function After(settings: L.Settings, steps: seq<Step>): State
    requires settings.maxSize >= 1
  {
    if steps == [] then INITIAL else Next(settings, After(settings, steps[..|steps| - 1]), steps[|steps| - 1])
  }

  // ---- the ledger ----

  /** The adapters in a list of entries, with their number of occurrences. */
  function Held(entries: seq<L.Entry>): multiset<nat> {
    multiset(L.AdaptersOf(entries))
  }

  /** Every place an adapter can be. */
  function Ledger(s: State): multiset<nat> {
    Held(s.entries) + multiset(Adapters(s.pending)) + multiset(s.closed) + multiset(s.lost)
  }

  /** Each adapter created so far is in exactly one place, once. */
  ghost predicate EachOnce(s: State) {
    forall a: nat :: Ledger(s)[a] == if a < s.created then 1 else 0
  }

  predicate Bounded(settings: L.Settings, s: State) {
    L.Distinct(s.entries) && |s.entries| <= settings.maxSize
  }

  lemma HeldJoins(a: seq<L.Entry>, b: seq<L.Entry>)
    ensures Held(a + b) == Held(a) + Held(b)
  {
    assert L.AdaptersOf(a + b) == L.AdaptersOf(a) + L.AdaptersOf(b);
  }

  lemma HeldOne(e: L.Entry)
    ensures Held([e]) == multiset{e.adapter} && Held([]) == multiset{}
  {
    assert L.AdaptersOf([e]) == [e.adapter];
  }

  lemma {:induction false} LookupAbsent(entries: seq<L.Entry>, key: string)
    requires forall e :: e in entries ==> e.key != key
    ensures L.Lookup(entries, key).None?
  {
    if entries != [] { LookupAbsent(entries[1..], key); }
  }

  function Found(entries: seq<L.Entry>, key: string): multiset<nat> {
    var found := L.Lookup(entries, key);
    if found.Some? then multiset{found.value.adapter} else multiset{}
  }

  lemma {:induction false} RemovedOnce(entries: seq<L.Entry>, key: string)
    requires L.Distinct(entries)
    ensures Held(entries) == Held(L.Remove(entries, key)) + Found(entries, key)
  {
    if entries != [] {
      var head, rest := entries[0], entries[1..];
      RemovedOnce(rest, key);
      assert entries == [head] + rest;
      HeldJoins([head], rest);
      HeldOne(head);
      if head.key == key {
        P.RemoveFirst(entries);
        P.RemoveAbsent(rest, key);
        hide Held;
      } else {
        HeldJoins([head], L.Remove(rest, key));
        hide Held;
      }
    }
  }

  /** A sweep moves adapters out of the pool and drops none. */
  lemma SweptConserves(settings: L.Settings, entries: seq<L.Entry>, now: real)
    requires L.Distinct(entries)
    ensures
      var swept := L.Swept(settings, entries, now);
      && Held(entries) == Held(swept.entries) + multiset(swept.discarded)
      && L.Distinct(swept.entries) && |swept.entries| <= |entries|
  {
    var n := L.ExpiredCount(entries, L.Deadline(settings, now));
    assert entries == entries[..n] + entries[n..];
    HeldJoins(entries[..n], entries[n..]);
  }

  predicate Reuses(settings: L.Settings, entries: seq<L.Entry>, key: string, sweptAt: real, alive: nat -> bool) {
    Usable(L.Lookup(L.Swept(settings, entries, sweptAt).entries, key), alive)
  }

  predicate Usable(found: Option<L.Entry>, alive: nat -> bool) {
    found.Some? && alive(found.value.adapter)
  }

  lemma Appended(rest: seq<L.Entry>, e: L.Entry)
    requires L.Distinct(rest) && forall x :: x in rest ==> x.key != e.key
    ensures L.Distinct(rest + [e]) && Held(rest + [e]) == Held(rest) + multiset{e.adapter}
  {
    HeldJoins(rest, [e]);
    HeldOne(e);
  }

  lemma Evicted(grown: seq<L.Entry>, max: nat)
    requires L.Distinct(grown)
    ensures
      var kept := L.LastN(grown, max);
      && L.Distinct(kept) && |kept| <= max && |kept| <= |grown|
      && Held(grown) == Held(kept) + multiset(L.AdaptersOf(grown[..|grown| - |kept|]))
  {
    var n := |grown| - |L.LastN(grown, max)|;
    assert grown == grown[..n] + grown[n..] && grown[n..] == L.LastN(grown, max);
    HeldJoins(grown[..n], grown[n..]);
  }

  lemma ByUse(settings: L.Settings, entries: seq<L.Entry>, key: string, sweptAt: real, alive: nat -> bool)
    ensures
      var swept := L.Swept(settings, entries, sweptAt);
      var found := L.Lookup(swept.entries, key);
      && (Usable(found, alive) <==> found.Some? && alive(found.value.adapter))
      && Reuses(settings, entries, key, sweptAt, alive) == Usable(found, alive)
      && swept == L.Locked(swept.entries, swept.discarded, None)
  {
  }

  /** Nothing dropped, nothing twice: what was held and what came in is held or discarded. */
  predicate Balanced(settings: L.Settings, before: multiset<nat>, gained: multiset<nat>, after: L.Locked) {
    && before + gained == Held(after.entries) + multiset(after.discarded)
    && L.Distinct(after.entries) && |after.entries| <= settings.maxSize
  }

  lemma Exchange(before: multiset<nat>, gained: multiset<nat>, after: multiset<nat>, gone: multiset<nat>, rest: multiset<nat>)
    requires before + gained == after + gone
    ensures before + rest + gained == after + (rest + gone)
  {
    forall a: nat ensures (before + rest + gained)[a] == (after + (rest + gone))[a] {
      assert (before + gained)[a] == (after + gone)[a];
    }
  }

  lemma ReuseBalances(settings: L.Settings, entries: seq<L.Entry>, found: L.Entry, usedAt: real, expired: seq<nat>)
    requires L.Distinct(entries) && |entries| <= settings.maxSize && L.Lookup(entries, found.key) == Some(found)
    ensures Balanced(settings, Held(entries) + multiset(expired), multiset{},
                     L.Locked(L.Remove(entries, found.key) + [L.Entry(found.key, found.adapter, usedAt)], expired, Some(found.adapter)))
  {
    RemovedOnce(entries, found.key);
    L.RemoveShrinks(entries, found.key);
    P.RemoveKeepsDistinct(entries, found.key);
    Appended(L.Remove(entries, found.key), L.Entry(found.key, found.adapter, usedAt));
    hide Held, L.Distinct, L.Remove, L.AdaptersOf;
  }

  lemma RemoveBalances(settings: L.Settings, entries: seq<L.Entry>, key: string, expired: seq<nat>)
    requires L.Distinct(entries) && |entries| <= settings.maxSize
    ensures
      var found := L.Lookup(entries, key);
      var dead := if found.Some? then [found.value.adapter] else [];
      Balanced(settings, Held(entries) + multiset(expired), multiset{}, L.Locked(L.Remove(entries, key), expired + dead, None))
  {
    RemovedOnce(entries, key);
    L.RemoveShrinks(entries, key);
    P.RemoveKeepsDistinct(entries, key);
    hide Held, L.Distinct, L.Remove, L.AdaptersOf, L.Lookup;
  }

  lemma OpenBalances(settings: L.Settings, before: multiset<nat>, rest: L.Locked, e: L.Entry)
    requires Balanced(settings, before, multiset{}, rest) && forall x :: x in rest.entries ==> x.key != e.key
    ensures
      var grown := rest.entries + [e];
      var kept := L.LastN(grown, settings.maxSize);
      |kept| <= |grown|
      && Balanced(settings, before, multiset{e.adapter},
                  L.Locked(kept, rest.discarded + L.AdaptersOf(grown[..|grown| - |kept|]), Some(e.adapter)))
  {
    hide Held, L.Distinct, L.AdaptersOf, L.LastN;
    Appended(rest.entries, e);
    Evicted(rest.entries + [e], settings.maxSize);
    var grown := rest.entries + [e];
    var kept := L.LastN(grown, settings.maxSize);
    var evicted := L.AdaptersOf(grown[..|grown| - |kept|]);
    assert before == before + multiset{} == Held(rest.entries) + multiset(rest.discarded);
    assert multiset(rest.discarded + evicted) == multiset(rest.discarded) + multiset(evicted);
    Exchange(Held(rest.entries), multiset{e.adapter}, Held(kept), multiset(evicted), multiset(rest.discarded));
  }

  /** A `get` moves adapters out of the pool, one new one in, and drops none. */
  lemma GotConserves(settings: L.Settings, entries: seq<L.Entry>, key: string, sweptAt: real, usedAt: real,
                     alive: nat -> bool, made: Option<nat>)
    requires settings.maxSize >= 1 && L.Distinct(entries) && |entries| <= settings.maxSize
    ensures Balanced(settings, Held(entries),
                     if Reuses(settings, entries, key, sweptAt, alive) || made.None? then multiset{} else multiset{made.value},
                     L.Got(settings, entries, key, sweptAt, usedAt, alive, made))
  {
    hide *;
    var swept := L.Swept(settings, entries, sweptAt);
    var found := L.Lookup(swept.entries, key);
    SweptConserves(settings, entries, sweptAt);
    ByUse(settings, entries, key, sweptAt, alive);
    P.GotByCase(settings, swept.entries, key, usedAt, alive, made, entries, sweptAt, swept.discarded);
    P.RemoveKeepsDistinct(swept.entries, key);
    if Usable(found, alive) {
      P.LookupHas(swept.entries, key);
      ReuseBalances(settings, swept.entries, found.value, usedAt, swept.discarded);
    } else {
      RemoveBalances(settings, swept.entries, key, swept.discarded);
      if made.Some? {
        var dead := if found.Some? then [found.value.adapter] else [];
        OpenBalances(settings, Held(entries), L.Locked(L.Remove(swept.entries, key), swept.discarded + dead, None),
                     L.Entry(key, made.value, usedAt));
      }
    }
  }

  // ---- runs ----

  lemma CloseMoves(s: State, i: nat)
    requires i < |s.pending|
    ensures Ledger(s.(pending := s.pending[..i] + s.pending[i + 1..], closed := s.closed + [s.pending[i].adapter])) == Ledger(s)
  {
    var p := Adapters(s.pending);
    assert Adapters(s.pending[..i] + s.pending[i + 1..]) == p[..i] + p[i + 1..];
    assert p == p[..i] + [p[i]] + p[i + 1..];
  }

  /** What a locked section discarded goes to the thread, or is lost; either way it stays in the ledger. */
  lemma DiscardedMoves(settings: L.Settings, s: State, thread: nat, gained: multiset<nat>, after: L.Locked)
    requires Balanced(settings, Held(s.entries), gained, after)
    ensures Ledger(s.(entries := after.entries, pending := s.pending + Tagged(thread, after.discarded))) == Ledger(s) + gained
    ensures Ledger(s.(entries := after.entries, lost := s.lost + after.discarded)) == Ledger(s) + gained
  {
    hide Held;
    assert Adapters(s.pending + Tagged(thread, after.discarded)) == Adapters(s.pending) + after.discarded;
    assert multiset(s.lost + after.discarded) == multiset(s.lost) + multiset(after.discarded);
    assert multiset(Adapters(s.pending) + after.discarded) == multiset(Adapters(s.pending)) + multiset(after.discarded);
    var h, d, p, c, l := Held(after.entries), multiset(after.discarded), multiset(Adapters(s.pending)), multiset(s.closed), multiset(s.lost);
    Exchange(Held(s.entries), gained, h, d, p + c + l);
    assert h + (p + c + l + d) == h + (p + d) + c + l == h + p + c + (l + d);
    assert Ledger(s) == Held(s.entries) + (p + c + l);
  }

  lemma LedgerGrows(s: State, moved: State, made: bool)
    requires EachOnce(s) && Ledger(moved) == Ledger(s) + (if made then multiset{s.created} else multiset{})
    ensures EachOnce(moved.(created := if made then s.created + 1 else s.created))
  {
    assert Ledger(moved) == Ledger(moved.(created := if made then s.created + 1 else s.created));
    hide Ledger;
  }

  /** An adapter in the pool has been created already. */
  lemma NotTheNext(s: State, e: L.Entry)
    requires EachOnce(s) && e in s.entries
    ensures e.adapter < s.created
  {
    var i :| 0 <= i < |s.entries| && s.entries[i] == e;
    assert L.AdaptersOf(s.entries)[i] == e.adapter;
    assert Ledger(s)[e.adapter] > 0;
  }

  lemma GetCreates(settings: L.Settings, s: State, step: Step)
    requires settings.maxSize >= 1 && step.Get? && Bounded(settings, s) && EachOnce(s)
    ensures
      var reuses := Reuses(settings, s.entries, step.key, step.sweptAt, step.alive);
      && (Raises(settings, s, step) <==> !reuses && !step.creates)
      && (Locked(settings, s, step).handed == Some(s.created) <==> !reuses && step.creates)
  {
    var swept := L.Swept(settings, s.entries, step.sweptAt).entries;
    var found := L.Lookup(swept, step.key);
    P.LookupHas(swept, step.key);
    if found.Some? { NotTheNext(s, found.value); }
  }

  /** One step of one thread: the ledger gains the adapter it created, and nothing else. */
  lemma GetKeeps(settings: L.Settings, s: State, step: Step)
    requires settings.maxSize >= 1 && step.Get? && Bounded(settings, s) && EachOnce(s)
    ensures Bounded(settings, Next(settings, s, step)) && EachOnce(Next(settings, s, step))
  {
    hide L.Got, L.Swept, EachOnce, Ledger, Held, Reuses, L.Distinct, Tagged, Adapters;
    var locked := Locked(settings, s, step);
    var opens := !Reuses(settings, s.entries, step.key, step.sweptAt, step.alive) && step.creates;
    GotConserves(settings, s.entries, step.key, step.sweptAt, step.usedAt, step.alive, if step.creates then Some(s.created) else None);
    GetCreates(settings, s, step);
    DiscardedMoves(settings, s, step.thread, if opens then multiset{s.created} else multiset{}, locked);
    LedgerGrows(s, s.(entries := locked.entries, lost := s.lost + locked.discarded), opens);
    LedgerGrows(s, s.(entries := locked.entries, pending := s.pending + Tagged(step.thread, locked.discarded)), opens);
  }

  lemma ReleaseBalances(settings: L.Settings, s: State, step: Step)
    requires settings.maxSize >= 1 && (step.Reap? || step.Close?) && Bounded(settings, s)
    ensures Balanced(settings, Held(s.entries), multiset{}, Locked(settings, s, step))
    ensures Locked(settings, s, step).handed.None?
  {
    if step.Reap? {
      SweptConserves(settings, s.entries, step.at);
    } else {
      HeldOne(L.Entry("", 0, 0.0));
    }
  }

  lemma ReleaseKeeps(settings: L.Settings, s: State, step: Step)
    requires settings.maxSize >= 1 && (step.Reap? || step.Close?) && Bounded(settings, s) && EachOnce(s)
    ensures Bounded(settings, Next(settings, s, step)) && EachOnce(Next(settings, s, step))
  {
    hide EachOnce, Ledger, Held, L.Distinct, Tagged, Adapters, Locked;
    var locked := Locked(settings, s, step);
    ReleaseBalances(settings, s, step);
    DiscardedMoves(settings, s, step.thread, multiset{}, locked);
    LedgerGrows(s, s.(entries := locked.entries, pending := s.pending + Tagged(step.thread, locked.discarded)), false);
  }

  lemma CloseOneKeeps(settings: L.Settings, s: State, step: Step)
    requires settings.maxSize >= 1 && step.CloseOne? && Bounded(settings, s) && EachOnce(s)
    ensures Bounded(settings, Next(settings, s, step)) && EachOnce(Next(settings, s, step))
  {
    hide EachOnce, Ledger, L.Distinct, FirstOf;
    var i := FirstOf(s.pending, step.thread);
    if i < |s.pending| {
      CloseMoves(s, i);
      LedgerGrows(s, Next(settings, s, step), false);
    }
  }

  lemma StepKeeps(settings: L.Settings, s: State, step: Step)
    requires settings.maxSize >= 1 && Bounded(settings, s) && EachOnce(s)
    ensures Bounded(settings, Next(settings, s, step)) && EachOnce(Next(settings, s, step))
  {
    if step.Get? {
      hide *;
      GetKeeps(settings, s, step);
    } else if step.CloseOne? {
      hide *;
      CloseOneKeeps(settings, s, step);
    } else {
      hide *;
      ReleaseKeeps(settings, s, step);
    }
  }

  /**
   However the threads interleave, and whether or not creating adapters fails:
   every adapter ever created is in exactly one of the pool, some thread's pending
   closes, the closed ones and the lost ones, and there once; the pool never
   exceeds its size between steps.
   */
  lemma {:induction false} OwnedOnce(settings: L.Settings, steps: seq<Step>)
    requires settings.maxSize >= 1
    ensures Bounded(settings, After(settings, steps)) && EachOnce(After(settings, steps))
  {
    if steps != [] {
      OwnedOnce(settings, steps[..|steps| - 1]);
      StepKeeps(settings, After(settings, steps[..|steps| - 1]), steps[|steps| - 1]);
    }
  }

  lemma InOnePlace(s: State, i: nat)
    requires EachOnce(s) && i < |s.entries|
    ensures
      var a := s.entries[i].adapter;
      a !in s.closed && a !in s.lost && a !in Adapters(s.pending)
  {
    var a := s.entries[i].adapter;
    assert L.AdaptersOf(s.entries)[i] == a;
    assert Held(s.entries)[a] >= 1 && Ledger(s)[a] <= 1;
  }

  /** When a `get` releases the lock, the adapter it hands out is in the pool, and nobody holds it for closing. */
  lemma HandedOutOpen(settings: L.Settings, steps: seq<Step>, step: Step)
    requires settings.maxSize >= 1 && step.Get? && !Raises(settings, After(settings, steps), step)
    ensures
      var s := Next(settings, After(settings, steps), step);
      var handed := Locked(settings, After(settings, steps), step).handed.value;
      && s.entries != [] && s.entries[|s.entries| - 1] == L.Entry(step.key, handed, step.usedAt)
      && handed !in s.closed && handed !in s.lost && handed !in Adapters(s.pending)
  {
    var before := After(settings, steps);
    var s := Next(settings, before, step);
    OwnedOnce(settings, steps);
    StepKeeps(settings, before, step);
    hide After, L.Swept;
    var handed := Locked(settings, before, step).handed.value;
    assert s.entries[|s.entries| - 1] == L.Entry(step.key, handed, step.usedAt);
    InOnePlace(s, |s.entries| - 1);
  }

  /** Nothing is expired and the key has no entry: what a `get` can check before it creates an adapter. */
  predicate SafeToFail(settings: L.Settings, entries: seq<L.Entry>, key: string, sweptAt: real) {
    L.ExpiredCount(entries, L.Deadline(settings, sweptAt)) == 0 && L.Lookup(entries, key).None?
  }

  /** A `get` whose `create_adapter` raises loses an adapter, unless there was nothing to discard. */
  lemma RaisingLosesUnlessSafe(settings: L.Settings, s: State, step: Step)
    requires settings.maxSize >= 1 && Raises(settings, s, step)
    ensures Next(settings, s, step).lost == s.lost <==> SafeToFail(settings, s.entries, step.key, step.sweptAt)
  {
    assert s.entries[0..] == s.entries;
  }

  /** The run's step i is a `get` that raised with something discarded. */
  predicate Loses(settings: L.Settings, steps: seq<Step>, i: nat)
    requires settings.maxSize >= 1 && i < |steps|
  {
    var s := After(settings, steps[..i]);
    Raises(settings, s, steps[i]) && !SafeToFail(settings, s.entries, steps[i].key, steps[i].sweptAt)
  }

  lemma LastStepLoses(settings: L.Settings, steps: seq<Step>)
    requires settings.maxSize >= 1 && steps != []
    ensures After(settings, steps).lost == []
       <==> After(settings, steps[..|steps| - 1]).lost == [] && !Loses(settings, steps, |steps| - 1)
  {
    var s, step := After(settings, steps[..|steps| - 1]), steps[|steps| - 1];
    if Raises(settings, s, step) { RaisingLosesUnlessSafe(settings, s, step); }
  }

  /** Over any run: no adapter is lost if and only if every `get` that raised was safe to fail. */
  lemma {:induction false} NothingLostIff(settings: L.Settings, steps: seq<Step>)
    requires settings.maxSize >= 1
    ensures After(settings, steps).lost == [] <==> forall i :: 0 <= i < |steps| ==> !Loses(settings, steps, i)
  {
    if steps != [] {
      var n := |steps| - 1;
      NothingLostIff(settings, steps[..n]);
      LastStepLoses(settings, steps);
      forall i | 0 <= i < n ensures Loses(settings, steps[..n], i) == Loses(settings, steps, i) {
        assert steps[..n][..i] == steps[..i];
      }
      hide *;
    }
  }

  /** One adapter, whose ping then fails while the server refuses a new one: it is never closed. */
  lemma RefusedRebuildLeaks()
    ensures
      var settings := L.Settings(8, None);
      var s := After(settings, [Get(0, "a", 0.0, 0.0, _ => true, true), Get(0, "a", 1.0, 1.0, _ => false, false)]);
      s == State([], [], [], [0], 1)
  {
    var settings := L.Settings(8, None);
    var steps := [Get(0, "a", 0.0, 0.0, _ => true, true), Get(0, "a", 1.0, 1.0, _ => false, false)];
    var one := State([L.Entry("a", 0, 0.0)], [], [], [], 1);
    assert Next(settings, INITIAL, steps[0]) == one;
    assert Next(settings, one, steps[1]) == State([], [], [], [0], 1) by {
      assert one.entries[0..] == one.entries;
    }
    hide Next;
    assert After(settings, steps[..1][..0]) == INITIAL;
    assert After(settings, steps[..1]) == one;
  }

  /** Once the pool is closed and every thread has drained its list, everything created is closed, but for what was lost. */
  lemma DrainedIsClosed(settings: L.Settings, steps: seq<Step>)
    requires settings.maxSize >= 1 && After(settings, steps).entries == [] && After(settings, steps).pending == []
    ensures
      var s := After(settings, steps);
      && (forall a: nat :: a < s.created <==> a in s.closed || a in s.lost)
      && |s.closed| + |s.lost| == s.created
  {
    var s := After(settings, steps);
    OwnedOnce(settings, steps);
    assert Ledger(s) == multiset(s.closed) + multiset(s.lost);
    forall a: nat ensures a < s.created <==> a in s.closed || a in s.lost {
      assert Ledger(s)[a] == multiset(s.closed)[a] + multiset(s.lost)[a];
    }
    CountedOnce(Ledger(s), s.created);
  }

  lemma {:induction false} CountedOnce(m: multiset<nat>, n: nat)
    requires forall a: nat :: m[a] == if a < n then 1 else 0
    ensures |m| == n
  {
    if n > 0 {
      CountedOnce(m - multiset{n - 1}, n - 1);
      assert m == (m - multiset{n - 1}) + multiset{n - 1};
    } else {
      assert m == multiset{};
    }
  }
}
