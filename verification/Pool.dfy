/**
 The adapter pool object: an ordered map of adapters worked on in place.

 Each method is the locked section of the source's method of the same name; the
 adapters it returns for closing are closed after the lock is released.  Creating
 an adapter, pinging one and reading the clock are parameters.
 */
module Pool {
  import opened Wrappers
  import L = Lru

  datatype PoolError = IllegalSize | IllegalTimeout | CannotCreate

  class AdapterPool {
    const settings: L.Settings
    var adapters: seq<L.Entry>

    static method Create(maxSize: Option<int>, idleTimeout: Option<real>) returns (pool: Result<AdapterPool, PoolError>)
      ensures pool.Err? <==> (maxSize.Some? && maxSize.value < 1) || (idleTimeout.Some? && idleTimeout.value <= 0.0)
      ensures pool.Ok? ==> fresh(pool.value) && L.Legal(pool.value.settings) && pool.value.adapters == []
      ensures pool.Ok? ==> pool.value.settings == L.Settings(if maxSize.None? then 8 else maxSize.value, idleTimeout)
    {
      var size := if maxSize.None? then 8 else maxSize.value;
      if size < 1 {
        return Err(IllegalSize);
      }
      if idleTimeout.Some? && idleTimeout.value <= 0.0 {
        return Err(IllegalTimeout);
      }
      var made := new AdapterPool(L.Settings(size, idleTimeout));
      pool := Ok(made);
    }

    constructor (settings: L.Settings)
      ensures this.settings == settings && adapters == []
    {
      this.settings := settings;
      adapters := [];
    }

    /** Walk a copy of the list from the least recently used entry, and stop at the first live one. */
    method TakeExpired(now: real) returns (expired: seq<nat>)
      requires L.Distinct(adapters)
      modifies this
      ensures L.Locked(adapters, expired, None) == L.Swept(settings, old(adapters), now)
      ensures L.Distinct(adapters)
    {
      hide L.Remove, L.AdaptersOf, L.Distinct;
      expired := [];
      NoneTaken(adapters);
      if settings.idleTimeout.None? {
        return;
      }
      var deadline := now - settings.idleTimeout.value;
      var items := adapters;
      var i := 0;
      while i < |items| && items[i].lastUsed <= deadline
        invariant 0 <= i <= |items|
        invariant adapters == items[i..] && L.Distinct(adapters) && expired == L.AdaptersOf(items[..i])
        invariant L.ExpiredCount(items, Some(deadline)) == i + L.ExpiredCount(items[i..], Some(deadline))
      {
        RemoveFirst(adapters);
        DistinctRest(adapters);
        OneTaken(items, i);
        assert items[i..][1..] == items[i + 1..];
        adapters := L.Remove(adapters, items[i].key);
        expired := expired + [items[i].adapter];
        i := i + 1;
      }
    }

    method TakeOverCapacity() returns (evicted: seq<nat>)
      requires settings.maxSize >= 1
      modifies this
      ensures adapters == L.LastN(old(adapters), settings.maxSize)
      ensures evicted == L.AdaptersOf(old(adapters)[..|old(adapters)| - |adapters|])
    {
      evicted := [];
      ghost var n := 0;
      while |adapters| > settings.maxSize
        invariant 0 <= n <= |old(adapters)| && adapters == old(adapters)[n..]
        invariant evicted == L.AdaptersOf(old(adapters)[..n])
        invariant n > 0 ==> |adapters| >= settings.maxSize
        decreases |adapters|
      {
        assert old(adapters)[..n + 1] == old(adapters)[..n] + [adapters[0]];
        evicted := evicted + [adapters[0].adapter];
        adapters := adapters[1..];
        n := n + 1;
      }
    }

    /** The locked section of `get`; `created` is the new adapter, or None where creating one raises. */
    method Get(key: string, sweptAt: real, usedAt: real, alive: nat -> bool, created: Option<nat>)
      returns (adapter: Result<nat, PoolError>, discarded: seq<nat>)
      requires L.Legal(settings) && L.Distinct(adapters)
      modifies this
      ensures L.Distinct(adapters)
      ensures L.Locked(adapters, discarded, if adapter.Ok? then Some(adapter.value) else None)
           == L.Got(settings, old(adapters), key, sweptAt, usedAt, alive, created)
    {
      hide *;
      L.AllowsOne(settings);
      discarded := TakeExpired(sweptAt);
      GotByCase(settings, adapters, key, usedAt, alive, created, old(adapters), sweptAt, discarded);
      LookupHas(adapters, key);
      RemoveKeepsDistinct(adapters, key);
      RemoveTwice(adapters, key);
      var entry := L.Lookup(adapters, key);
      if entry.Some? && !alive(entry.value.adapter) {
        adapters := L.Remove(adapters, key);
        discarded := discarded + [entry.value.adapter];
        entry := None;
      }
      if entry.None? {
        if created.None? {
          return Err(CannotCreate), discarded;
        }
        entry := Some(L.Entry(key, created.value, 0.0));
        StampedLast(adapters, entry.value, usedAt, settings.maxSize);
        adapters := adapters + [entry.value];
        var evicted := TakeOverCapacity();
        discarded := discarded + evicted;
      }
      // Stamp the entry and move it to the end.
      StampKeepsDistinct(adapters, key, entry.value.adapter, usedAt);
      adapters := L.Remove(adapters, key) + [L.Entry(key, entry.value.adapter, usedAt)];
      adapter := Ok(entry.value.adapter);
    }

    method Reap(now: real) returns (expired: seq<nat>)
      requires L.Distinct(adapters)
      modifies this
      ensures L.Locked(adapters, expired, None) == L.Swept(settings, old(adapters), now)
      ensures L.Distinct(adapters)
    {
      expired := TakeExpired(now);
    }

    method Close() returns (closing: seq<nat>)
      modifies this
      ensures adapters == [] && closing == L.AdaptersOf(old(adapters))
    {
      closing := L.AdaptersOf(adapters);
      adapters := [];
    }
  }

  lemma DistinctRest(entries: seq<L.Entry>)
    requires entries != [] && L.Distinct(entries)
    ensures L.Distinct(entries[1..])
  {
  }

  lemma NoneTaken(entries: seq<L.Entry>)
    ensures L.AdaptersOf(entries[..0]) == [] && entries[0..] == entries
  {
  }

  lemma OneTaken(entries: seq<L.Entry>, i: nat)
    requires i < |entries|
    ensures L.AdaptersOf(entries[..i + 1]) == L.AdaptersOf(entries[..i]) + [entries[i].adapter]
  {
  }

  lemma {:induction false} RemoveAbsent(entries: seq<L.Entry>, key: string)
    requires forall e :: e in entries ==> e.key != key
    ensures L.Remove(entries, key) == entries
  {
    if entries != [] { RemoveAbsent(entries[1..], key); }
  }

  lemma RemoveFirst(entries: seq<L.Entry>)
    requires entries != [] && L.Distinct(entries)
    ensures L.Remove(entries, entries[0].key) == entries[1..]
  {
    RemoveAbsent(entries[1..], entries[0].key);
  }

  lemma {:induction false} RemoveHas(entries: seq<L.Entry>, key: string)
    ensures forall e :: e in L.Remove(entries, key) <==> e in entries && e.key != key
  {
    if entries != [] {
      assert entries == [entries[0]] + entries[1..];
      RemoveHas(entries[1..], key);
    }
  }

  lemma {:induction false} RemoveKeepsDistinct(entries: seq<L.Entry>, key: string)
    requires L.Distinct(entries)
    ensures L.Distinct(L.Remove(entries, key)) && forall e :: e in L.Remove(entries, key) ==> e.key != key
  {
    RemoveHas(entries, key);
    if entries != [] {
      var first, rest := entries[0], L.Remove(entries[1..], key);
      RemoveKeepsDistinct(entries[1..], key);
      RemoveHas(entries[1..], key);
      assert L.Remove(entries, key) == (if first.key == key then [] else [first]) + rest;
      hide L.Remove;
      if first.key != key {
        DistinctFront(first, rest);
      } else {
        assert [] + rest == rest;
      }
    }
  }

  lemma DistinctFront(first: L.Entry, rest: seq<L.Entry>)
    requires L.Distinct(rest) && forall e :: e in rest ==> e.key != first.key
    ensures L.Distinct([first] + rest)
  {
  }

  lemma RemoveTwice(entries: seq<L.Entry>, key: string)
    ensures L.Remove(L.Remove(entries, key), key) == L.Remove(entries, key)
  {
    RemoveHas(entries, key);
    RemoveAbsent(L.Remove(entries, key), key);
  }

  lemma {:induction false} LookupHas(entries: seq<L.Entry>, key: string)
    ensures L.Lookup(entries, key).Some? ==> L.Lookup(entries, key).value in entries && L.Lookup(entries, key).value.key == key
    ensures L.Lookup(entries, key).None? ==> L.Remove(entries, key) == entries
  {
    if entries != [] { LookupHas(entries[1..], key); }
  }

  lemma {:induction false} RemoveLast(entries: seq<L.Entry>, e: L.Entry)
    requires forall x :: x in entries ==> x.key != e.key
    ensures L.Remove(entries + [e], e.key) == entries
  {
    if entries == [] {
      assert entries + [e] == [e];
    } else {
      assert (entries + [e])[1..] == entries[1..] + [e];
      RemoveLast(entries[1..], e);
    }
  }

  /** Evicting first and stamping then, or stamping first and evicting then. */
  lemma StampedLast(rest: seq<L.Entry>, e: L.Entry, usedAt: real, max: nat)
    requires max >= 1 && L.Distinct(rest) && forall x :: x in rest ==> x.key != e.key
    ensures
      var grown, stamped := rest + [e], L.Entry(e.key, e.adapter, usedAt);
      && L.Remove(L.LastN(grown, max), e.key) + [stamped] == L.LastN(rest + [stamped], max)
      && L.AdaptersOf(grown[..|grown| - |L.LastN(grown, max)|])
         == L.AdaptersOf((rest + [stamped])[..|rest| + 1 - |L.LastN(rest + [stamped], max)|])
      && L.Distinct(L.LastN(grown, max))
  {
    hide L.Remove, L.Distinct;
    var kept, stamped := L.LastN(rest, max - 1), L.Entry(e.key, e.adapter, usedAt);
    var n := |rest| - |kept|;
    assert L.LastN(rest + [e], max) == kept + [e] && L.LastN(rest + [stamped], max) == kept + [stamped];
    assert (rest + [e])[..n] == rest[..n] == (rest + [stamped])[..n];
    LastNDistinct(rest, e, max);
    RemoveLast(kept, e);
  }

  lemma LastNDistinct(rest: seq<L.Entry>, e: L.Entry, max: nat)
    requires L.Distinct(rest) && forall x :: x in rest ==> x.key != e.key
    ensures L.Distinct(L.LastN(rest + [e], max))
  {
  }

  lemma StampKeepsDistinct(entries: seq<L.Entry>, key: string, adapter: nat, usedAt: real)
    requires L.Distinct(entries)
    ensures L.Distinct(L.Remove(entries, key) + [L.Entry(key, adapter, usedAt)])
  {
    RemoveKeepsDistinct(entries, key);
  }

  /** The three ways a `get` ends, from what the sweep left. */
  lemma GotByCase(settings: L.Settings, swept: seq<L.Entry>, key: string, usedAt: real, alive: nat -> bool, created: Option<nat>,
                  entries: seq<L.Entry>, sweptAt: real, expired: seq<nat>)
    requires settings.maxSize >= 1 && L.Locked(swept, expired, None) == L.Swept(settings, entries, sweptAt)
    ensures
      var got, found, rest :=
        L.Got(settings, entries, key, sweptAt, usedAt, alive, created), L.Lookup(swept, key), L.Remove(swept, key);
      if found.Some? && alive(found.value.adapter) then
        got == L.Locked(rest + [L.Entry(key, found.value.adapter, usedAt)], expired, Some(found.value.adapter))
      else
        var discarded := expired + if found.Some? then [found.value.adapter] else [];
        if created.None? then got == L.Locked(rest, discarded, None)
        else
          var grown := rest + [L.Entry(key, created.value, usedAt)];
          var kept := L.LastN(grown, settings.maxSize);
          |kept| <= |grown|
          && got == L.Locked(kept, discarded + L.AdaptersOf(grown[..|grown| - |kept|]), created)
  {
  }
}
