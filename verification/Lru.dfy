/**
 The adapter pool as a value, and the LRU cache it is meant to be.

 The reference never mentions the pool's list: it takes the history of uses,
 keeps each key at its latest use, the last `maxSize` of them, and of those the
 ones used since the latest sweep's deadline.
 */
module Lru {
  import opened Wrappers

  datatype Entry = Entry(key: string, adapter: nat, lastUsed: real)

  /** The ordered map of the pool: least recently used first, each key once. */
  predicate Distinct(entries: seq<Entry>) {
    forall i, j :: 0 <= i < j < |entries| ==> entries[i].key != entries[j].key
  }

  function Remove(entries: seq<Entry>, key: string): seq<Entry> {
    if entries == [] then []
    else (if entries[0].key == key then [] else [entries[0]]) + Remove(entries[1..], key)
  }

  function Lookup(entries: seq<Entry>, key: string): Option<Entry> {
    if entries == [] then None
    else if entries[0].key == key then Some(entries[0]) else Lookup(entries[1..], key)
  }

  function AdaptersOf(entries: seq<Entry>): seq<nat> {
    seq(|entries|, i requires 0 <= i < |entries| => entries[i].adapter)
  }

  /** How many entries at the front a sweep takes before it meets the first live one. */
  function ExpiredCount(entries: seq<Entry>, deadline: Option<real>): (n: nat)
    ensures n <= |entries|
  {
    if entries == [] || deadline.None? || entries[0].lastUsed > deadline.value then 0
    else 1 + ExpiredCount(entries[1..], deadline)
  }

  function LastN<T>(s: seq<T>, n: nat): seq<T> {
    if |s| <= n then s else s[|s| - n..]
  }

  datatype Settings = Settings(maxSize: nat, idleTimeout: Option<real>)

  predicate Legal(settings: Settings) {
    settings.maxSize >= 1 && (settings.idleTimeout.Some? ==> settings.idleTimeout.value > 0.0)
  }

  function Deadline(settings: Settings, now: real): Option<real> {
    if settings.idleTimeout.None? then None else Some(now - settings.idleTimeout.value)
  }

  /** The outcome of a locked section: the entries left, the adapters to close, the adapter handed out. */
  datatype Locked = Locked(entries: seq<Entry>, discarded: seq<nat>, handed: Option<nat>)

  function Swept(settings: Settings, entries: seq<Entry>, now: real): Locked {
    var n := ExpiredCount(entries, Deadline(settings, now));
    Locked(entries[n..], AdaptersOf(entries[..n]), None)
  }

  /**
   One `get`: sweep, look up, ping, rebuild, evict, stamp.  `made` is the adapter
   `create_adapter` returns, or None when it raises.
   */
  function Got(settings: Settings, entries: seq<Entry>, key: string, sweptAt: real, usedAt: real,
               alive: nat -> bool, made: Option<nat>): Locked
    requires settings.maxSize >= 1
  {
    var swept := Swept(settings, entries, sweptAt);
    var found := Lookup(swept.entries, key);
    var rest := Remove(swept.entries, key);
    if found.Some? && alive(found.value.adapter) then
      Locked(rest + [Entry(key, found.value.adapter, usedAt)], swept.discarded, Some(found.value.adapter))
    else
      var discarded := swept.discarded + if found.Some? then [found.value.adapter] else [];
      if made.None? then Locked(rest, discarded, None)
      else
        var grown := rest + [Entry(key, made.value, usedAt)];
        Locked(LastN(grown, settings.maxSize), discarded + AdaptersOf(grown[..|grown| - |LastN(grown, settings.maxSize)|]),
               Some(made.value))
  }

  // ---- histories ----

  /**
   A locked operation, with the clock readings it takes, the answers of the pings and
   whether an adapter can be created.  A `get` that raises takes no second reading;
   its `usedAt` may be its `sweptAt`.
   */
  datatype Op =
    | Get(key: string, sweptAt: real, usedAt: real, alive: nat -> bool, creates: bool)
    | Reap(at: real)
    | Close

  datatype Pool = Pool(entries: seq<Entry>, created: nat)

  function GotFrom(settings: Settings, pool: Pool, op: Op): Locked
    requires settings.maxSize >= 1 && op.Get?
  {
    Got(settings, pool.entries, op.key, op.sweptAt, op.usedAt, op.alive, if op.creates then Some(pool.created) else None)
  }

  /** A `get` that hands out nothing: there was no live adapter to be had, and creating one raised. */
  predicate Raises(settings: Settings, pool: Pool, op: Op)
    requires settings.maxSize >= 1
  {
    op.Get? && GotFrom(settings, pool, op).handed.None?
  }

  /** It also takes a dead adapter out of the list and puts none in its place. */
  predicate Loses(settings: Settings, pool: Pool, op: Op)
    requires settings.maxSize >= 1
  {
    Raises(settings, pool, op) && Lookup(Swept(settings, pool.entries, op.sweptAt).entries, op.key).Some?
  }

  function Perform(settings: Settings, pool: Pool, op: Op): Pool
    requires settings.maxSize >= 1
  {
    match op
    case Get(_, _, _, _, _) =>
      var locked := GotFrom(settings, pool, op);
      Pool(locked.entries, if locked.handed == Some(pool.created) then pool.created + 1 else pool.created)
    case Reap(at) => pool.(entries := Swept(settings, pool.entries, at).entries)
    case Close => pool.(entries := [])
  }

  function After(settings: Settings, ops: seq<Op>): Pool
    requires settings.maxSize >= 1
  {
    if ops == [] then Pool([], 0) else Perform(settings, After(settings, ops[..|ops| - 1]), ops[|ops| - 1])
  }

  /** No `get` so far lost an entry. */
  predicate NoneLost(settings: Settings, ops: seq<Op>)
    requires settings.maxSize >= 1
  {
    ops == [] ||
    (NoneLost(settings, ops[..|ops| - 1]) && !Loses(settings, After(settings, ops[..|ops| - 1]), ops[|ops| - 1]))
  }

  // ---- the reference ----

  datatype Use = Use(key: string, at: real)

  /** Every use since the pool was last closed, oldest first; a `get` that raised is none. */
  function Uses(settings: Settings, ops: seq<Op>): seq<Use>
    requires settings.maxSize >= 1
  {
    if ops == [] then []
    else
      var earlier, op := ops[..|ops| - 1], ops[|ops| - 1];
      match op
      case Get(key, _, usedAt, _, _) =>
        Uses(settings, earlier) + if Raises(settings, After(settings, earlier), op) then [] else [Use(key, usedAt)]
      case Reap(_) => Uses(settings, earlier)
      case Close => []
  }

  function Without(uses: seq<Use>, key: string): seq<Use> {
    if uses == [] then []
    else (if uses[0].key == key then [] else [uses[0]]) + Without(uses[1..], key)
  }

  /** Each key once, at its latest use, least recently used first. */
  function Recent(uses: seq<Use>): seq<Use> {
    if uses == [] then []
    else
      var last := uses[|uses| - 1];
      Without(Recent(uses[..|uses| - 1]), last.key) + [last]
  }

  /** The deadline of the latest sweep since the pool was last closed. */
  function LatestDeadline(settings: Settings, ops: seq<Op>): Option<real> {
    if ops == [] then None
    else
      match ops[|ops| - 1]
      case Get(_, sweptAt, _, _, _) => Deadline(settings, sweptAt)
      case Reap(at) => Deadline(settings, at)
      case Close => None
  }

  predicate IsLive(use: Use, deadline: Option<real>) {
    deadline.None? || use.at > deadline.value
  }

  function Live(uses: seq<Use>, deadline: Option<real>): (live: seq<Use>)
    ensures |live| <= |uses|
  {
    if uses == [] then []
    else (if IsLive(uses[0], deadline) then [uses[0]] else []) + Live(uses[1..], deadline)
  }

  function Expected(settings: Settings, ops: seq<Op>): seq<Use>
    requires settings.maxSize >= 1
  {
    Live(LastN(Recent(Uses(settings, ops)), settings.maxSize), LatestDeadline(settings, ops))
  }

  function UsesOf(entries: seq<Entry>): seq<Use> {
    seq(|entries|, i requires 0 <= i < |entries| => Use(entries[i].key, entries[i].lastUsed))
  }

  /** The latest clock reading of a history. */
  function Clock(ops: seq<Op>): Option<real> {
    if ops == [] then None
    else
      match ops[|ops| - 1]
      case Get(_, _, usedAt, _, _) => Some(usedAt)
      case Reap(at) => Some(at)
      case Close => Clock(ops[..|ops| - 1])
  }

  /** The clock never goes back, within an operation or between two. */
  predicate Monotone(ops: seq<Op>) {
    ops == [] ||
    (var earlier := Clock(ops[..|ops| - 1]);
     && Monotone(ops[..|ops| - 1])
     && match ops[|ops| - 1]
        case Get(_, sweptAt, usedAt, _, _) => sweptAt <= usedAt && (earlier.Some? ==> earlier.value <= sweptAt)
        case Reap(at) => earlier.Some? ==> earlier.value <= at
        case Close => true)
  }

  // ---- lists ----

  predicate Ordered(uses: seq<Use>) {
    uses == [] || ((forall u :: u in uses[1..] ==> uses[0].at <= u.at) && Ordered(uses[1..]))
  }

  predicate DistinctKeys(uses: seq<Use>) {
    uses == [] || ((forall u :: u in uses[1..] ==> uses[0].key != u.key) && DistinctKeys(uses[1..]))
  }

  lemma {:induction false} WithoutHas(uses: seq<Use>, key: string)
    ensures forall u :: u in Without(uses, key) <==> u in uses && u.key != key
  {
    if uses != [] {
      assert uses == [uses[0]] + uses[1..];
      WithoutHas(uses[1..], key);
    }
  }

  lemma {:induction false} WithoutKeepsAll(uses: seq<Use>, key: string)
    requires forall u :: u in uses ==> u.key != key
    ensures Without(uses, key) == uses
  {
    if uses != [] { WithoutKeepsAll(uses[1..], key); }
  }

  lemma {:induction false} WithoutOrdered(uses: seq<Use>, key: string)
    ensures Ordered(uses) ==> Ordered(Without(uses, key))
  {
    if uses != [] {
      WithoutOrdered(uses[1..], key);
      WithoutHas(uses[1..], key);
      assert Without(uses, key) == if uses[0].key == key then Without(uses[1..], key) else [uses[0]] + Without(uses[1..], key);
    }
  }

  lemma {:induction false} WithoutDistinct(uses: seq<Use>, key: string)
    requires DistinctKeys(uses)
    ensures DistinctKeys(Without(uses, key)) && |Without(uses, key)| >= |uses| - 1
  {
    if uses != [] {
      WithoutDistinct(uses[1..], key);
      WithoutHas(uses[1..], key);
      if uses[0].key == key {
        WithoutKeepsAll(uses[1..], key);
        assert Without(uses, key) == Without(uses[1..], key);
      } else {
        assert Without(uses, key)[1..] == Without(uses[1..], key);
      }
    }
  }

  lemma {:induction false} OneMoreUse(uses: seq<Use>, u: Use)
    ensures Ordered(uses) && (forall v :: v in uses ==> v.at <= u.at) ==> Ordered(uses + [u])
    ensures DistinctKeys(uses) && (forall v :: v in uses ==> v.key != u.key) ==> DistinctKeys(uses + [u])
  {
    if uses != [] {
      OneMoreUse(uses[1..], u);
      assert (uses + [u])[1..] == uses[1..] + [u];
    }
  }

  lemma {:induction false} SuffixKeeps(uses: seq<Use>, n: nat)
    requires n <= |uses|
    ensures Ordered(uses) ==> Ordered(uses[n..])
    ensures DistinctKeys(uses) ==> DistinctKeys(uses[n..])
  {
    if n > 0 {
      SuffixKeeps(uses[1..], n - 1);
      assert uses[1..][n - 1..] == uses[n..];
    }
  }

  lemma {:induction false} WithoutJoins(a: seq<Use>, b: seq<Use>, key: string)
    ensures Without(a + b, key) == Without(a, key) + Without(b, key)
  {
    if a == [] {
      assert a + b == b;
    } else {
      assert (a + b)[1..] == a[1..] + b;
      WithoutJoins(a[1..], b, key);
    }
  }

  /** The first use, if it is live. */
  function LiveHead(u: Use, deadline: Option<real>): seq<Use> {
    if IsLive(u, deadline) then [u] else []
  }

  lemma LiveFirst(u: Use, rest: seq<Use>, deadline: Option<real>)
    ensures Live([u] + rest, deadline) == LiveHead(u, deadline) + Live(rest, deadline)
  {
    assert ([u] + rest)[1..] == rest;
  }

  lemma {:induction false} LiveJoins(a: seq<Use>, b: seq<Use>, deadline: Option<real>)
    ensures Live(a + b, deadline) == Live(a, deadline) + Live(b, deadline)
  {
    if a == [] {
      assert a + b == b;
    } else {
      hide *;
      var u, rest := a[0], a[1..];
      assert a == [u] + rest && a + b == [u] + (rest + b);
      LiveFirst(u, rest, deadline);
      LiveFirst(u, rest + b, deadline);
      LiveJoins(rest, b, deadline);
    }
  }

  lemma {:induction false} LiveKeepsAll(uses: seq<Use>, deadline: Option<real>)
    requires forall u :: u in uses ==> IsLive(u, deadline)
    ensures Live(uses, deadline) == uses
  {
    if uses != [] { LiveKeepsAll(uses[1..], deadline); }
  }

  lemma {:induction false} LiveDropsAll(uses: seq<Use>, deadline: Option<real>)
    requires forall u :: u in uses ==> !IsLive(u, deadline)
    ensures Live(uses, deadline) == []
  {
    if uses != [] { LiveDropsAll(uses[1..], deadline); }
  }

  /** In the order of use, the live ones are a suffix. */
  lemma {:induction false} LiveIsSuffix(uses: seq<Use>, deadline: Option<real>) returns (n: nat)
    requires deadline.None? || Ordered(uses)
    ensures n <= |uses| && Live(uses, deadline) == uses[n..]
    ensures forall i :: 0 <= i < n ==> !IsLive(uses[i], deadline)
    ensures forall i :: n <= i < |uses| ==> IsLive(uses[i], deadline)
  {
    if uses == [] {
      n := 0;
    } else if IsLive(uses[0], deadline) {
      n := 0;
      forall i | 0 <= i < |uses| ensures IsLive(uses[i], deadline) {
        assert i > 0 ==> uses[i] in uses[1..];
      }
      LiveKeepsAll(uses, deadline);
    } else {
      assert forall i :: 0 <= i < |uses[1..]| ==> uses[1..][i] == uses[i + 1];
      var m := LiveIsSuffix(uses[1..], deadline);
      n := m + 1;
      forall i | 0 <= i < |uses| ensures (i < n ==> !IsLive(uses[i], deadline)) && (n <= i ==> IsLive(uses[i], deadline)) {
        if i > 0 { assert uses[i] == uses[1..][i - 1]; }
      }
    }
  }

  /** Taking the last n commutes with dropping what expired. */
  lemma LastNLive(uses: seq<Use>, n: nat, deadline: Option<real>)
    requires deadline.None? || Ordered(uses)
    ensures LastN(Live(uses, deadline), n) == Live(LastN(uses, n), deadline)
  {
    var m := LiveIsSuffix(uses, deadline);
    hide Live, IsLive, Ordered;
    if |uses| > n {
      var k := |uses| - n;
      assert uses == uses[..k] + uses[k..];
      LiveJoins(uses[..k], uses[k..], deadline);
      if m <= k {
        LiveKeepsAll(uses[k..], deadline);
        SuffixOfSuffix(uses, m, k);
      } else {
        LiveDropsAll(uses[..k], deadline);
      }
    }
  }

  lemma SuffixOfSuffix<T>(s: seq<T>, m: nat, k: nat)
    requires m <= k <= |s|
    ensures LastN(s[m..], |s| - k) == s[k..]
  {
  }

  lemma {:induction false} WithoutLive(uses: seq<Use>, key: string, deadline: Option<real>)
    ensures Without(Live(uses, deadline), key) == Live(Without(uses, key), deadline)
  {
    if uses != [] {
      var head, rest := [uses[0]], uses[1..];
      WithoutLive(rest, key, deadline);
      WithoutJoins(if IsLive(uses[0], deadline) then head else [], Live(rest, deadline), key);
      LiveJoins(if uses[0].key != key then head else [], Without(rest, key), deadline);
      assert Without(head, key) == if uses[0].key != key then head else [];
      assert Live(head, deadline) == if IsLive(uses[0], deadline) then head else [];
    }
  }

  /** Dropping expired uses twice is dropping them by the later deadline. */
  lemma {:induction false} LiveTwice(uses: seq<Use>, earlier: Option<real>, later: Option<real>)
    requires earlier.Some? ==> later.Some? && earlier.value <= later.value
    ensures Live(Live(uses, earlier), later) == Live(uses, later)
  {
    if uses != [] {
      var head, rest := [uses[0]], uses[1..];
      LiveTwice(rest, earlier, later);
      LiveJoins(if IsLive(uses[0], earlier) then head else [], Live(rest, earlier), later);
      assert Live(head, later) == if IsLive(uses[0], later) then head else [];
    }
  }

  /** Keeping n and then removing one key leaves the same last n - 1 as removing it first. */
  lemma LastNWithout(uses: seq<Use>, n: nat, key: string)
    requires n >= 1 && DistinctKeys(uses)
    ensures LastN(Without(LastN(uses, n), key), n - 1) == LastN(Without(uses, key), n - 1)
  {
    if |uses| > n {
      var k := |uses| - n;
      var front, tail := uses[..k], uses[k..];
      assert uses == front + tail;
      SuffixKeeps(uses, k);
      WithoutJoins(front, tail, key);
      WithoutDistinct(tail, key);
      LastNOfJoin(Without(front, key), Without(tail, key), n - 1);
    }
  }

  lemma LastNOfJoin<T>(a: seq<T>, b: seq<T>, n: nat)
    requires |b| >= n
    ensures LastN(a + b, n) == LastN(b, n)
  {
  }

  // ---- the pool's list against the reference's ----

  lemma {:induction false} RemoveIsWithout(entries: seq<Entry>, key: string)
    ensures UsesOf(Remove(entries, key)) == Without(UsesOf(entries), key)
  {
    if entries != [] {
      RemoveIsWithout(entries[1..], key);
      assert UsesOf(entries)[1..] == UsesOf(entries[1..]);
    }
  }

  lemma {:induction false} ExpiredIsPrefix(entries: seq<Entry>, deadline: Option<real>)
    ensures
      var n := ExpiredCount(entries, deadline);
      && (forall i :: 0 <= i < n ==> deadline.Some? && entries[i].lastUsed <= deadline.value)
      && (n < |entries| ==> deadline.None? || entries[n].lastUsed > deadline.value)
  {
    if !(entries == [] || deadline.None? || entries[0].lastUsed > deadline.value) {
      ExpiredIsPrefix(entries[1..], deadline);
      var n := ExpiredCount(entries, deadline);
      assert forall i :: 0 < i < n ==> entries[i] == entries[1..][i - 1];
    }
  }

  /**
   Entries sorted by use: taking from the front while expired takes exactly the
   expired ones, and leaves exactly the live ones.
   */
  lemma {:induction false} SweepIsExact(entries: seq<Entry>, deadline: Option<real>)
    requires Ordered(UsesOf(entries))
    ensures
      var n := ExpiredCount(entries, deadline);
      && (forall i :: 0 <= i < |entries| ==> (i < n <==> deadline.Some? && entries[i].lastUsed <= deadline.value))
      && UsesOf(entries[n..]) == Live(UsesOf(entries), deadline)
  {
    hide Live, Ordered;
    var n, uses := ExpiredCount(entries, deadline), UsesOf(entries);
    var m := LiveIsSuffix(uses, deadline);
    ExpiredIsPrefix(entries, deadline);
    forall i | 0 <= i < |entries| ensures i < m <==> deadline.Some? && entries[i].lastUsed <= deadline.value {
      assert i < m <==> !IsLive(uses[i], deadline);
    }
    assert m >= |entries| || entries[m].lastUsed == uses[m].at;
    assert n >= |entries| || entries[n].lastUsed == uses[n].at;
    assert n == m;
    assert UsesOf(entries[n..]) == uses[n..];
  }

  lemma {:induction false} RecentFacts(uses: seq<Use>)
    ensures DistinctKeys(Recent(uses))
    ensures forall u :: u in Recent(uses) ==> u in uses
  {
    if uses != [] {
      var n := |uses| - 1;
      RecentFacts(uses[..n]);
      WithoutDistinct(Recent(uses[..n]), uses[n].key);
      WithoutHas(Recent(uses[..n]), uses[n].key);
      OneMoreUse(Without(Recent(uses[..n]), uses[n].key), uses[n]);
    }
  }

  lemma {:induction false} UsesOrdered(settings: Settings, ops: seq<Op>)
    requires settings.maxSize >= 1 && Monotone(ops)
    ensures Ordered(Recent(Uses(settings, ops)))
    ensures forall u :: u in Uses(settings, ops) ==> Clock(ops).Some? && u.at <= Clock(ops).value
  {
    hide After, Raises;
    if ops != [] {
      var earlier, op := ops[..|ops| - 1], ops[|ops| - 1];
      var before := Uses(settings, earlier);
      UsesOrdered(settings, earlier);
      if op.Get? {
        if Raises(settings, After(settings, earlier), op) {
          assert before + [] == before;
        } else {
          var u := Use(op.key, op.usedAt);
          UsesOneMore(before, u);
        }
      }
    }
  }

  lemma UsesOneMore(before: seq<Use>, u: Use)
    ensures Recent(before + [u]) == Without(Recent(before), u.key) + [u]
    ensures Ordered(Recent(before)) && (forall v :: v in before ==> v.at <= u.at) ==> Ordered(Recent(before + [u]))
  {
    assert (before + [u])[..|before|] == before;
    RecentFacts(before);
    WithoutOrdered(Recent(before), u.key);
    WithoutHas(Recent(before), u.key);
    OneMoreUse(Without(Recent(before), u.key), u);
  }

  lemma DeadlineBeforeClock(settings: Settings, ops: seq<Op>)
    requires Legal(settings) && Monotone(ops) && LatestDeadline(settings, ops).Some?
    ensures Clock(ops).Some? && settings.idleTimeout.Some?
    ensures LatestDeadline(settings, ops).value <= Clock(ops).value - settings.idleTimeout.value
  {
  }

  /** The sweep of the next operation, on a pool that is as expected. */
  lemma SweepAdvances(settings: Settings, entries: seq<Entry>, recent: seq<Use>, earlier: Option<real>, now: real)
    requires settings.idleTimeout.None? || Ordered(recent)
    requires UsesOf(entries) == Live(LastN(recent, settings.maxSize), earlier)
    requires earlier.Some? ==> settings.idleTimeout.Some? && earlier.value <= now - settings.idleTimeout.value
    ensures UsesOf(Swept(settings, entries, now).entries) == Live(LastN(recent, settings.maxSize), Deadline(settings, now))
  {
    var kept := LastN(recent, settings.maxSize);
    var deadline := Deadline(settings, now);
    LiveTwice(kept, earlier, deadline);
    if deadline.None? {
      assert entries[0..] == entries;
    } else {
      assert Ordered(kept) by { LastNOrdered(recent, settings.maxSize); }
      var n := LiveIsSuffix(kept, earlier);
      SuffixKeeps(kept, n);
      SweepIsExact(entries, deadline);
    }
  }

  lemma LastNOrdered(uses: seq<Use>, n: nat)
    requires Ordered(uses)
    ensures Ordered(LastN(uses, n))
  {
    if |uses| > n { SuffixKeeps(uses, |uses| - n); }
  }

  /** The list a `get` leaves, whichever way it came by the adapter. */
  lemma GotList(settings: Settings, entries: seq<Entry>, key: string, sweptAt: real, usedAt: real, alive: nat -> bool,
                made: Option<nat>)
    requires settings.maxSize >= 1 && |entries| <= settings.maxSize
    requires Got(settings, entries, key, sweptAt, usedAt, alive, made).handed.Some?
    ensures
      var swept := Swept(settings, entries, sweptAt).entries;
      UsesOf(Got(settings, entries, key, sweptAt, usedAt, alive, made).entries)
      == LastN(Without(UsesOf(swept), key), settings.maxSize - 1) + [Use(key, usedAt)]
  {
    var swept := Swept(settings, entries, sweptAt).entries;
    var rest, found := Remove(swept, key), Lookup(swept, key);
    RemoveIsWithout(swept, key);
    RemoveShrinks(swept, key);
    var got := Got(settings, entries, key, sweptAt, usedAt, alive, made);
    hide Swept, Remove, Lookup, Without;
    if found.Some? && alive(found.value.adapter) {
      assert LastN(rest, settings.maxSize - 1) == rest;
      StampedUses(rest, Entry(key, found.value.adapter, usedAt), settings.maxSize - 1);
    } else {
      var e := Entry(key, made.value, usedAt);
      assert got.entries == LastN(rest + [e], settings.maxSize) == LastN(rest, settings.maxSize - 1) + [e];
      StampedUses(rest, e, settings.maxSize - 1);
    }
  }

  lemma StampedUses(rest: seq<Entry>, e: Entry, n: nat)
    ensures UsesOf(LastN(rest, n) + [e]) == LastN(UsesOf(rest), n) + [Use(e.key, e.lastUsed)]
  {
    assert UsesOf(LastN(rest, n)) == LastN(UsesOf(rest), n);
  }

  lemma {:induction false} RemoveShrinks(entries: seq<Entry>, key: string)
    ensures |Remove(entries, key)| <= |entries|
    ensures Lookup(entries, key).Some? ==> |Remove(entries, key)| < |entries|
    ensures Lookup(entries, key).None? ==> Remove(entries, key) == entries
  {
    if entries != [] { RemoveShrinks(entries[1..], key); }
  }

  /**
   The pool is the LRU cache: after every history of gets, sweeps and closes, raising
   gets among them, its entries, in order, are the last `maxSize` distinct keys by most
   recent use, less those not used since the latest sweep's deadline, whatever pings
   fail, as long as no `get` lost an entry.  With idle expiry on this needs a clock
   that does not go back; with it off, nothing.
   */
  lemma {:induction false} PoolIsLru(settings: Settings, ops: seq<Op>)
    requires Legal(settings) && (settings.idleTimeout.None? || Monotone(ops))
    requires NoneLost(settings, ops)
    ensures UsesOf(After(settings, ops).entries) == Expected(settings, ops)
  {
    if ops != [] {
      var earlier, op := ops[..|ops| - 1], ops[|ops| - 1];
      PoolIsLru(settings, earlier);
      OneOperation(settings, ops);
    }
  }

  /** It is the LRU cache at every point of a history if and only if no `get` of that history loses an entry. */
  lemma PoolIsLruIff(settings: Settings, ops: seq<Op>)
    requires Legal(settings) && (settings.idleTimeout.None? || Monotone(ops))
    ensures (forall n :: 0 <= n <= |ops| ==> UsesOf(After(settings, ops[..n]).entries) == Expected(settings, ops[..n]))
       <==> NoneLost(settings, ops)
  {
    hide After, Expected, Monotone, NoneLost;
    if NoneLost(settings, ops) {
      forall n | 0 <= n <= |ops| ensures UsesOf(After(settings, ops[..n]).entries) == Expected(settings, ops[..n]) {
        Prefixes(settings, ops, n);
        PoolIsLru(settings, ops[..n]);
      }
    } else {
      var n := FirstLost(settings, ops);
      Prefixes(settings, ops, n);
      Prefixes(settings, ops, n + 1);
      assert ops[..n + 1][..n] == ops[..n];
      PoolIsLru(settings, ops[..n]);
      OneOperation(settings, ops[..n + 1]);
    }
  }

  /** It can: one adapter opened, dead at its next use and refused a successor leaves an empty pool. */
  lemma RefusedRebuildForgets()
    ensures
      var settings := Settings(1, None);
      var open, fail := Get("b", 0.0, 0.0, _ => true, true), Get("b", 1.0, 1.0, _ => false, false);
      && !NoneLost(settings, [open, fail])
      && After(settings, [open, fail]).entries == [] && Expected(settings, [open, fail]) == [Use("b", 0.0)]
  {
    var settings := Settings(1, None);
    var open, fail := Get("b", 0.0, 0.0, _ => true, true), Get("b", 1.0, 1.0, _ => false, false);
    var ops, u := [open, fail], Use("b", 0.0);
    assert ops[..1] == [open];
    OneOpened(settings, open);
    OneLost(settings, fail);
    RecentOne(u);
    hide Loses, Perform, Got, Recent;
    assert After(settings, ops).entries == [];
    assert Uses(settings, ops) == [u];
    assert Live([u], None) == [u];
  }

  lemma OneOpened(settings: Settings, op: Op)
    requires settings == Settings(1, None) && op.Get? && op.key == "b" && op.usedAt == 0.0 && op.creates
    ensures After(settings, [op]) == Pool([Entry("b", 0, 0.0)], 1) && Uses(settings, [op]) == [Use("b", 0.0)]
  {
    assert [op][..0] == [];
    assert GotFrom(settings, Pool([], 0), op) == Locked([Entry("b", 0, 0.0)], [], Some(0));
  }

  lemma OneLost(settings: Settings, op: Op)
    requires settings == Settings(1, None) && op.Get? && op.key == "b" && !op.alive(0) && !op.creates
    ensures
      var pool := Pool([Entry("b", 0, 0.0)], 1);
      Loses(settings, pool, op) && Raises(settings, pool, op) && Perform(settings, pool, op).entries == []
  {
    assert Remove([Entry("b", 0, 0.0)], "b") == [];
  }

  lemma RecentOne(u: Use)
    ensures Recent([u]) == [u]
  {
    UsesOneMore([], u);
    assert [] + [u] == [u];
  }

  lemma {:induction false} Prefixes(settings: Settings, ops: seq<Op>, n: nat)
    requires settings.maxSize >= 1 && n <= |ops|
    ensures Monotone(ops) ==> Monotone(ops[..n])
    ensures NoneLost(settings, ops) ==> NoneLost(settings, ops[..n])
  {
    hide Loses, After, Clock;
    if n == |ops| {
      assert ops[..n] == ops;
    } else {
      Prefixes(settings, ops[..|ops| - 1], n);
      assert ops[..|ops| - 1][..n] == ops[..n];
    }
  }

  lemma {:induction false} FirstLost(settings: Settings, ops: seq<Op>) returns (n: nat)
    requires settings.maxSize >= 1 && !NoneLost(settings, ops)
    ensures n < |ops| && NoneLost(settings, ops[..n]) && Loses(settings, After(settings, ops[..n]), ops[n])
  {
    hide Loses, After;
    var earlier := ops[..|ops| - 1];
    if NoneLost(settings, earlier) {
      n := |ops| - 1;
    } else {
      n := FirstLost(settings, earlier);
      assert earlier[..n] == ops[..n];
    }
  }

  // The last operation of a history, on a pool that was as expected before it.

  lemma OneOperation(settings: Settings, ops: seq<Op>)
    requires Legal(settings) && (settings.idleTimeout.None? || Monotone(ops)) && ops != []
    requires UsesOf(After(settings, ops[..|ops| - 1]).entries) == Expected(settings, ops[..|ops| - 1])
    ensures UsesOf(After(settings, ops).entries) == Expected(settings, ops)
       <==> !Loses(settings, After(settings, ops[..|ops| - 1]), ops[|ops| - 1])
  {
    var earlier, op := ops[..|ops| - 1], ops[|ops| - 1];
    assert After(settings, ops) == Perform(settings, After(settings, earlier), op);
    hide After;
    match op
    case Get(_, _, _, _, _) =>
      hide *;
      AfterGet(settings, After(settings, earlier), ops);
    case Reap(_) =>
      hide *;
      AfterReap(settings, After(settings, earlier), ops);
    case Close =>
  }

  /** What is known before the operation: its sweep leaves what is still to be expected. */
  lemma BeforeOperation(settings: Settings, entries: seq<Entry>, ops: seq<Op>, now: real)
    requires Legal(settings) && (settings.idleTimeout.None? || Monotone(ops)) && ops != []
    requires UsesOf(entries) == Expected(settings, ops[..|ops| - 1])
    requires (ops[|ops| - 1].Get? && now == ops[|ops| - 1].sweptAt) || (ops[|ops| - 1].Reap? && now == ops[|ops| - 1].at)
    ensures
      var recent := Recent(Uses(settings, ops[..|ops| - 1]));
      && DistinctKeys(recent) && (settings.idleTimeout.Some? ==> Ordered(recent))
      && |entries| <= settings.maxSize
      && UsesOf(Swept(settings, entries, now).entries) == Live(LastN(recent, settings.maxSize), Deadline(settings, now))
  {
    hide After, Raises, Recent, Uses, Live, Swept, Ordered, DistinctKeys;
    var earlier := ops[..|ops| - 1];
    RecentFacts(Uses(settings, earlier));
    if settings.idleTimeout.Some? {
      UsesOrdered(settings, earlier);
      if LatestDeadline(settings, earlier).Some? { DeadlineBeforeClock(settings, earlier); }
    } else {
      NeverADeadline(settings, earlier);
    }
    SweepAdvances(settings, entries, Recent(Uses(settings, earlier)), LatestDeadline(settings, earlier), now);
  }

  lemma NeverADeadline(settings: Settings, ops: seq<Op>)
    requires settings.idleTimeout.None?
    ensures LatestDeadline(settings, ops).None?
  {
  }

  lemma AfterReap(settings: Settings, pool: Pool, ops: seq<Op>)
    requires Legal(settings) && (settings.idleTimeout.None? || Monotone(ops)) && ops != [] && ops[|ops| - 1].Reap?
    requires UsesOf(pool.entries) == Expected(settings, ops[..|ops| - 1])
    ensures UsesOf(Perform(settings, pool, ops[|ops| - 1]).entries) == Expected(settings, ops)
    ensures !Loses(settings, pool, ops[|ops| - 1])
  {
    BeforeOperation(settings, pool.entries, ops, ops[|ops| - 1].at);
    hide After, Recent, Live, LastN, Swept, Monotone, UsesOf;
  }

  lemma AfterGet(settings: Settings, pool: Pool, ops: seq<Op>)
    requires Legal(settings) && (settings.idleTimeout.None? || Monotone(ops)) && ops != [] && ops[|ops| - 1].Get?
    requires pool == After(settings, ops[..|ops| - 1]) && UsesOf(pool.entries) == Expected(settings, ops[..|ops| - 1])
    ensures UsesOf(Perform(settings, pool, ops[|ops| - 1]).entries) == Expected(settings, ops)
       <==> !Loses(settings, pool, ops[|ops| - 1])
  {
    hide *;
    var earlier, op := ops[..|ops| - 1], ops[|ops| - 1];
    AllowsOne(settings);
    BeforeOperation(settings, pool.entries, ops, op.sweptAt);
    GetExpected(settings, ops);
    if Raises(settings, pool, op) {
      RaisingGet(settings, pool, op);
    } else {
      UsesOneMore(Uses(settings, earlier), Use(op.key, op.usedAt));
      HandingGet(settings, pool, op, Recent(Uses(settings, earlier)));
    }
  }

  /** What is to be expected after a `get`, and that its readings of the clock are in order. */
  lemma GetExpected(settings: Settings, ops: seq<Op>)
    requires settings.maxSize >= 1 && ops != [] && ops[|ops| - 1].Get?
    ensures
      var earlier, op := ops[..|ops| - 1], ops[|ops| - 1];
      var more := if Raises(settings, After(settings, earlier), op) then [] else [Use(op.key, op.usedAt)];
      && Expected(settings, ops)
         == Live(LastN(Recent(Uses(settings, earlier) + more), settings.maxSize), Deadline(settings, op.sweptAt))
      && Uses(settings, earlier) + [] == Uses(settings, earlier)
      && (Monotone(ops) ==> op.sweptAt <= op.usedAt)
  {
    hide After, Raises, Recent, Live, LastN, Deadline;
  }

  /** A `get` that raises leaves what its sweep left, less the key it asked for. */
  lemma RaisingGet(settings: Settings, pool: Pool, op: Op)
    requires settings.maxSize >= 1 && Raises(settings, pool, op)
    ensures UsesOf(Perform(settings, pool, op).entries) == UsesOf(Swept(settings, pool.entries, op.sweptAt).entries)
       <==> !Loses(settings, pool, op)
  {
    hide Swept;
    var swept := Swept(settings, pool.entries, op.sweptAt).entries;
    RemoveShrinks(swept, op.key);
    assert |UsesOf(Remove(swept, op.key))| == |Remove(swept, op.key)| && |UsesOf(swept)| == |swept|;
  }

  lemma HandingGet(settings: Settings, pool: Pool, op: Op, recent: seq<Use>)
    requires Legal(settings) && DistinctKeys(recent) && op.Get? && settings.maxSize >= 1
    requires settings.idleTimeout.None? || (Ordered(recent) && op.sweptAt <= op.usedAt)
    requires |pool.entries| <= settings.maxSize && !Raises(settings, pool, op)
    requires UsesOf(Swept(settings, pool.entries, op.sweptAt).entries)
          == Live(LastN(recent, settings.maxSize), Deadline(settings, op.sweptAt))
    ensures !Loses(settings, pool, op)
    ensures UsesOf(Perform(settings, pool, op).entries)
         == Live(LastN(Without(recent, op.key) + [Use(op.key, op.usedAt)], settings.maxSize), Deadline(settings, op.sweptAt))
  {
    hide Got, Swept, UsesOf, Live, LastN, Without, Ordered, DistinctKeys;
    GetIsLru(settings, pool.entries, recent, op.key, op.sweptAt, op.usedAt, op.alive, if op.creates then Some(pool.created) else None);
  }

  lemma NoDeadline(settings: Settings, now: real)
    ensures Deadline(settings, now).None? <==> settings.idleTimeout.None?
  {
  }

  lemma AllowsOne(settings: Settings)
    requires Legal(settings)
    ensures settings.maxSize >= 1
  {
  }

  lemma GetIsLru(settings: Settings, entries: seq<Entry>, recent: seq<Use>, key: string, sweptAt: real, usedAt: real,
                 alive: nat -> bool, made: Option<nat>)
    requires Legal(settings) && DistinctKeys(recent)
    requires settings.idleTimeout.None? || (Ordered(recent) && sweptAt <= usedAt)
    requires |entries| <= settings.maxSize
    requires UsesOf(Swept(settings, entries, sweptAt).entries)
          == Live(LastN(recent, settings.maxSize), Deadline(settings, sweptAt))
    requires settings.maxSize >= 1 && Got(settings, entries, key, sweptAt, usedAt, alive, made).handed.Some?
    ensures UsesOf(Got(settings, entries, key, sweptAt, usedAt, alive, made).entries)
         == Live(LastN(Without(recent, key) + [Use(key, usedAt)], settings.maxSize), Deadline(settings, sweptAt))
  {
    hide *;
    AllowsOne(settings);
    var max, deadline, u := settings.maxSize, Deadline(settings, sweptAt), Use(key, usedAt);
    var kept, gone := LastN(recent, max), Without(recent, key);
    GotList(settings, entries, key, sweptAt, usedAt, alive, made);
    WithoutLive(kept, key, deadline);
    if settings.idleTimeout.Some? {
      LastNOrdered(recent, max);
      WithoutOrdered(kept, key);
    }
    NoDeadline(settings, sweptAt);
    LastNLive(Without(kept, key), max - 1, deadline);
    LastNWithout(recent, max, key);
    StampLast(settings, gone, sweptAt, u);
  }

  lemma StampLast(settings: Settings, uses: seq<Use>, sweptAt: real, u: Use)
    requires Legal(settings) && (settings.idleTimeout.None? || sweptAt <= u.at)
    ensures
      var deadline := Deadline(settings, sweptAt);
      Live(LastN(uses, settings.maxSize - 1), deadline) + [u] == Live(LastN(uses + [u], settings.maxSize), deadline)
  {
    var deadline, tail := Deadline(settings, sweptAt), LastN(uses, settings.maxSize - 1);
    assert LastN(uses + [u], settings.maxSize) == tail + [u];
    LiveJoins(tail, [u], deadline);
    LiveKeepsAll([u], deadline);
  }

  /**
   With a clock that does not go back, the pool is sorted by last use, so every sweep
   of a reachable pool is exact: also after gets that raised, and lost an entry.
   */
  lemma {:induction false} ReachablePoolIsSorted(settings: Settings, ops: seq<Op>)
    requires Legal(settings) && Monotone(ops)
    ensures Ordered(UsesOf(After(settings, ops).entries)) && |After(settings, ops).entries| <= settings.maxSize
    ensures forall u :: u in UsesOf(After(settings, ops).entries) ==> Clock(ops).Some? && u.at <= Clock(ops).value
  {
    if ops != [] {
      var earlier, op := ops[..|ops| - 1], ops[|ops| - 1];
      ReachablePoolIsSorted(settings, earlier);
      hide After, Ordered, UsesOf;
      var entries := After(settings, earlier).entries;
      match op
      case Get(_, _, _, _, _) => GetKeepsSorted(settings, After(settings, earlier), op);
      case Reap(at) => SweepKeepsSorted(settings, entries, at);
      case Close =>
    }
  }

  lemma GetKeepsSorted(settings: Settings, pool: Pool, op: Op)
    requires settings.maxSize >= 1 && op.Get? && op.sweptAt <= op.usedAt
    requires Ordered(UsesOf(pool.entries)) && |pool.entries| <= settings.maxSize
    requires forall u :: u in UsesOf(pool.entries) ==> u.at <= op.sweptAt
    ensures
      var left := Perform(settings, pool, op).entries;
      && Ordered(UsesOf(left)) && |left| <= settings.maxSize && forall u :: u in UsesOf(left) ==> u.at <= op.usedAt
  {
    hide Ordered, Without, Live, Swept, LastN;
    var swept := Swept(settings, pool.entries, op.sweptAt).entries;
    SweepKeepsSorted(settings, pool.entries, op.sweptAt);
    var uses := Without(UsesOf(swept), op.key);
    WithoutOrdered(UsesOf(swept), op.key);
    WithoutHas(UsesOf(swept), op.key);
    var left := Perform(settings, pool, op).entries;
    if Raises(settings, pool, op) {
      RemoveIsWithout(swept, op.key);
      RemoveShrinks(swept, op.key);
    } else {
      GotList(settings, pool.entries, op.key, op.sweptAt, op.usedAt, op.alive, if op.creates then Some(pool.created) else None);
      LastNOrdered(uses, settings.maxSize - 1);
      LastNHas(uses, settings.maxSize - 1);
      OneMoreUse(LastN(uses, settings.maxSize - 1), Use(op.key, op.usedAt));
      assert |left| == |UsesOf(left)|;
    }
  }

  lemma LastNHas<T>(s: seq<T>, n: nat)
    ensures |LastN(s, n)| <= n && forall x :: x in LastN(s, n) ==> x in s
  {
  }

  lemma SweepKeepsSorted(settings: Settings, entries: seq<Entry>, now: real)
    requires Ordered(UsesOf(entries))
    ensures
      var left := Swept(settings, entries, now).entries;
      && Ordered(UsesOf(left)) && |left| <= |entries| && forall u :: u in UsesOf(left) ==> u in UsesOf(entries)
  {
    var n := ExpiredCount(entries, Deadline(settings, now));
    SuffixKeeps(UsesOf(entries), n);
    assert UsesOf(entries[n..]) == UsesOf(entries)[n..];
  }

  /** A `get` hands out the adapter it leaves last in the list: it never evicts what it returns. */
  lemma GetKeepsWhatItReturns(settings: Settings, entries: seq<Entry>, key: string, sweptAt: real, usedAt: real,
                              alive: nat -> bool, made: nat)
    requires settings.maxSize >= 1
    ensures
      var got := Got(settings, entries, key, sweptAt, usedAt, alive, Some(made));
      got.entries != [] && got.handed.Some? && got.entries[|got.entries| - 1] == Entry(key, got.handed.value, usedAt)
  {
  }
}
