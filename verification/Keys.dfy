/**
 The public keys on file, cached for a short time.

 The directory is a function of time, so that a key can be deleted while a read is
 under way; each call takes its clock readings as parameters.
 */
module Keys {
  import opened Wrappers

  datatype KeyError = Malformed | Unknown | Unreadable

  /** What a read of one key's file gives. */
  datatype File = Missing | Locked | Holds(pem: string)

  datatype Entry = Entry(stamp: real, pem: string)

  type Cache = map<string, Entry>

  predicate IsKeyChar(c: char) {
    'A' <= c <= 'Z' || 'a' <= c <= 'z' || '0' <= c <= '9' || c == '_' || c == '-'
  }

  /** 1 to 64 such characters, and perhaps one line feed behind them, which the pattern's `$` lets pass. */
  predicate ValidKid(kid: string) {
    var core := if kid != "" && kid[|kid| - 1] == '\n' then kid[..|kid| - 1] else kid;
    1 <= |core| <= 64 && forall c :: c in core ==> IsKeyChar(c)
  }

  predicate Fresh(cache: Cache, ttl: real, kid: string, now: real) {
    kid in cache && now - cache[kid].stamp < ttl
  }

  datatype Answer = Answer(cache: Cache, result: Result<string, KeyError>)

  /** One `get`: checked at `now`, and where that fails read as `file` and stamped at `stamp`. */
  function Got(cache: Cache, ttl: real, kid: string, now: real, file: File, stamp: real): Answer {
    if !ValidKid(kid) then Answer(cache, Err(Malformed))
    else if Fresh(cache, ttl, kid, now) then Answer(cache, Ok(cache[kid].pem))
    else
      match file
      case Missing => Answer(cache - {kid}, Err(Unknown))
      case Locked => Answer(cache, Err(Unreadable))
      case Holds(pem) => Answer(cache[kid := Entry(stamp, pem)], Ok(pem))
  }

  class PublicKeyDirectory {
    const ttl: real
    var cache: Cache

    constructor (ttl: Option<real>)
      ensures this.ttl == (if ttl.None? then 30.0 else ttl.value) && cache == map[]
    {
      this.ttl := if ttl.None? then 30.0 else ttl.value;
      cache := map[];
    }

    method Get(kid: string, now: real, file: File, stamp: real) returns (r: Result<string, KeyError>)
      modifies this
      ensures Answer(cache, r) == Got(old(cache), ttl, kid, now, file, stamp)
    {
      if !ValidKid(kid) {
        return Err(Malformed);
      }
      if kid in cache && now - cache[kid].stamp < ttl {
        return Ok(cache[kid].pem);
      }
      match file {
        case Missing =>
          cache := cache - {kid};
          return Err(Unknown);
        case Locked =>
          return Err(Unreadable);
        case Holds(pem) =>
          cache := cache[kid := Entry(stamp, pem)];
          return Ok(pem);
      }
    }

    method Forget()
      modifies this
      ensures cache == map[]
    {
      cache := map[];
    }
  }

  // ---- histories ----

  /** The clock is read at `now`, the file at `readAt`, and the clock again at `stamp`. */
  datatype Call = Get(kid: string, now: real, readAt: real, stamp: real) | Forget

  /** What every file holds at every time. */
  type Disk = (string, real) -> File

  predicate InOrder(call: Call) {
    call.Get? ==> call.now <= call.readAt <= call.stamp
  }

  function Answered(disk: Disk, ttl: real, cache: Cache, call: Call): Answer {
    match call
    case Get(kid, now, readAt, stamp) => Got(cache, ttl, kid, now, disk(kid, readAt), stamp)
    case Forget => Answer(map[], Err(Unknown))
  }

  function After(disk: Disk, ttl: real, calls: seq<Call>): Cache {
    if calls == [] then map[]
    else Answered(disk, ttl, After(disk, ttl, calls[..|calls| - 1]), calls[|calls| - 1]).cache
  }

  /** Deleted at d and never refiled. */
  ghost predicate DeletedAt(disk: Disk, kid: string, d: real) {
    forall t :: t >= d ==> disk(kid, t) == Missing
  }

  /** A read that saw the key before it was deleted and is stamped afterwards. */
  predicate Straddles(call: Call, kid: string, d: real) {
    call.Get? && call.kid == kid && call.readAt < d < call.stamp
  }

  /** Some call read this entry and stamped it so. */
  ghost predicate Filled(disk: Disk, calls: seq<Call>, kid: string, entry: Entry) {
    exists k :: 0 <= k < |calls| && FilledBy(disk, calls[k], kid, entry)
  }

  predicate FilledBy(disk: Disk, call: Call, kid: string, entry: Entry) {
    call.Get? && call.kid == kid && call.stamp == entry.stamp && disk(kid, call.readAt) == Holds(entry.pem)
  }

  lemma {:induction false} EntriesAreReads(disk: Disk, ttl: real, calls: seq<Call>)
    ensures forall kid :: kid in After(disk, ttl, calls) ==> Filled(disk, calls, kid, After(disk, ttl, calls)[kid])
  {
    if calls != [] {
      var n := |calls| - 1;
      var earlier, later := After(disk, ttl, calls[..n]), After(disk, ttl, calls);
      EntriesAreReads(disk, ttl, calls[..n]);
      forall kid | kid in later ensures Filled(disk, calls, kid, later[kid]) {
        if kid in earlier && earlier[kid] == later[kid] {
          var k :| 0 <= k < n && FilledBy(disk, calls[..n][k], kid, earlier[kid]);
          assert calls[..n][k] == calls[k];
        } else {
          assert FilledBy(disk, calls[n], kid, later[kid]);
        }
      }
    }
  }

  /** After the deletion a key is served only from a cache entry still fresh, and only if its read straddled the deletion. */
  lemma ServedLateOnlyIfStraddled(disk: Disk, ttl: real, calls: seq<Call>, call: Call, d: real)
    requires call.Get? && InOrder(call) && DeletedAt(disk, call.kid, d)
    requires forall c :: c in calls ==> InOrder(c)
    requires ttl >= 0.0 && call.now >= d + ttl
    requires Answered(disk, ttl, After(disk, ttl, calls), call).result.Ok?
    ensures exists k :: 0 <= k < |calls| && Straddles(calls[k], call.kid, d) && call.now < calls[k].stamp + ttl
  {
    var cache := After(disk, ttl, calls);
    EntriesAreReads(disk, ttl, calls);
    assert disk(call.kid, call.readAt) == Missing;
    var k :| 0 <= k < |calls| && FilledBy(disk, calls[k], call.kid, cache[call.kid]);
    assert Straddles(calls[k], call.kid, d);
  }

  /**
   A key deleted at d is never returned at or after d + ttl, if no read of it
   straddles d.
   */
  lemma DeletedIsGoneAfterTtl(disk: Disk, ttl: real, calls: seq<Call>, call: Call, d: real)
    requires call.Get? && InOrder(call) && DeletedAt(disk, call.kid, d)
    requires forall c :: c in calls ==> InOrder(c) && !Straddles(c, call.kid, d)
    requires ttl >= 0.0 && call.now >= d + ttl
    ensures Answered(disk, ttl, After(disk, ttl, calls), call).result.Err?
  {
    if Answered(disk, ttl, After(disk, ttl, calls), call).result.Ok? {
      ServedLateOnlyIfStraddled(disk, ttl, calls, call, d);
    }
  }

  /** With reads that take at most `latency` from file to stamp, that much later is always enough. */
  lemma DeletedIsGoneAfterTtlAndLatency(disk: Disk, ttl: real, calls: seq<Call>, call: Call, d: real, latency: real)
    requires call.Get? && InOrder(call) && DeletedAt(disk, call.kid, d)
    requires forall c :: c in calls ==> InOrder(c) && (c.Get? ==> c.stamp - c.readAt <= latency)
    requires ttl >= 0.0 && latency >= 0.0 && call.now >= d + ttl + latency
    ensures Answered(disk, ttl, After(disk, ttl, calls), call).result.Err?
  {
    if Answered(disk, ttl, After(disk, ttl, calls), call).result.Ok? {
      ServedLateOnlyIfStraddled(disk, ttl, calls, call, d);
    }
  }

  /**
   Whenever one read does straddle the deletion, a call right after it is served
   the deleted key, at any time up to its stamp plus ttl, so past d + ttl too.
   */
  lemma StraddlingReadIsServed(disk: Disk, ttl: real, calls: seq<Call>, fill: Call, call: Call, d: real)
    requires fill.Get? && ValidKid(fill.kid) && Straddles(fill, fill.kid, d)
    requires disk(fill.kid, fill.readAt).Holds? && !Fresh(After(disk, ttl, calls), ttl, fill.kid, fill.now)
    requires call.Get? && call.kid == fill.kid && d + ttl <= call.now < fill.stamp + ttl
    ensures Answered(disk, ttl, After(disk, ttl, calls + [fill]), call).result == Ok(disk(fill.kid, fill.readAt).pem)
  {
    assert (calls + [fill])[..|calls|] == calls;
  }

  // ---- what an answer rests on ----

  const UPPER := "ABCDEFGHIJKLMNOPQRSTUVWXYZ"
  const LOWER := "abcdefghijklmnopqrstuvwxyz"
  const OTHERS := "0123456789_-"

  lemma UpperAt(c: char)
    requires 'A' <= c <= 'Z'
    ensures UPPER[c as int - 'A' as int] == c
  {
  }

  lemma UpperIs(c: char)
    ensures 'A' <= c <= 'Z' <==> c in UPPER
  {
    if 'A' <= c <= 'Z' {
      UpperAt(c);
      assert c in UPPER;
    }
  }

  lemma LowerAt(c: char)
    requires 'a' <= c <= 'z'
    ensures LOWER[c as int - 'a' as int] == c
  {
  }

  lemma LowerIs(c: char)
    ensures 'a' <= c <= 'z' <==> c in LOWER
  {
    if 'a' <= c <= 'z' {
      LowerAt(c);
      assert c in LOWER;
    }
  }

  lemma OtherIs(c: char)
    ensures '0' <= c <= '9' || c == '_' || c == '-' <==> c in OTHERS
  {
    if '0' <= c <= '9' { assert OTHERS[c as int - '0' as int] == c; }
    if c == '_' { assert OTHERS[10] == c; }
    if c == '-' { assert OTHERS[11] == c; }
  }

  /** A name a key file may have, a line feed behind it aside. */
  predicate IsKeyName(core: string) {
    1 <= |core| <= 64 && forall c :: c in core ==> c in UPPER || c in LOWER || c in OTHERS
  }

  /** The pattern takes exactly such names, and each of them with one line feed behind it too. */
  lemma ValidKidIff(kid: string)
    ensures ValidKid(kid) <==> IsKeyName(kid) || (kid != "" && kid[|kid| - 1] == '\n' && IsKeyName(kid[..|kid| - 1]))
  {
    hide *;
    forall c: char ensures IsKeyChar(c) <==> c in UPPER || c in LOWER || c in OTHERS {
      KeyCharIs(c);
    }
    ValidKidByName(kid);
  }

  lemma KeyCharIs(c: char)
    ensures IsKeyChar(c) <==> c in UPPER || c in LOWER || c in OTHERS
  {
    UpperIs(c);
    LowerIs(c);
    OtherIs(c);
    hide UPPER, LOWER, OTHERS;
  }

  lemma ValidKidByName(kid: string)
    requires forall c: char :: IsKeyChar(c) <==> c in UPPER || c in LOWER || c in OTHERS
    ensures ValidKid(kid) <==> IsKeyName(kid) || (kid != "" && kid[|kid| - 1] == '\n' && IsKeyName(kid[..|kid| - 1]))
  {
    hide UPPER, LOWER, OTHERS;
    if kid != "" && kid[|kid| - 1] == '\n' { assert kid[|kid| - 1] in kid; }
  }

  /** What a read of its file gives, nothing cached being fresh enough. */
  function ReadGives(file: File): Result<string, KeyError> {
    match file
    case Missing => Err(Unknown)
    case Locked => Err(Unreadable)
    case Holds(pem) => Ok(pem)
  }

  /** An earlier call read the key and is not yet past its time. */
  predicate StillServes(disk: Disk, ttl: real, earlier: Call, call: Call) {
    earlier.Get? && call.Get? && earlier.kid == call.kid && disk(earlier.kid, earlier.readAt).Holds? && call.now - earlier.stamp < ttl
  }

  /**
   An illegal name is refused; where no earlier read could still serve, the answer is
   what the file gives now; where one answers, it is with the key that this read saw.
   */
  lemma AnswersTell(disk: Disk, ttl: real, calls: seq<Call>, call: Call)
    requires call.Get?
    ensures
      var result := Answered(disk, ttl, After(disk, ttl, calls), call).result;
      && (result == Err(Malformed) <==> !ValidKid(call.kid))
      && (ValidKid(call.kid) ==>
            || result == ReadGives(disk(call.kid, call.readAt))
            || exists k :: 0 <= k < |calls| && StillServes(disk, ttl, calls[k], call)
                           && result == Ok(disk(call.kid, calls[k].readAt).pem))
  {
    var cache := After(disk, ttl, calls);
    EntriesAreReads(disk, ttl, calls);
    if ValidKid(call.kid) && Fresh(cache, ttl, call.kid, call.now) {
      var k :| 0 <= k < |calls| && FilledBy(disk, calls[k], call.kid, cache[call.kid]);
      assert StillServes(disk, ttl, calls[k], call);
    }
  }

  lemma {:induction false} CachedAreValid(disk: Disk, ttl: real, calls: seq<Call>)
    ensures forall kid :: kid in After(disk, ttl, calls) ==> ValidKid(kid)
  {
    hide ValidKid;
    if calls != [] { CachedAreValid(disk, ttl, calls[..|calls| - 1]); }
  }

  /**
   What is served from the cache is what the latest read saw: every call for the key
   since then was answered with it or could not read, and nothing dropped it.
   */
  lemma {:induction false} ServedIsLatest(disk: Disk, ttl: real, calls: seq<Call>, kid: string) returns (k: nat)
    requires kid in After(disk, ttl, calls)
    ensures k < |calls| && FilledBy(disk, calls[k], kid, After(disk, ttl, calls)[kid])
    ensures forall m :: k < m < |calls| ==> SinceThen(disk, ttl, calls, m, kid, After(disk, ttl, calls)[kid].pem)
  {
    var n := |calls| - 1;
    var earlier, entry := After(disk, ttl, calls[..n]), After(disk, ttl, calls)[kid];
    if kid in earlier && earlier[kid] == entry && !(FilledBy(disk, calls[n], kid, entry)) {
      k := ServedIsLatest(disk, ttl, calls[..n], kid);
      CachedAreValid(disk, ttl, calls[..n]);
      forall m | k < m < |calls| ensures SinceThen(disk, ttl, calls, m, kid, entry.pem) {
        if m < n {
          assert SinceThen(disk, ttl, calls[..n], m, kid, entry.pem);
          assert calls[..n][..m] == calls[..m];
        }
      }
    } else {
      k := n;
    }
  }

  ghost predicate SinceThen(disk: Disk, ttl: real, calls: seq<Call>, m: nat, kid: string, pem: string)
    requires m < |calls|
  {
    calls[m].Get? && (calls[m].kid == kid ==>
      Answered(disk, ttl, After(disk, ttl, calls[..m]), calls[m]).result in {Ok(pem), Err(Unreadable)})
  }
}
