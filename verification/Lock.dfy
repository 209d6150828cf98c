/**
 Leased locks (lock/): the in-process client and the Redis client. A lease is taken for a TTL and
 released by token, so a caller that outlives its lease cannot release its successor's.

 Random tokens and clock readings are parameters. Nothing here assumes tokens are distinct.
 */
module Lock {
  import opened Common

  datatype Error = KeyRequired | InvalidTtl | NotAcquired

  datatype Lease = Lease(token: string, expiresAt: int)

  type Leases = map<string, Lease>

  predicate Held(m: Leases, key: string, now: int) {
    key in m && now < m[key].expiresAt
  }

  function Acquired(m: Leases, key: string, token: string, now: int, ttl: int): Leases {
    if Held(m, key, now) then m else m[key := Lease(token, now + ttl)]
  }

  function Released(m: Leases, key: string, token: string): Leases {
    if key in m && m[key].token == token then m - {key} else m
  }

  class Memory {
    var locks: Leases

    constructor ()
      ensures locks == map[]
    {
      locks := map[];
    }

    /** On success the caller's lease is the pair (key, token). */
    method Acquire(key: string, token: string, now: int, ttl: int) returns (r: Result<(), Error>)
      modifies this
      ensures key == "" ==> r == Failure(KeyRequired) && locks == old(locks)
      ensures key != "" ==> locks == Acquired(old(locks), key, token, now, ttl)
      ensures key != "" ==> r == if Held(old(locks), key, now) then Failure(NotAcquired) else Success(())
      ensures r == Failure(NotAcquired) <==> key != "" && key in old(locks) && now < old(locks)[key].expiresAt
      ensures r.Success? <==> key != "" && (key !in old(locks) || old(locks)[key].expiresAt <= now)
      ensures r.Success? ==> locks == old(locks)[key := Lease(token, now + ttl)]
      ensures r.Failure? ==> locks == old(locks)
    {
      if key == "" {
        return Failure(KeyRequired);
      }
      if key in locks {
        if now < locks[key].expiresAt {
          return Failure(NotAcquired);
        }
        locks := locks - {key};
      }
      locks := locks[key := Lease(token, now + ttl)];
      assert locks == old(locks)[key := Lease(token, now + ttl)];
      return Success(());
    }

    method Release(key: string, token: string)
      modifies this
      ensures locks == Released(old(locks), key, token)
      ensures key in old(locks) && old(locks)[key].token == token ==> locks == old(locks) - {key}
      ensures key !in old(locks) || old(locks)[key].token != token ==> locks == old(locks)
    {
      if key !in locks || locks[key].token != token {
        return;
      }
      locks := locks - {key};
    }
  }

  /** The Redis client: SET NX PX on acquire, compare-and-delete script on release. */
  class Redis {
    const prefix: string
    var db: Leases

    constructor (keyPrefix: string)
      ensures db == map[]
      ensures prefix == if keyPrefix == "" then "floodguard:lock" else keyPrefix
    {
      prefix := if keyPrefix == "" then "floodguard:lock" else keyPrefix;
      db := map[];
    }

    method Acquire(key: string, token: string, now: int, ttl: int) returns (r: Result<(), Error>)
      modifies this
      ensures key == "" ==> r == Failure(KeyRequired) && db == old(db)
      ensures key != "" && ttl <= 0 ==> r == Failure(InvalidTtl) && db == old(db)
      ensures key != "" && ttl > 0 ==>
                var rkey, ms := RedisKey(prefix, key), now / NANOS_PER_MILLI;
                && db == Acquired(old(db), rkey, token, ms, ttl / NANOS_PER_MILLI)
                && (r == if Held(old(db), rkey, ms) then Failure(NotAcquired) else Success(()))
                && (r.Success? <==> rkey !in old(db) || old(db)[rkey].expiresAt <= ms)
                && (r.Success? ==> db == old(db)[rkey := Lease(token, ms + ttl / NANOS_PER_MILLI)])
                && (r.Failure? ==> r == Failure(NotAcquired) && db == old(db))
    {
      if key == "" {
        return Failure(KeyRequired);
      }
      if ttl <= 0 {
        return Failure(InvalidTtl);
      }
      var rkey, ms := RedisKey(prefix, key), now / NANOS_PER_MILLI;
      if Held(db, rkey, ms) {
        return Failure(NotAcquired);
      }
      db := db[rkey := Lease(token, ms + ttl / NANOS_PER_MILLI)];
      return Success(());
    }

    method Release(key: string, token: string, now: int)
      modifies this
      ensures db == RedisReleased(old(db), RedisKey(prefix, key), token, now / NANOS_PER_MILLI)
    {
      var rkey := RedisKey(prefix, key);
      if Held(db, rkey, now / NANOS_PER_MILLI) && db[rkey].token == token {
        db := db - {rkey};
      }
    }
  }

  function RedisKey(prefix: string, key: string): string {
    prefix + ":" + key
  }

  /** GET sees only a live key, so an expired lease is left for Redis to drop. */
  function RedisReleased(db: Leases, rkey: string, token: string, ms: int): Leases {
    if Held(db, rkey, ms) && db[rkey].token == token then db - {rkey} else db
  }

  // ---------------------------------------------------------------------------------------
  // Runs
  // ---------------------------------------------------------------------------------------

  datatype Call =
    | Acquire(key: string, token: string, at: int)
    | Release(key: string, token: string, at: int)

  predicate Monotone(calls: seq<Call>, t: int) {
    calls == [] || (t <= calls[0].at && Monotone(calls[1..], calls[0].at))
  }

  function Step(m: Leases, c: Call, ttl: int): Leases {
    match c
    case Acquire(key, token, at) => Acquired(m, key, token, at, ttl)
    case Release(key, token, at) => Released(m, key, token)
  }

  /** Whether call c gets the lock. */
  predicate Wins(m: Leases, c: Call) {
    c.Acquire? && !Held(m, c.key, c.at)
  }

  function Outcomes(m: Leases, calls: seq<Call>, ttl: int): (r: seq<bool>)
    ensures |r| == |calls|
    decreases |calls|
  {
    if calls == [] then [] else [Wins(m, calls[0])] + Outcomes(Step(m, calls[0], ttl), calls[1..], ttl)
  }

  /** Until the lease runs out, only a release carrying its own token ends it. */
  lemma {:induction false} LeaseStands(m: Leases, calls: seq<Call>, t: int, ttl: int, key: string, j: nat)
    requires Monotone(calls, t) && j < |calls| && key in m
    requires calls[j].key == key && Outcomes(m, calls, ttl)[j]
    requires forall k :: 0 <= k < j && calls[k].Release? && calls[k].key == key ==> calls[k].token != m[key].token
    ensures calls[j].at >= m[key].expiresAt
    decreases |calls|
  {
    var c := calls[0];
    MonotoneAt(calls, t, j);
    if j > 0 && c.at < m[key].expiresAt {
      var m' := Step(m, c, ttl);
      assert m'[key] == m[key];
      LeaseStands(m', calls[1..], c.at, ttl, key, j - 1);
    }
  }

  lemma {:induction false} MonotoneAt(calls: seq<Call>, t: int, j: nat)
    requires Monotone(calls, t) && j < |calls|
    ensures t <= calls[0].at <= calls[j].at
    decreases |calls|
  {
    if j > 0 {
      MonotoneAt(calls[1..], calls[0].at, j - 1);
    }
  }

  /** A release of what the other call acquired. */
  predicate GivesBack(release: Call, won: Call) {
    release.Release? && release.key == won.key && release.token == won.token
  }

  /**
   Mutual exclusion over runs: if two calls both get the lock of one key, the earlier lease had
   run out or was released with its own token in between.
   */
  lemma {:induction false} WinnersExclude(m: Leases, calls: seq<Call>, t: int, ttl: int, i: nat, j: nat)
    requires Monotone(calls, t) && i < j < |calls|
    requires calls[i].key == calls[j].key && Outcomes(m, calls, ttl)[i] && Outcomes(m, calls, ttl)[j]
    ensures || calls[j].at >= calls[i].at + ttl
            || exists k :: i < k < j && GivesBack(calls[k], calls[i])
    decreases |calls|
  {
    var c := calls[0];
    var m' := Step(m, c, ttl);
    if i > 0 {
      WinnersExclude(m', calls[1..], c.at, ttl, i - 1, j - 1);
      if calls[j].at < calls[i].at + ttl {
        var k :| i - 1 < k < j - 1 && GivesBack(calls[1..][k], calls[1..][i - 1]);
        assert calls[k + 1] == calls[1..][k];
      }
    } else if !exists k :: 0 < k < j && GivesBack(calls[k], c) {
      forall k | 0 <= k < j - 1 && calls[1..][k].Release? && calls[1..][k].key == c.key
        ensures calls[1..][k].token != c.token
      {
        assert calls[1..][k] == calls[k + 1] && !GivesBack(calls[k + 1], c);
      }
      LeaseStands(m', calls[1..], c.at, ttl, c.key, j - 1);
    }
  }

  // ---------------------------------------------------------------------------------------
  // Refusal, from the history alone
  // ---------------------------------------------------------------------------------------

  /** The leases before call n of a run from an empty store. */
  function LeasesAt(calls: seq<Call>, ttl: int, n: nat): (m: Leases)
    requires n <= |calls|
  {
    if n == 0 then map[] else Step(LeasesAt(calls, ttl, n - 1), calls[n - 1], ttl)
  }

  /** The outcome of call j is decided on the leases its predecessors left. */
  lemma {:induction false} OutcomeAt(m: Leases, calls: seq<Call>, ttl: int, j: nat, m': Leases)
    requires j < |calls| && m' == After(m, calls[..j], ttl)
    ensures Outcomes(m, calls, ttl)[j] == Wins(m', calls[j])
    decreases |calls|
  {
    if j > 0 {
      assert calls[..j][0] == calls[0] && calls[..j][1..] == calls[1..][..j - 1];
      OutcomeAt(Step(m, calls[0], ttl), calls[1..], ttl, j - 1, m');
    }
  }

  function After(m: Leases, calls: seq<Call>, ttl: int): (r: Leases)
    decreases |calls|
  {
    if calls == [] then m else After(Step(m, calls[0], ttl), calls[1..], ttl)
  }

  lemma {:induction false} AfterAppend(m: Leases, calls: seq<Call>, c: Call, ttl: int)
    ensures After(m, calls + [c], ttl) == Step(After(m, calls, ttl), c, ttl)
    decreases |calls|
  {
    if calls == [] {
      assert [c][1..] == [];
    } else {
      assert (calls + [c])[0] == calls[0] && (calls + [c])[1..] == calls[1..] + [c];
      AfterAppend(Step(m, calls[0], ttl), calls[1..], c, ttl);
    }
  }

  lemma {:induction false} LeasesAtIsAfter(calls: seq<Call>, ttl: int, n: nat)
    requires n <= |calls|
    ensures LeasesAt(calls, ttl, n) == After(map[], calls[..n], ttl)
  {
    if n > 0 {
      LeasesAtIsAfter(calls, ttl, n - 1);
      assert calls[..n] == calls[..n - 1] + [calls[n - 1]];
      AfterAppend(map[], calls[..n - 1], calls[n - 1], ttl);
    }
  }

  /** Call i got its lock, and by call n nobody has given it back. */
  ghost predicate Keeps(calls: seq<Call>, ttl: int, i: nat, n: nat)
    requires n <= |calls|
  {
    && i < n && Wins(LeasesAt(calls, ttl, i), calls[i])
    && forall k :: i < k < n ==> !GivesBack(calls[k], calls[i])
  }

  /** Every lease in the store is that of an earlier winner that nobody has given back. */
  lemma {:induction false} LeaseHasWinner(calls: seq<Call>, ttl: int, n: nat, key: string) returns (i: nat)
    requires n <= |calls| && key in LeasesAt(calls, ttl, n)
    ensures Keeps(calls, ttl, i, n) && calls[i].key == key
    ensures LeasesAt(calls, ttl, n)[key] == Lease(calls[i].token, calls[i].at + ttl)
  {
    var m, c := LeasesAt(calls, ttl, n - 1), calls[n - 1];
    if c.key == key && Wins(m, c) {
      i := n - 1;
    } else {
      i := LeaseHasWinner(calls, ttl, n - 1, key);
    }
  }

  /** A winner's lease is there until it runs out or is given back. */
  lemma {:induction false} WinnerHasLease(calls: seq<Call>, t: int, ttl: int, i: nat, n: nat)
    requires n <= |calls| && Keeps(calls, ttl, i, n) && Monotone(calls, t)
    requires forall k :: i < k < n ==> calls[k].at < calls[i].at + ttl
    ensures var m := LeasesAt(calls, ttl, n);
            calls[i].key in m && m[calls[i].key] == Lease(calls[i].token, calls[i].at + ttl)
    decreases n
  {
    if i < n - 1 {
      WinnerHasLease(calls, t, ttl, i, n - 1);
      assert !GivesBack(calls[n - 1], calls[i]);
    }
  }

  lemma {:induction false} MonotoneBetween(calls: seq<Call>, t: int, i: nat, j: nat)
    requires Monotone(calls, t) && i <= j < |calls|
    ensures calls[i].at <= calls[j].at
    decreases |calls|
  {
    if i == 0 {
      MonotoneAt(calls, t, j);
    } else {
      MonotoneBetween(calls[1..], calls[0].at, i - 1, j - 1);
    }
  }

  /** An earlier winner of the key, still within its lifetime and not given back, stands in the way of call j. */
  ghost predicate StandsInTheWay(calls: seq<Call>, ttl: int, i: nat, j: nat)
    requires j < |calls|
  {
    && i < j && calls[i].key == calls[j].key && Outcomes(map[], calls, ttl)[i]
    && calls[j].at < calls[i].at + ttl && forall k :: i < k < j ==> !GivesBack(calls[k], calls[i])
  }

  /**
   Exactly when the lock is refused: over every run from an empty store, an acquisition fails if and
   only if an earlier winner of that key is within its lifetime and nobody has given its token back.
   In particular a lease runs out, whoever holds it.
   */
  lemma RefusedExactly(calls: seq<Call>, t: int, ttl: int, j: nat)
    requires Monotone(calls, t) && j < |calls| && calls[j].Acquire?
    ensures !Outcomes(map[], calls, ttl)[j] <==> exists i :: StandsInTheWay(calls, ttl, i, j)
  {
    LeasesAtIsAfter(calls, ttl, j);
    OutcomeAt(map[], calls, ttl, j, LeasesAt(calls, ttl, j));
    if !Outcomes(map[], calls, ttl)[j] {
      var i := LeaseHasWinner(calls, ttl, j, calls[j].key);
      LeasesAtIsAfter(calls, ttl, i);
      OutcomeAt(map[], calls, ttl, i, LeasesAt(calls, ttl, i));
      assert StandsInTheWay(calls, ttl, i, j);
    }
    if i: nat :| StandsInTheWay(calls, ttl, i, j) {
      LeasesAtIsAfter(calls, ttl, i);
      OutcomeAt(map[], calls, ttl, i, LeasesAt(calls, ttl, i));
      forall k | i < k < j
        ensures calls[k].at < calls[i].at + ttl
      {
        MonotoneBetween(calls, t, k, j);
      }
      WinnerHasLease(calls, t, ttl, i, j);
    }
  }

  // ---------------------------------------------------------------------------------------
  // Refinement: the Redis client is the same machine
  // ---------------------------------------------------------------------------------------

  function RedisStep(db: Leases, prefix: string, c: Call, ttlMs: int): Leases {
    match c
    case Acquire(key, token, at) => Acquired(db, RedisKey(prefix, key), token, at / NANOS_PER_MILLI, ttlMs)
    case Release(key, token, at) => RedisReleased(db, RedisKey(prefix, key), token, at / NANOS_PER_MILLI)
  }

  predicate RedisWins(db: Leases, prefix: string, c: Call) {
    c.Acquire? && !Held(db, RedisKey(prefix, c.key), c.at / NANOS_PER_MILLI)
  }

  function RedisOutcomes(db: Leases, prefix: string, calls: seq<Call>, ttlMs: int): (r: seq<bool>)
    ensures |r| == |calls|
    decreases |calls|
  {
    if calls == [] then [] else
      var db' := RedisStep(db, prefix, calls[0], ttlMs);
      [RedisWins(db, prefix, calls[0])] + RedisOutcomes(db', prefix, calls[1..], ttlMs)
  }

  /** The last, partial millisecond of a lease, which Redis has already cut off. */
  predicate AtTick(m: Leases, c: Call) {
    && c.Acquire? && c.key in m
    && c.at < m[c.key].expiresAt && c.at / NANOS_PER_MILLI == m[c.key].expiresAt / NANOS_PER_MILLI
  }

  predicate OffTick(m: Leases, calls: seq<Call>, ttl: int)
    decreases |calls|
  {
    calls == [] || (!AtTick(m, calls[0]) && OffTick(Step(m, calls[0], ttl), calls[1..], ttl))
  }

  ghost predicate CoupledAt(m: Leases, db: Leases, prefix: string, key: string, t: int) {
    var r, ms := RedisKey(prefix, key), t / NANOS_PER_MILLI;
    || (key in m && r in db && db[r] == Lease(m[key].token, m[key].expiresAt / NANOS_PER_MILLI))
    || (!Held(m, key, t) && !Held(db, r, ms))
  }

  ghost predicate Coupled(m: Leases, db: Leases, prefix: string, t: int) {
    forall key: string :: CoupledAt(m, db, prefix, key, t)
  }

  lemma StepKeepsCoupling(m: Leases, db: Leases, prefix: string, c: Call, t: int, ttl: int, ttlMs: int)
    requires ttl == ttlMs * NANOS_PER_MILLI && ttlMs > 0 && t <= c.at
    requires Coupled(m, db, prefix, t) && !AtTick(m, c)
    ensures Wins(m, c) == RedisWins(db, prefix, c)
    ensures Coupled(Step(m, c, ttl), RedisStep(db, prefix, c, ttlMs), prefix, c.at)
  {
    assert CoupledAt(m, db, prefix, c.key, t);
    assert (c.at + ttl) / NANOS_PER_MILLI == c.at / NANOS_PER_MILLI + ttlMs;
    forall key: string
      ensures CoupledAt(Step(m, c, ttl), RedisStep(db, prefix, c, ttlMs), prefix, key, c.at)
    {
      assert CoupledAt(m, db, prefix, key, t);
      assert RedisKey(prefix, key)[|prefix| + 1..] == key;
      assert RedisKey(prefix, c.key)[|prefix| + 1..] == c.key;
    }
  }

  /** On every run with a positive whole-millisecond TTL, off the expiry tick, both clients grant the same calls. */
  lemma {:induction false} RedisRefinesMemory(m: Leases, db: Leases, prefix: string, calls: seq<Call>, t: int,
                                              ttl: int, ttlMs: int)
    requires ttl == ttlMs * NANOS_PER_MILLI && ttlMs > 0
    requires Monotone(calls, t) && OffTick(m, calls, ttl) && Coupled(m, db, prefix, t)
    ensures Outcomes(m, calls, ttl) == RedisOutcomes(db, prefix, calls, ttlMs)
    decreases |calls|
  {
    if calls != [] {
      var c := calls[0];
      StepKeepsCoupling(m, db, prefix, c, t, ttl, ttlMs);
      RedisRefinesMemory(Step(m, c, ttl), RedisStep(db, prefix, c, ttlMs), prefix, calls[1..], c.at, ttl, ttlMs);
    }
  }

  // ---------------------------------------------------------------------------------------
  // Redis alone, on its millisecond clock
  // ---------------------------------------------------------------------------------------

  function InMillis(calls: seq<Call>): (r: seq<Call>) {
    seq(|calls|, i requires 0 <= i < |calls| => calls[i].(at := calls[i].at / NANOS_PER_MILLI))
  }

  /** The two hold the same lease of a key, or neither holds a live one. */
  ghost predicate Alike(m: Leases, db: Leases, prefix: string, ms: int) {
    forall key: string ::
      var r := RedisKey(prefix, key);
      (key in m && r in db && db[r] == m[key]) || (!Held(m, key, ms) && !Held(db, r, ms))
  }

  lemma StepKeepsAlike(m: Leases, db: Leases, prefix: string, c: Call, ms: int, ttlMs: int)
    requires Alike(m, db, prefix, ms) && ms <= c.at / NANOS_PER_MILLI
    ensures var d := c.(at := c.at / NANOS_PER_MILLI);
            Wins(m, d) == RedisWins(db, prefix, c)
            && Alike(Step(m, d, ttlMs), RedisStep(db, prefix, c, ttlMs), prefix, d.at)
  {
    assert RedisKey(prefix, c.key) == RedisKey(prefix, c.key);
    forall key: string
      ensures RedisKey(prefix, key) == RedisKey(prefix, c.key) ==> key == c.key
    {
      assert RedisKey(prefix, key)[|prefix| + 1..] == key;
      assert RedisKey(prefix, c.key)[|prefix| + 1..] == c.key;
    }
  }

  lemma {:induction false} RedisIsMillisecondLock(m: Leases, db: Leases, prefix: string, calls: seq<Call>, t: int,
                                                  ttlMs: int)
    requires Monotone(calls, t) && Alike(m, db, prefix, t / NANOS_PER_MILLI)
    ensures RedisOutcomes(db, prefix, calls, ttlMs) == Outcomes(m, InMillis(calls), ttlMs)
    ensures Monotone(InMillis(calls), t / NANOS_PER_MILLI)
    decreases |calls|
  {
    if calls != [] {
      var c := calls[0];
      assert InMillis(calls)[1..] == InMillis(calls[1..]);
      StepKeepsAlike(m, db, prefix, c, t / NANOS_PER_MILLI, ttlMs);
      RedisIsMillisecondLock(Step(m, InMillis(calls)[0], ttlMs), RedisStep(db, prefix, c, ttlMs), prefix, calls[1..],
                             c.at, ttlMs);
    }
  }

  /** The same law for the Redis client, on the server's millisecond clock and for any TTL. */
  lemma RedisRefusedExactly(prefix: string, calls: seq<Call>, t: int, ttlMs: int, j: nat)
    requires Monotone(calls, t) && j < |calls| && calls[j].Acquire?
    ensures !RedisOutcomes(map[], prefix, calls, ttlMs)[j] <==>
            exists i :: StandsInTheWay(InMillis(calls), ttlMs, i, j)
  {
    RedisIsMillisecondLock(map[], map[], prefix, calls, t, ttlMs);
    RefusedExactly(InMillis(calls), t / NANOS_PER_MILLI, ttlMs, j);
  }
}
