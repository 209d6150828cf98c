/**
 Idempotency keys (idempotency/): the in-process store, the two-key Redis store, and the
 manager that decodes a claim.

 Both stores are driven by calls that carry the clock reading the source takes inside its
 critical section, so one call is one atomic step.
 */
module Idempotency {
  import opened Common

  datatype Error = KeyRequired | InFlight | BadExpiry

  datatype ClaimResult = ClaimResult(process: bool, cached: Bytes, inFlight: bool)

  const GRANTED := ClaimResult(true, [], false)
  const BUSY := ClaimResult(false, [], true)

  function Cached(body: Bytes): ClaimResult {
    ClaimResult(false, body, false)
  }

  // ---------------------------------------------------------------------------------------
  // The in-process store
  // ---------------------------------------------------------------------------------------

  datatype Entry = Entry(inFlight: bool, value: Bytes, expiresAt: int)

  type Entries = map<string, Entry>

  predicate EntryLive(m: Entries, key: string, now: int) {
    key in m && now <= m[key].expiresAt
  }

  function MemoryClaim(m: Entries, key: string, now: int, ttl: int): (r: (Entries, ClaimResult)) {
    if EntryLive(m, key, now) && m[key].value != [] then (m, Cached(m[key].value))
    else if EntryLive(m, key, now) && m[key].inFlight then (m, BUSY)
    else (m[key := Entry(true, [], now + ttl)], GRANTED)
  }

  function MemoryComplete(m: Entries, key: string, body: Bytes, now: int, ttl: int): Entries {
    m[key := Entry(false, body, now + ttl)]
  }

  class MemoryStore {
    var entries: Entries

    constructor ()
      ensures entries == map[]
    {
      entries := map[];
    }

    method Claim(key: string, now: int, ttl: int) returns (r: Result<ClaimResult, Error>)
      modifies this
      ensures key == "" ==> r == Failure(KeyRequired) && entries == old(entries)
      ensures key != "" ==> r.Success? && (entries, r.value) == MemoryClaim(old(entries), key, now, ttl)
    {
      if key == "" {
        return Failure(KeyRequired);
      }
      var ok := key in entries;
      var entry := if ok then entries[key] else Entry(false, [], 0);
      if ok && now > entry.expiresAt {
        entries := entries - {key};
        ok := false;
      }
      if ok && |entry.value| > 0 {
        return Success(Cached(entry.value));
      }
      if ok && entry.inFlight {
        return Success(BUSY);
      }
      entries := entries[key := Entry(true, [], now + ttl)];
      assert entries == old(entries)[key := Entry(true, [], now + ttl)];
      return Success(GRANTED);
    }

    method Complete(key: string, response: Bytes, now: int, ttl: int)
      modifies this
      ensures entries == MemoryComplete(old(entries), key, response, now, ttl)
    {
      entries := entries[key := Entry(false, response, now + ttl)];
    }
  }

  // ---------------------------------------------------------------------------------------
  // The manager over the in-process store
  // ---------------------------------------------------------------------------------------

  datatype BeginResult = BeginResult(process: bool, cached: Bytes)

  /** What Manager.Begin makes of a claim. */
  function Decode(c: ClaimResult): Result<BeginResult, Error> {
    if c.cached != [] then Success(BeginResult(false, c.cached))
    else if c.inFlight then Failure(InFlight)
    else Success(BeginResult(c.process, []))
  }

  const DEFAULT_TTL := 24 * 3600 * NANOS_PER_SECOND

  class Manager {
    const store: MemoryStore
    const ttl: int

    constructor (store: MemoryStore, ttl: int)
      ensures this.store == store && this.ttl > 0
      ensures this.ttl == if ttl <= 0 then DEFAULT_TTL else ttl
    {
      this.store := store;
      this.ttl := if ttl <= 0 then DEFAULT_TTL else ttl;
    }

    method Begin(key: string, now: int) returns (r: Result<BeginResult, Error>)
      modifies store
      ensures key == "" ==> r == Failure(KeyRequired) && store.entries == old(store.entries)
      ensures key != "" ==>
                var (after, claim) := MemoryClaim(old(store.entries), key, now, ttl);
                store.entries == after && r == Decode(claim)
      ensures key != "" ==>
                var live := key in old(store.entries) && now <= old(store.entries)[key].expiresAt;
                && (forall body :: r == Success(BeginResult(false, body)) <==>
                      live && body != [] && old(store.entries)[key].value == body)
                && (r == Failure(InFlight) <==>
                      live && old(store.entries)[key].value == [] && old(store.entries)[key].inFlight)
                && (r == Success(BeginResult(true, [])) <==>
                      !live || (old(store.entries)[key].value == [] && !old(store.entries)[key].inFlight))
                && (r == Success(BeginResult(true, [])) ==>
                      store.entries == old(store.entries)[key := Entry(true, [], now + ttl)])
                && (r != Success(BeginResult(true, [])) ==> store.entries == old(store.entries))
    {
      if key == "" {
        return Failure(KeyRequired);
      }
      var result := store.Claim(key, now, ttl);  // fails on the empty key only
      if |result.value.cached| > 0 {
        return Success(BeginResult(false, result.value.cached));
      }
      if result.value.inFlight {
        return Failure(InFlight);
      }
      return Success(BeginResult(result.value.process, []));
    }

    method Complete(key: string, response: Bytes, now: int) returns (r: Result<(), Error>)
      modifies store
      ensures key == "" ==> r == Failure(KeyRequired) && store.entries == old(store.entries)
      ensures key != "" ==> r == Success(())
      ensures key != "" ==> store.entries == MemoryComplete(old(store.entries), key, response, now, ttl)
    {
      if key == "" {
        return Failure(KeyRequired);
      }
      store.Complete(key, response, now, ttl);
      return Success(());
    }
  }

  // ---------------------------------------------------------------------------------------
  // The Redis store: one keyspace, two keys per idempotency key, two scripts
  // ---------------------------------------------------------------------------------------

  /** A Redis string with a PX deadline: gone once the server clock (ms) reaches it. */
  datatype Item = Item(body: Bytes, expiresAt: int)

  type Keyspace = map<string, Item>

  predicate Live(db: Keyspace, k: string, ms: int) {
    k in db && ms < db[k].expiresAt
  }

  function InflightKey(prefix: string, key: string): string {
    prefix + ":inflight:" + key
  }

  function ResultKey(prefix: string, key: string): string {
    prefix + ":result:" + key
  }

  const MARK: Bytes := [49]

  function ClaimScript(db: Keyspace, inflight: string, result: string, ms: int, ttlMs: int): (r: (Keyspace, int,
                       Bytes)) {
    if Live(db, result, ms) then (db, 1, db[result].body)
    else if !Live(db, inflight, ms) then (db[inflight := Item(MARK, ms + ttlMs)], 0, [])
    else (db, 2, [])
  }

  function DoneScript(db: Keyspace, inflight: string, result: string, ms: int, ttlMs: int, body: Bytes): Keyspace {
    db[result := Item(body, ms + ttlMs)] - {inflight}
  }

  /** The Go side's reading of the script's {status, body} reply. */
  function DecodeReply(status: int, body: Bytes): Option<ClaimResult> {
    match status
    case 0 => Some(GRANTED)
    case 1 => Some(Cached(body))
    case 2 => Some(BUSY)
    case _ => None
  }

  function RedisClaim(db: Keyspace, prefix: string, key: string, ms: int, ttlMs: int): (r: (Keyspace, ClaimResult)) {
    var (db', status, body) := ClaimScript(db, InflightKey(prefix, key), ResultKey(prefix, key), ms, ttlMs);
    (db', DecodeReply(status, body).value)
  }

  function RedisComplete(db: Keyspace, prefix: string, key: string, body: Bytes, ms: int, ttlMs: int): Keyspace {
    DoneScript(db, InflightKey(prefix, key), ResultKey(prefix, key), ms, ttlMs, body)
  }

  /** SET refuses a PX of less than one millisecond, and the script stops there. */
  predicate ClaimRuns(db: Keyspace, prefix: string, key: string, ms: int, ttlMs: int) {
    ttlMs > 0 || Live(db, ResultKey(prefix, key), ms)
  }

  class RedisStore {
    const prefix: string
    var db: Keyspace

    constructor (keyPrefix: string)
      ensures db == map[]
      ensures prefix == if keyPrefix == "" then "floodguard:idempotency" else keyPrefix
    {
      prefix := if keyPrefix == "" then "floodguard:idempotency" else keyPrefix;
      db := map[];
    }

    /** The server runs the script at its own time now; ttl is a Go duration in nanoseconds. */
    method Claim(key: string, now: int, ttl: nat) returns (r: Result<ClaimResult, Error>)
      modifies this
      ensures key == "" ==> r == Failure(KeyRequired) && db == old(db)
      ensures key != "" ==>
                var ms, ttlMs := now / NANOS_PER_MILLI, ttl / NANOS_PER_MILLI;
                if ClaimRuns(old(db), prefix, key, ms, ttlMs)
                then r.Success? && (db, r.value) == RedisClaim(old(db), prefix, key, ms, ttlMs)
                else r == Failure(BadExpiry) && db == old(db)
    {
      if key == "" {
        return Failure(KeyRequired);
      }
      var inflight, result := InflightKey(prefix, key), ResultKey(prefix, key);
      var ms, ttlMs := now / NANOS_PER_MILLI, ttl / NANOS_PER_MILLI;
      if Live(db, result, ms) {
        return Success(Cached(db[result].body));
      }
      if ttlMs <= 0 {
        return Failure(BadExpiry);
      }
      if !Live(db, inflight, ms) {
        db := db[inflight := Item(MARK, ms + ttlMs)];
        return Success(GRANTED);
      }
      return Success(BUSY);
    }

    method Complete(key: string, response: Bytes, now: int, ttl: nat) returns (r: Result<(), Error>)
      modifies this
      ensures var ms, ttlMs := now / NANOS_PER_MILLI, ttl / NANOS_PER_MILLI;
              if ttlMs > 0 then r == Success(()) && db == RedisComplete(old(db), prefix, key, response, ms, ttlMs)
              else r == Failure(BadExpiry) && db == old(db)
    {
      var inflight, result := InflightKey(prefix, key), ResultKey(prefix, key);
      var ms, ttlMs := now / NANOS_PER_MILLI, ttl / NANOS_PER_MILLI;
      if ttlMs <= 0 {
        return Failure(BadExpiry);
      }
      db := db[result := Item(response, ms + ttlMs)];
      db := db - {inflight};
      return Success(());
    }
  }

  /** The two families of Redis keys never meet, and each is injective in the idempotency key. */
  lemma KeysApart(prefix: string, a: string, b: string)
    ensures InflightKey(prefix, a) != ResultKey(prefix, b)
    ensures a != b ==> InflightKey(prefix, a) != InflightKey(prefix, b)
    ensures a != b ==> ResultKey(prefix, a) != ResultKey(prefix, b)
  {
    var p := |prefix|;
    assert InflightKey(prefix, a)[p + 1] == 'i' && ResultKey(prefix, b)[p + 1] == 'r';
    assert InflightKey(prefix, a)[p + 10..] == a && InflightKey(prefix, b)[p + 10..] == b;
    assert ResultKey(prefix, a)[p + 8..] == a && ResultKey(prefix, b)[p + 8..] == b;
  }

  // ---------------------------------------------------------------------------------------
  // Runs
  // ---------------------------------------------------------------------------------------

  /** One call on a store, with the clock reading (ns) of its critical section. */
  datatype Call =
    | Claim(key: string, at: int)
    | Complete(key: string, body: Bytes, at: int)

  /** Clock readings never run backwards along the calls, starting from t. */
  predicate Monotone(calls: seq<Call>, t: int) {
    calls == [] || (t <= calls[0].at && Monotone(calls[1..], calls[0].at))
  }

  function MemoryStep(m: Entries, c: Call, ttl: int): (r: (Entries, Option<ClaimResult>)) {
    match c
    case Claim(key, at) =>
      var (m', result) := MemoryClaim(m, key, at, ttl);
      (m', Some(result))
    case Complete(key, body, at) =>
      (MemoryComplete(m, key, body, at, ttl), None)
  }

  function RedisStep(db: Keyspace, prefix: string, c: Call, ttlMs: int): (r: (Keyspace, Option<ClaimResult>)) {
    match c
    case Claim(key, at) =>
      var (db', result) := RedisClaim(db, prefix, key, at / NANOS_PER_MILLI, ttlMs);
      (db', Some(result))
    case Complete(key, body, at) =>
      (RedisComplete(db, prefix, key, body, at / NANOS_PER_MILLI, ttlMs), None)
  }

  /** What the callers of each store see, call by call. */
  function MemoryReplies(m: Entries, calls: seq<Call>, ttl: int): (r: seq<Option<ClaimResult>>)
    ensures |r| == |calls|
    decreases |calls|
  {
    if calls == [] then [] else
    var (m', reply) := MemoryStep(m, calls[0], ttl);
    [reply] + MemoryReplies(m', calls[1..], ttl)
  }

  function RedisReplies(db: Keyspace, prefix: string, calls: seq<Call>, ttlMs: int): (r: seq<Option<ClaimResult>>)
    ensures |r| == |calls|
    decreases |calls|
  {
    if calls == [] then [] else
    var (db', reply) := RedisStep(db, prefix, calls[0], ttlMs);
    [reply] + RedisReplies(db', prefix, calls[1..], ttlMs)
  }

  // ---------------------------------------------------------------------------------------
  // The answer to a claim, from the history alone
  // ---------------------------------------------------------------------------------------

  /** The entries before call n of a run from an empty store. */
  function EntriesAt(calls: seq<Call>, ttl: int, n: nat): (m: Entries)
    requires n <= |calls|
  {
    if n == 0 then map[] else MemoryStep(EntriesAt(calls, ttl, n - 1), calls[n - 1], ttl).0
  }

  /** Call i was granted the key or completed it. */
  predicate Marks(calls: seq<Call>, replies: seq<Option<ClaimResult>>, key: string, i: nat)
    requires i < |calls| == |replies|
  {
    calls[i].key == key && (calls[i].Claim? ==> replies[i] == Some(GRANTED))
  }

  /** The last of the first n calls that was granted the key or completed it. */
  function LastMark(calls: seq<Call>, replies: seq<Option<ClaimResult>>, key: string, n: nat): (i: Option<nat>)
    requires n <= |calls| == |replies|
    ensures i.Some? ==> i.value < n
  {
    if n == 0 then None
    else if Marks(calls, replies, key, n - 1) then Some(n - 1)
    else LastMark(calls, replies, key, n - 1)
  }

  /** Reply n is the one the entries before call n give. */
  lemma {:induction false} ReplyAt(m: Entries, calls: seq<Call>, ttl: int, n: nat)
    requires n < |calls|
    ensures MemoryReplies(m, calls, ttl)[n] == MemoryStep(AfterCalls(m, calls[..n], ttl), calls[n], ttl).1
    decreases |calls|
  {
    if n > 0 {
      assert calls[..n][0] == calls[0] && calls[..n][1..] == calls[1..][..n - 1];
      ReplyAt(MemoryStep(m, calls[0], ttl).0, calls[1..], ttl, n - 1);
    }
  }

  function AfterCalls(m: Entries, calls: seq<Call>, ttl: int): (r: Entries)
    decreases |calls|
  {
    if calls == [] then m else AfterCalls(MemoryStep(m, calls[0], ttl).0, calls[1..], ttl)
  }

  lemma {:induction false} AfterAppend(m: Entries, calls: seq<Call>, c: Call, ttl: int)
    ensures AfterCalls(m, calls + [c], ttl) == MemoryStep(AfterCalls(m, calls, ttl), c, ttl).0
    decreases |calls|
  {
    if calls == [] {
      assert [c][1..] == [];
    } else {
      assert (calls + [c])[0] == calls[0] && (calls + [c])[1..] == calls[1..] + [c];
      AfterAppend(MemoryStep(m, calls[0], ttl).0, calls[1..], c, ttl);
    }
  }

  lemma {:induction false} EntriesAtIsAfter(calls: seq<Call>, ttl: int, n: nat)
    requires n <= |calls|
    ensures EntriesAt(calls, ttl, n) == AfterCalls(map[], calls[..n], ttl)
  {
    if n > 0 {
      EntriesAtIsAfter(calls, ttl, n - 1);
      assert calls[..n] == calls[..n - 1] + [calls[n - 1]];
      AfterAppend(map[], calls[..n - 1], calls[n - 1], ttl);
    }
  }

  /** What a grant or a completion leaves. */
  function EntryLeft(c: Call, ttl: int): Entry {
    match c
    case Claim(_, at) => Entry(true, [], at + ttl)
    case Complete(_, body, at) => Entry(false, body, at + ttl)
  }

  lemma StepLeaves(m: Entries, c: Call, ttl: int, key: string)
    ensures var (m', reply) := MemoryStep(m, c, ttl);
            if c.key == key && (c.Claim? ==> reply == Some(GRANTED)) then key in m' && m'[key] == EntryLeft(c, ttl)
            else (key in m' <==> key in m) && (key in m ==> m'[key] == m[key])
  {
  }

  /** An entry is what the last grant or completion of its key left. */
  lemma {:induction false} EntryHasMark(calls: seq<Call>, ttl: int, key: string, n: nat)
    requires n <= |calls|
    ensures var m, last := EntriesAt(calls, ttl, n), LastMark(calls, MemoryReplies(map[], calls, ttl), key, n);
            && (key in m <==> last.Some?)
            && (last.Some? ==> m[key] == EntryLeft(calls[last.value], ttl))
  {
    if n > 0 {
      EntryHasMark(calls, ttl, key, n - 1);
      EntriesAtIsAfter(calls, ttl, n - 1);
      ReplyAt(map[], calls, ttl, n - 1);
      StepLeaves(EntriesAt(calls, ttl, n - 1), calls[n - 1], ttl, key);
    }
  }

  /**
   Exactly what a claim is answered, over every run from an empty store: look at the last grant or
   completion of the key. If there is none, or its lifetime is over, or it completed with nothing, the
   claim is granted; if it was a grant, the claim finds it in flight; if a completion, its response.
   */
  lemma ClaimAnsweredExactly(calls: seq<Call>, ttl: int, j: nat)
    requires j < |calls| && calls[j].Claim?
    ensures var replies := MemoryReplies(map[], calls, ttl);
            var last := LastMark(calls, replies, calls[j].key, j);
            replies[j] ==
            if last.None? || calls[j].at > calls[last.value].at + ttl then Some(GRANTED)
            else match calls[last.value]
                 case Claim(_, _) => Some(BUSY)
                 case Complete(_, body, _) => if body == [] then Some(GRANTED) else Some(Cached(body))
  {
    EntryHasMark(calls, ttl, calls[j].key, j);
    EntriesAtIsAfter(calls, ttl, j);
    ReplyAt(map[], calls, ttl, j);
  }

  // ---------------------------------------------------------------------------------------
  // Refinement: the two stores are one machine
  // ---------------------------------------------------------------------------------------

  /**
   The expiry tick of a deadline: the part of its last millisecond in which Redis has already
   expired the key while the in-process store still honours it.
   */
  predicate InTick(deadline: int, now: int) {
    now <= deadline && now / NANOS_PER_MILLI == deadline / NANOS_PER_MILLI
  }

  predicate AtTick(m: Entries, c: Call) {
    c.Claim? && c.key in m && InTick(m[c.key].expiresAt, c.at)
  }

  /** Calls with non-empty responses, none of them a claim on the expiry tick of its own entry. */
  predicate Comparable(m: Entries, calls: seq<Call>, ttl: int)
    decreases |calls|
  {
    calls == [] ||
    (&& (calls[0].Complete? ==> calls[0].body != [])
     && !AtTick(m, calls[0])
     && Comparable(MemoryStep(m, calls[0], ttl).0, calls[1..], ttl))
  }

  ghost predicate CoupledAt(m: Entries, db: Keyspace, prefix: string, key: string, ms: int) {
    var i, r := InflightKey(prefix, key), ResultKey(prefix, key);
    if key in m && m[key].value != [] then
      !Live(db, i, ms) && r in db && db[r] == Item(m[key].value, m[key].expiresAt / NANOS_PER_MILLI)
    else if key in m then
      m[key].inFlight && !Live(db, r, ms) && i in db && db[i].expiresAt == m[key].expiresAt / NANOS_PER_MILLI
    else
      !Live(db, i, ms) && !Live(db, r, ms)
  }

  /** The simulation relation: what each in-process entry corresponds to in Redis at time ms. */
  ghost predicate Coupled(m: Entries, db: Keyspace, prefix: string, ms: int) {
    forall key: string :: CoupledAt(m, db, prefix, key, ms)
  }

  lemma MilliSum(now: int, k: int)
    ensures (now + k * NANOS_PER_MILLI) / NANOS_PER_MILLI == now / NANOS_PER_MILLI + k
  {
  }

  /**
   One claim, from coupled states: the two stores answer alike exactly when the claim is not
   on the expiry tick of its entry.
   */
  lemma ClaimsAgreeOffTick(m: Entries, db: Keyspace, prefix: string, c: Call, t: int, ttl: int, ttlMs: int)
    requires c.Claim? && t <= c.at && ttl == ttlMs * NANOS_PER_MILLI && ttlMs > 0
    requires Coupled(m, db, prefix, t / NANOS_PER_MILLI)
    ensures MemoryStep(m, c, ttl).1 == RedisStep(db, prefix, c, ttlMs).1 <==> !AtTick(m, c)
  {
    assert CoupledAt(m, db, prefix, c.key, t / NANOS_PER_MILLI);
  }

  lemma StepKeepsCoupling(m: Entries, db: Keyspace, prefix: string, c: Call, t: int, ttl: int, ttlMs: int)
    requires t <= c.at && ttl == ttlMs * NANOS_PER_MILLI && ttlMs > 0
    requires Coupled(m, db, prefix, t / NANOS_PER_MILLI)
    requires !AtTick(m, c) && (c.Complete? ==> c.body != [])
    ensures Coupled(MemoryStep(m, c, ttl).0, RedisStep(db, prefix, c, ttlMs).0, prefix, c.at / NANOS_PER_MILLI)
  {
    var m', db' := MemoryStep(m, c, ttl).0, RedisStep(db, prefix, c, ttlMs).0;
    MilliSum(c.at, ttlMs);
    assert CoupledAt(m, db, prefix, c.key, t / NANOS_PER_MILLI);
    forall key: string
      ensures CoupledAt(m', db', prefix, key, c.at / NANOS_PER_MILLI)
    {
      KeysApart(prefix, key, c.key);
      KeysApart(prefix, c.key, key);
      assert CoupledAt(m, db, prefix, key, t / NANOS_PER_MILLI);
    }
  }

  /**
   Refinement: on every run of calls with non-empty responses, a positive whole-millisecond TTL
   and no claim on an expiry tick, the two stores give identical replies.
   */
  lemma {:induction false} RedisRefinesMemory(m: Entries, db: Keyspace, prefix: string, calls: seq<Call>, t: int,
                                              ttl: int, ttlMs: int)
    requires ttl == ttlMs * NANOS_PER_MILLI && ttlMs > 0
    requires Monotone(calls, t) && Comparable(m, calls, ttl)
    requires Coupled(m, db, prefix, t / NANOS_PER_MILLI)
    ensures MemoryReplies(m, calls, ttl) == RedisReplies(db, prefix, calls, ttlMs)
    decreases |calls|
  {
    if calls != [] {
      var c := calls[0];
      if c.Claim? {
        ClaimsAgreeOffTick(m, db, prefix, c, t, ttl, ttlMs);
      }
      StepKeepsCoupling(m, db, prefix, c, t, ttl, ttlMs);
      var m', db' := MemoryStep(m, c, ttl).0, RedisStep(db, prefix, c, ttlMs).0;
      RedisRefinesMemory(m', db', prefix, calls[1..], c.at, ttl, ttlMs);
    }
  }

  /** The same from two fresh stores, where nothing needs to be assumed about the states. */
  lemma FreshStoresAgree(prefix: string, calls: seq<Call>, t: int, ttlMs: int)
    requires ttlMs > 0 && Monotone(calls, t)
    requires Comparable(map[], calls, ttlMs * NANOS_PER_MILLI)
    ensures MemoryReplies(map[], calls, ttlMs * NANOS_PER_MILLI) == RedisReplies(map[], prefix, calls, ttlMs)
  {
    RedisRefinesMemory(map[], map[], prefix, calls, t, ttlMs * NANOS_PER_MILLI, ttlMs);
  }

  /**
   Empty responses are the other divergence: right after Complete the stores give the next claim
   the same answer exactly when the response is not empty. An empty one makes the in-process key
   claimable again, while Redis caches it.
   */
  lemma CompletesAgreeWhenNonEmpty(m: Entries, db: Keyspace, prefix: string, key: string, body: Bytes, at: int,
                                   ttlMs: int)
    requires ttlMs > 0
    ensures var ttl := ttlMs * NANOS_PER_MILLI;
            var ms := at / NANOS_PER_MILLI;
            var mem := MemoryClaim(MemoryComplete(m, key, body, at, ttl), key, at, ttl).1;
            var red := RedisClaim(RedisComplete(db, prefix, key, body, ms, ttlMs), prefix, key, ms, ttlMs).1;
            && (mem == red <==> body != [])
            && (body == [] ==> mem == GRANTED && Decode(red) == Success(BeginResult(false, [])))
  {
    KeysApart(prefix, key, key);
    MilliSum(at, ttlMs);
  }

  // ---------------------------------------------------------------------------------------
  // Redis alone: exclusion of the two keys, and spacing of grants
  // ---------------------------------------------------------------------------------------

  ghost predicate Exclusive(db: Keyspace, prefix: string, ms: int) {
    forall key: string :: !(Live(db, InflightKey(prefix, key), ms) && Live(db, ResultKey(prefix, key), ms))
  }

  function RedisRun(db: Keyspace, prefix: string, calls: seq<Call>, ttlMs: int): (r: Keyspace)
    decreases |calls|
  {
    if calls == [] then db else RedisRun(RedisStep(db, prefix, calls[0], ttlMs).0, prefix, calls[1..], ttlMs)
  }

  /** In every run, whatever is completed, an in-flight mark and a result are never live together. */
  lemma {:induction false} InflightAndResultExclude(db: Keyspace, prefix: string, calls: seq<Call>, t: int, ttlMs: int)
    requires Monotone(calls, t) && Exclusive(db, prefix, t / NANOS_PER_MILLI)
    ensures Exclusive(RedisRun(db, prefix, calls, ttlMs), prefix,
                      (if calls == [] then t else calls[|calls| - 1].at) / NANOS_PER_MILLI)
    decreases |calls|
  {
    if calls != [] {
      var c := calls[0];
      var db' := RedisStep(db, prefix, c, ttlMs).0;
      var ms := c.at / NANOS_PER_MILLI;
      forall key: string
        ensures !(Live(db', InflightKey(prefix, key), ms) && Live(db', ResultKey(prefix, key), ms))
      {
        KeysApart(prefix, key, c.key);
        KeysApart(prefix, c.key, key);
      }
      InflightAndResultExclude(db', prefix, calls[1..], c.at, ttlMs);
    }
  }

  /** Some key of the pair holds until at least the deadline d. */
  predicate HeldUntil(db: Keyspace, prefix: string, key: string, d: int) {
    || (InflightKey(prefix, key) in db && db[InflightKey(prefix, key)].expiresAt >= d)
    || (ResultKey(prefix, key) in db && db[ResultKey(prefix, key)].expiresAt >= d)
  }

  lemma {:induction false} NoGrantWhileHeld(db: Keyspace, prefix: string, calls: seq<Call>, t: int, ttlMs: int,
                                            key: string, d: int, j: nat)
    requires ttlMs > 0 && Monotone(calls, t) && j < |calls|
    requires HeldUntil(db, prefix, key, d) && d <= t / NANOS_PER_MILLI + ttlMs
    requires calls[j].Claim? && calls[j].key == key
    requires RedisReplies(db, prefix, calls, ttlMs)[j] == Some(GRANTED)
    ensures calls[j].at / NANOS_PER_MILLI >= d
    decreases |calls|
  {
    var c := calls[0];
    var db' := RedisStep(db, prefix, c, ttlMs).0;
    KeysApart(prefix, key, c.key);
    KeysApart(prefix, c.key, key);
    if j > 0 && c.at / NANOS_PER_MILLI < d {
      NoGrantWhileHeld(db', prefix, calls[1..], c.at, ttlMs, key, d, j - 1);
    } else if j > 0 {
      MonotoneAt(calls, t, j);
    }
  }

  lemma {:induction false} MonotoneAt(calls: seq<Call>, t: int, j: nat)
    requires Monotone(calls, t) && j < |calls|
    ensures t <= calls[0].at <= calls[j].at
    decreases |calls|
  {
    if j > 0 {
      MonotoneAt(calls[1..], calls[0].at, j - 1);
    }
  }

  /**
   At-most-once on Redis: in every run from any keyspace, whatever else is claimed or completed,
   two grants of one key are at least the TTL apart on the server clock.
   */
  lemma {:induction false} RedisGrantsSpaced(db: Keyspace, prefix: string, calls: seq<Call>, t: int, ttlMs: int,
                                             i: nat, j: nat)
    requires ttlMs > 0 && Monotone(calls, t) && i < j < |calls|
    requires calls[i].Claim? && calls[j].Claim? && calls[i].key == calls[j].key
    requires RedisReplies(db, prefix, calls, ttlMs)[i] == Some(GRANTED)
    requires RedisReplies(db, prefix, calls, ttlMs)[j] == Some(GRANTED)
    ensures calls[j].at / NANOS_PER_MILLI >= calls[i].at / NANOS_PER_MILLI + ttlMs
    decreases |calls|
  {
    var c := calls[0];
    var db' := RedisStep(db, prefix, c, ttlMs).0;
    if i > 0 {
      RedisGrantsSpaced(db', prefix, calls[1..], c.at, ttlMs, i - 1, j - 1);
    } else {
      NoGrantWhileHeld(db', prefix, calls[1..], c.at, ttlMs, c.key, c.at / NANOS_PER_MILLI + ttlMs, j - 1);
    }
  }
}
