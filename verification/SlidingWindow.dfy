/**
 The Redis sliding-window limiter (ratelimit/redis_sliding_window.go): the script over a sorted
 set, the client side that turns a nanosecond reading into its arguments, and the key's expiry.
 */
module SlidingWindow {
  import opened Common

  /** The member text is the reading and a per-limiter sequence number. */
  datatype Member = Member(nanos: int, seqNo: nat)

  /** Members with their scores, in Unix milliseconds. */
  type SortedSet = map<Member, int>

  datatype Args = Args(now: int, windowStart: int, member: Member)

  /** ZREMRANGEBYSCORE key 0 windowStart. */
  function Pruned(z: SortedSet, windowStart: int): SortedSet {
    map m | m in z && !(0 <= z[m] <= windowStart) :: z[m]
  }

  function Script(z: SortedSet, a: Args, limit: nat): (r: (SortedSet, bool)) {
    var added := Pruned(z, a.windowStart)[a.member := a.now];
    if |added| > limit then (added - {a.member}, false) else (added, true)
  }

  /** What Allow passes for a clock reading of t nanoseconds. */
  function ArgsFor(t: int, window: int, member: Member): Args {
    Args(t / NANOS_PER_MILLI, (t - window) / NANOS_PER_MILLI, member)
  }

  function TtlMillis(window: int): int {
    (window + NANOS_PER_SECOND) / NANOS_PER_MILLI
  }

  /** The key as Redis keeps it: the set, and the server time (ms) at which it vanishes. */
  datatype Key = Key(z: SortedSet, expiresAt: int)

  function KeyStep(k: Key, a: Args, limit: nat, serverMs: int, ttlMs: int): (r: (Key, bool)) {
    var (z, ok) := Script(if k.expiresAt <= serverMs then map[] else k.z, a, limit);
    (Key(z, if ok then serverMs + ttlMs else k.expiresAt), ok)
  }

  datatype Error = KeyRequired

  /** What a limiter and the keys it uses hold. */
  datatype Client = Client(seqNo: nat, db: map<string, Key>)

  /** A call with the client's reading (ns) and the time at which Redis runs the script. */
  datatype Call = Call(key: string, now: int, serverMs: int)

  function RedisKey(prefix: string, key: string): string {
    prefix + ":sw:" + key
  }

  /** A missing key is an empty set. */
  function KeyIn(db: map<string, Key>, rkey: string, serverMs: int): Key {
    if rkey in db then db[rkey] else Key(map[], serverMs)
  }

  /** One call of Allow with a non-empty key. */
  function Called(prefix: string, limit: nat, window: int, c: Client, call: Call): (r: (Client, bool)) {
    var rkey := RedisKey(prefix, call.key);
    var a := ArgsFor(call.now, window, Member(call.now, c.seqNo + 1));
    var (after, ok) := KeyStep(KeyIn(c.db, rkey, call.serverMs), a, limit, call.serverMs, TtlMillis(window));
    (Client(c.seqNo + 1, c.db[rkey := after]), ok)
  }

  class Limiter {
    const prefix: string
    const limit: nat
    const window: int
    var seqNo: nat
    var db: map<string, Key>

    constructor (keyPrefix: string, limit: nat, window: int)
      requires limit > 0 && window > 0
      ensures this.limit == limit && this.window == window && seqNo == 0 && db == map[]
      ensures prefix == if keyPrefix == "" then "floodguard:ratelimit" else keyPrefix
    {
      prefix := if keyPrefix == "" then "floodguard:ratelimit" else keyPrefix;
      this.limit, this.window, seqNo, db := limit, window, 0, map[];
    }

    /** now is the client's reading (ns), serverMs the time at which Redis runs the script. */
    method Allow(key: string, now: int, serverMs: int) returns (r: Result<bool, Error>)
      modifies this
      ensures key == "" ==> r == Failure(KeyRequired) && db == old(db) && seqNo == old(seqNo)
      ensures key != "" ==>
                var (c, ok) := Called(prefix, limit, window, Client(old(seqNo), old(db)), Call(key, now, serverMs));
                Client(seqNo, db) == c && r == Success(ok)
    {
      if key == "" {
        return Failure(KeyRequired);
      }
      var rkey := RedisKey(prefix, key);
      seqNo := seqNo + 1;
      var k := KeyIn(db, rkey, serverMs);
      var after, ok := Eval(k, ArgsFor(now, window, Member(now, seqNo)), limit, serverMs, TtlMillis(window));
      db := db[rkey := after];
      return Success(ok);
    }

    /** The script: prune, add, count, then take the member back or renew the expiry. */
    static method Eval(k: Key, a: Args, limit: nat, serverMs: int, ttlMs: int) returns (after: Key, ok: bool)
      ensures (after, ok) == KeyStep(k, a, limit, serverMs, ttlMs)
      ensures after.expiresAt == if ok then serverMs + ttlMs else k.expiresAt
      ensures var live: SortedSet := if k.expiresAt <= serverMs then map[] else k.z;
              forall m :: m in after.z <==> if m == a.member then ok else m in live && !(0 <= live[m] <= a.windowStart)
    {
      var z := if k.expiresAt <= serverMs then map[] else k.z;
      z := Pruned(z, a.windowStart);
      z := z[a.member := a.now];
      if |z| > limit {
        return Key(z - {a.member}, k.expiresAt), false;
      }
      return Key(z, serverMs + ttlMs), true;
    }
  }

  // ---------------------------------------------------------------------------------------
  // Runs of the script on one key
  // ---------------------------------------------------------------------------------------

  /** The calls in the order Redis runs them, the sets around them, and the decisions. */
  datatype Run = Run(calls: seq<Args>, sets: seq<SortedSet>, oks: seq<bool>)

  predicate Step(z: SortedSet, a: Args, limit: nat, z': SortedSet, ok: bool) {
    Script(z, a, limit) == (z', ok)
  }

  /** A run from a missing key, with no key expiry. */
  ghost predicate IsRun(r: Run, limit: nat) {
    && |r.oks| == |r.calls| && |r.sets| == |r.calls| + 1 && r.sets[0] == map[]
    && forall k :: 0 <= k < |r.calls| ==> Step(r.sets[k], r.calls[k], limit, r.sets[k + 1], r.oks[k])
  }

  ghost predicate DistinctMembers(r: Run) {
    forall i, j :: 0 <= i < j < |r.calls| ==> r.calls[i].member != r.calls[j].member
  }

  /** ids are accepted calls. */
  ghost predicate Accepted(r: Run, ids: set<nat>) {
    forall i :: i in ids ==> i < |r.calls| && i < |r.oks| && r.oks[i]
  }

  /** What one script does to one member. */
  lemma ScriptContents(z: SortedSet, a: Args, limit: nat, z': SortedSet, ok: bool, m: Member)
    requires Step(z, a, limit, z', ok)
    ensures m == a.member ==> (m in z' <==> ok) && (ok ==> z'[m] == a.now)
    ensures m != a.member ==> (m in z' <==> m in z && !(0 <= z[m] <= a.windowStart))
    ensures m != a.member && m in z' ==> z'[m] == z[m]
  {
  }

  lemma ScriptSize(z: SortedSet, a: Args, limit: nat, z': SortedSet, ok: bool)
    requires Step(z, a, limit, z', ok) && |z| <= limit
    ensures |z'| <= limit
  {
    if !ok {
      assert z'.Keys <= z.Keys;
      SubsetSize(z'.Keys, z.Keys);
      assert |z'| == |z'.Keys| && |z| == |z.Keys|;
    }
  }

  /** The sorted set never holds more than limit members after a script. */
  lemma {:induction false} NeverOverfull(r: Run, limit: nat, k: nat)
    requires IsRun(r, limit) && k <= |r.calls|
    ensures |r.sets[k]| <= limit
  {
    if k > 0 {
      NeverOverfull(r, limit, k - 1);
      assert Step(r.sets[k - 1], r.calls[k - 1], limit, r.sets[k - 1 + 1], r.oks[k - 1]);
      ScriptSize(r.sets[k - 1], r.calls[k - 1], limit, r.sets[k], r.oks[k - 1]);
    }
  }

  /** Every member of the set is that of an earlier accepted call, with that call's score. */
  lemma {:induction false} Provenance(r: Run, limit: nat, k: nat, m: Member) returns (i: nat)
    requires IsRun(r, limit) && k <= |r.calls| && m in r.sets[k]
    ensures i < k && r.oks[i] && r.calls[i].member == m && r.calls[i].now == r.sets[k][m]
  {
    assert Step(r.sets[k - 1], r.calls[k - 1], limit, r.sets[k - 1 + 1], r.oks[k - 1]);
    ScriptContents(r.sets[k - 1], r.calls[k - 1], limit, r.sets[k], r.oks[k - 1], m);
    if m == r.calls[k - 1].member {
      i := k - 1;
    } else {
      i := Provenance(r, limit, k - 1, m);
    }
  }

  /** An accepted member stays until some script's windowStart reaches its score. */
  lemma {:induction false} Survives(r: Run, limit: nat, i: nat, k: nat)
    requires IsRun(r, limit) && DistinctMembers(r) && i < k <= |r.calls| && r.oks[i]
    requires forall j :: i < j < k ==> r.calls[j].windowStart < r.calls[i].now
    ensures r.calls[i].member in r.sets[k] && r.sets[k][r.calls[i].member] == r.calls[i].now
  {
    assert Step(r.sets[k - 1], r.calls[k - 1], limit, r.sets[k - 1 + 1], r.oks[k - 1]);
    ScriptContents(r.sets[k - 1], r.calls[k - 1], limit, r.sets[k], r.oks[k - 1], r.calls[i].member);
    if i + 1 < k {
      Survives(r, limit, i, k - 1);
    }
  }

  function Members(calls: seq<Args>, ids: set<nat>): (r: set<Member>)
    requires forall i :: i in ids ==> i < |calls|
  {
    set i | i in ids :: calls[i].member
  }

  lemma {:induction false} MembersSize(r: Run, ids: set<nat>)
    requires forall i :: i in ids ==> i < |r.calls|
    ensures |Members(r.calls, ids)| <= |ids|
    ensures DistinctMembers(r) ==> |Members(r.calls, ids)| == |ids|
  {
    if ids != {} {
      var i :| i in ids;
      var rest := ids - {i};
      MembersSize(r, rest);
      assert Members(r.calls, ids) == Members(r.calls, rest) + {r.calls[i].member};
    }
  }

  /**
   The window law: any accepted calls that no later script up to the last of them prunes number
   at most limit. The bounds below are this law with the arithmetic of each clock.
   */
  lemma UnprunedBound(r: Run, limit: nat, ids: set<nat>, last: nat)
    requires IsRun(r, limit) && DistinctMembers(r) && Accepted(r, ids)
    requires last in ids && forall i :: i in ids ==> i <= last
    requires forall i, k :: i in ids && i < k <= last ==> r.calls[k].windowStart < r.calls[i].now
    ensures |ids| <= limit
  {
    var z := r.sets[last + 1];
    forall i | i in ids
      ensures r.calls[i].member in z
    {
      Survives(r, limit, i, last + 1);
    }
    assert Members(r.calls, ids) <= z.Keys;
    MembersSize(r, ids);
    SubsetSize(Members(r.calls, ids), z.Keys);
    assert |z| == |z.Keys|;
    NeverOverfull(r, limit, last + 1);
  }

  lemma {:induction false} Greatest(ids: set<nat>) returns (g: nat)
    requires ids != {}
    ensures g in ids && forall i :: i in ids ==> i <= g
  {
    g :| g in ids;
    if ids != {g} {
      var rest := ids - {g};
      assert ids == rest + {g};
      var h := Greatest(rest);
      g := if g < h then h else g;
    }
  }

  /**
   Skewed clocks, in the script's own milliseconds: if readings of later scripts fall back by at
   most skew, accepted calls whose readings span less than window - skew number at most limit.
   */
  lemma SkewedWindowBound(r: Run, limit: nat, window: int, skew: nat, ids: set<nat>)
    requires IsRun(r, limit) && DistinctMembers(r) && Accepted(r, ids)
    requires forall k :: 0 <= k < |r.calls| ==> r.calls[k].windowStart == r.calls[k].now - window
    requires forall i, j :: 0 <= i < j < |r.calls| ==> r.calls[i].now - skew <= r.calls[j].now
    requires forall i, j :: i in ids && j in ids ==> r.calls[j].now - r.calls[i].now < window - skew
    ensures |ids| <= limit
  {
    if ids != {} {
      var last := Greatest(ids);
      forall i, k | i in ids && i < k <= last
        ensures r.calls[k].windowStart < r.calls[i].now
      {
        assert r.calls[k].now - skew <= r.calls[last].now;
      }
      UnprunedBound(r, limit, ids, last);
    }
  }

  // ---------------------------------------------------------------------------------------
  // Against the exact nanosecond log
  // ---------------------------------------------------------------------------------------

  /** The calls are what Allow sends for the readings ts. */
  ghost predicate FromReadings(r: Run, ts: seq<int>, window: int) {
    && |r.calls| == |ts|
    && forall k :: 0 <= k < |ts| ==> r.calls[k] == ArgsFor(ts[k], window, r.calls[k].member)
  }

  /**
   No over-admission: with readings (ns) falling back by at most skew, accepted calls whose
   readings span at most window - skew - 1ms number at most limit, although both times sent to
   Redis are floored to milliseconds. With skew 0 this is the monotone clock.
   */
  lemma NanosecondBound(r: Run, ts: seq<int>, limit: nat, window: int, skew: nat, ids: set<nat>)
    requires IsRun(r, limit) && DistinctMembers(r) && Accepted(r, ids) && FromReadings(r, ts, window)
    requires forall i, j :: 0 <= i < j < |ts| ==> ts[i] - skew <= ts[j]
    requires forall i, j :: i in ids && j in ids ==> ts[j] - ts[i] <= window - skew - NANOS_PER_MILLI
    ensures |ids| <= limit
  {
    if ids != {} {
      var last := Greatest(ids);
      forall i, k | i in ids && i < k <= last
        ensures r.calls[k].windowStart < r.calls[i].now
      {
        assert ts[k] - skew <= ts[last];
        assert r.calls[k] == ArgsFor(ts[k], window, r.calls[k].member);
        assert r.calls[i] == ArgsFor(ts[i], window, r.calls[i].member);
      }
      UnprunedBound(r, limit, ids, last);
    }
  }

  /** The accepted calls before call k that lie strictly inside its last window. */
  function AcceptedWithin(r: Run, ts: seq<int>, k: nat, window: int): (ids: set<nat>)
    requires k < |ts| == |r.oks|
  {
    set i: nat | i < k && r.oks[i] && ts[i] > ts[k] - window
  }

  /**
   No false rejection: a denied call has at least limit accepted calls strictly inside its last
   window, on the exact log.
   */
  lemma DeniedMeansFull(r: Run, ts: seq<int>, limit: nat, window: int, k: nat)
    requires IsRun(r, limit) && DistinctMembers(r) && FromReadings(r, ts, window)
    requires forall i :: 0 <= i < |ts| ==> 0 <= ts[i]
    requires k < |ts| && !r.oks[k]
    ensures |AcceptedWithin(r, ts, k, window)| >= limit
  {
    var z, a := r.sets[k], r.calls[k];
    assert Step(z, a, limit, r.sets[k + 1], r.oks[k]);
    var pruned := Pruned(z, a.windowStart);
    assert |pruned| >= limit by {
      assert pruned[a.member := a.now].Keys == pruned.Keys + {a.member};
    }
    var within := AcceptedWithin(r, ts, k, window);
    forall m | m in pruned
      ensures m in Members(r.calls, within)
    {
      var i := Provenance(r, limit, k, m);
      assert r.calls[i] == ArgsFor(ts[i], window, m);
      assert r.calls[k] == ArgsFor(ts[k], window, a.member);
      assert i in within;
    }
    SubsetSize(pruned.Keys, Members(r.calls, within));
    MembersSize(r, within);
  }

  // ---------------------------------------------------------------------------------------
  // The key's expiry is invisible
  // ---------------------------------------------------------------------------------------

  /** The same calls with PEXPIRE in force; call k reaches the server at server[k] (ms). */
  datatype KeyRun = KeyRun(keys: seq<Key>, oks: seq<bool>)

  ghost predicate IsKeyRun(kr: KeyRun, calls: seq<Args>, server: seq<int>, limit: nat, ttlMs: int) {
    && |kr.oks| == |calls| == |server| && |kr.keys| == |calls| + 1 && kr.keys[0].z == map[]
    && forall k :: 0 <= k < |calls| ==> StepAt(kr, calls[k], server[k], limit, ttlMs, k)
  }

  /** Call k of the run. */
  predicate StepAt(kr: KeyRun, a: Args, serverMs: int, limit: nat, ttlMs: int, k: nat) {
    k < |kr.oks| && k + 1 < |kr.keys| && (kr.keys[k + 1], kr.oks[k]) == KeyStep(kr.keys[k], a, limit, serverMs, ttlMs)
  }

  /** Client readings stay within slack of the server clock, which never runs back. */
  ghost predicate NearServer(ts: seq<int>, server: seq<int>, slack: int) {
    && |ts| == |server|
    && (forall i, j :: 0 <= i < j < |server| ==> server[i] <= server[j])
    && (forall k :: 0 <= k < |ts| ==> -slack <= ts[k] - server[k] * NANOS_PER_MILLI <= slack)
  }

  /** Every score was taken at most slack after the server time of the last acceptance. */
  ghost predicate Fresh(key: Key, ttlMs: int, slack: int) {
    forall m :: m in key.z ==> 0 <= key.z[m] && (key.z[m] - (key.expiresAt - ttlMs)) * NANOS_PER_MILLI <= slack
  }

  /** If the key has expired, the script would have pruned everything anyway. */
  lemma ExpiredIsPruned(key: Key, t: int, window: int, member: Member, serverMs: int, ttlMs: int, slack: int)
    requires Fresh(key, ttlMs, slack) && key.expiresAt <= serverMs
    requires -slack <= t - serverMs * NANOS_PER_MILLI && window + 2 * slack <= ttlMs * NANOS_PER_MILLI
    ensures Pruned(key.z, ArgsFor(t, window, member).windowStart) == map[]
  {
    forall m | m in key.z
      ensures key.z[m] <= (t - window) / NANOS_PER_MILLI
    {
      assert key.z[m] * NANOS_PER_MILLI <= t - window;
    }
  }

  lemma StepsAgree(key: Key, t: int, window: int, member: Member, limit: nat, serverMs: int, ttlMs: int, slack: int)
    requires Fresh(key, ttlMs, slack) && limit > 0 && 0 <= t
    requires key.z == map[] || key.expiresAt - ttlMs <= serverMs
    requires -slack <= t - serverMs * NANOS_PER_MILLI <= slack && window + 2 * slack <= ttlMs * NANOS_PER_MILLI
    ensures var a := ArgsFor(t, window, member);
            var (key', ok) := KeyStep(key, a, limit, serverMs, ttlMs);
            && Script(key.z, a, limit) == (key'.z, ok)
            && Fresh(key', ttlMs, slack)
            && (key'.z == map[] || key'.expiresAt - ttlMs <= serverMs)
  {
    var a := ArgsFor(t, window, member);
    if key.expiresAt <= serverMs {
      ExpiredIsPruned(key, t, window, member, serverMs, ttlMs, slack);
      assert Pruned(map[], a.windowStart) == map[];
    }
    var (key', ok) := KeyStep(key, a, limit, serverMs, ttlMs);
    assert Script(key.z, a, limit) == (key'.z, ok);
    forall m | m in key'.z
      ensures 0 <= key'.z[m] && (key'.z[m] - (key'.expiresAt - ttlMs)) * NANOS_PER_MILLI <= slack
    {
      ScriptContents(key.z, a, limit, key'.z, ok, m);
    }
  }

  /** What call k of both runs works on. */
  lemma CallOf(r: Run, kr: KeyRun, ts: seq<int>, server: seq<int>, limit: nat, window: int, ttlMs: int, slack: int,
               k: nat) returns (m: Member)
    requires IsRun(r, limit) && IsKeyRun(kr, r.calls, server, limit, ttlMs)
    requires FromReadings(r, ts, window) && NearServer(ts, server, slack) && k < |ts|
    ensures var a := ArgsFor(ts[k], window, m);
            && Script(r.sets[k], a, limit) == (r.sets[k + 1], r.oks[k])
            && KeyStep(kr.keys[k], a, limit, server[k], ttlMs) == (kr.keys[k + 1], kr.oks[k])
    ensures -slack <= ts[k] - server[k] * NANOS_PER_MILLI <= slack && (k > 0 ==> server[k - 1] <= server[k])
  {
    m := r.calls[k].member;
    assert Step(r.sets[k], r.calls[k], limit, r.sets[k + 1], r.oks[k]);
    assert StepAt(kr, r.calls[k], server[k], limit, ttlMs, k);
  }

  /** The run with expiry has the same set and decisions so far, and its scores are recent. */
  ghost predicate InStep(r: Run, kr: KeyRun, server: seq<int>, ttlMs: int, slack: int, n: nat) {
    && n < |kr.keys| && n < |r.sets| && n <= |kr.oks| && n <= |r.oks| && n <= |server|
    && kr.keys[n].z == r.sets[n] && kr.oks[..n] == r.oks[..n] && Fresh(kr.keys[n], ttlMs, slack)
    && (n > 0 ==> kr.keys[n].z == map[] || kr.keys[n].expiresAt - ttlMs <= server[n - 1])
  }

  lemma StaysInStep(r: Run, kr: KeyRun, server: seq<int>, limit: nat, ttlMs: int, slack: int, k: nat, t: int,
                    window: int, m: Member)
    requires InStep(r, kr, server, ttlMs, slack, k) && limit > 0 && 0 <= t
    requires k + 1 < |kr.keys| && k + 1 < |r.sets| && k < |kr.oks| && k < |r.oks| && k < |server|
    requires -slack <= t - server[k] * NANOS_PER_MILLI <= slack && window + 2 * slack <= ttlMs * NANOS_PER_MILLI
    requires k == 0 ==> kr.keys[0].z == map[]
    requires k > 0 ==> server[k - 1] <= server[k]
    requires var a := ArgsFor(t, window, m);
             && Script(r.sets[k], a, limit) == (r.sets[k + 1], r.oks[k])
             && KeyStep(kr.keys[k], a, limit, server[k], ttlMs) == (kr.keys[k + 1], kr.oks[k])
    ensures InStep(r, kr, server, ttlMs, slack, k + 1)
  {
    StepsAgree(kr.keys[k], t, window, m, limit, server[k], ttlMs, slack);
    assert kr.oks[..k + 1] == kr.oks[..k] + [kr.oks[k]] && r.oks[..k + 1] == r.oks[..k] + [r.oks[k]];
  }

  /**
   Expiry never changes a decision: while readings stay within slack of the server clock and the
   TTL covers the window plus twice the slack, the limiter with key expiry makes every decision
   the limiter without it makes, and holds the same set throughout.
   */
  lemma {:induction false} ExpiryInvisible(r: Run, kr: KeyRun, ts: seq<int>, server: seq<int>, limit: nat,
                                           window: int, ttlMs: int, slack: int, n: nat)
    requires IsRun(r, limit) && IsKeyRun(kr, r.calls, server, limit, ttlMs)
    requires FromReadings(r, ts, window) && NearServer(ts, server, slack)
    requires limit > 0 && forall i :: 0 <= i < |ts| ==> 0 <= ts[i]
    requires window + 2 * slack <= ttlMs * NANOS_PER_MILLI
    requires n <= |ts|
    ensures InStep(r, kr, server, ttlMs, slack, n)
  {
    if n > 0 {
      var k := n - 1;
      ExpiryInvisible(r, kr, ts, server, limit, window, ttlMs, slack, k);
      var m := CallOf(r, kr, ts, server, limit, window, ttlMs, slack, k);
      StaysInStep(r, kr, server, limit, ttlMs, slack, k, ts[k], window, m);
    }
  }

  const HALF_SECOND := 500 * NANOS_PER_MILLI

  /** The same calls with and without key expiry under the configured TTL, readings within 500ms of the server clock. */
  ghost predicate Twin(r: Run, kr: KeyRun, ts: seq<int>, server: seq<int>, limit: nat, window: int) {
    && IsRun(r, limit) && IsKeyRun(kr, r.calls, server, limit, TtlMillis(window))
    && FromReadings(r, ts, window) && NearServer(ts, server, HALF_SECOND)
    && limit > 0 && forall i :: 0 <= i < |ts| ==> 0 <= ts[i]
  }

  /** The configured TTL, window + 1s, covers 500ms of slack for every whole-millisecond window. */
  lemma HalfSecondSlack(r: Run, kr: KeyRun, ts: seq<int>, server: seq<int>, limit: nat, window: int)
    requires Twin(r, kr, ts, server, limit, window) && window % NANOS_PER_MILLI == 0
    ensures kr.oks == r.oks
  {
    ExpiryInvisible(r, kr, ts, server, limit, window, TtlMillis(window), HALF_SECOND, |ts|);
    assert kr.oks == kr.oks[..|ts|] && r.oks == r.oks[..|ts|];
  }

  lemma CutShortTimes(window: int, m: Member)
    requires window > 0 && window % NANOS_PER_MILLI != 0
    ensures var w := window / NANOS_PER_MILLI;
            && w >= 0 && TtlMillis(window) == w + 1000
            && ArgsFor(HALF_SECOND, window, m).now == 500
            && ArgsFor((w + 500) * NANOS_PER_MILLI, window, m).windowStart == 499
  {
  }

  /** One member, still inside the window of the next call: without expiry that call is denied, with it admitted. */
  lemma OneInTheWay(a: Args, b: Args)
    requires a.now == 500 && b.windowStart == 499 && a.member != b.member
    ensures var one: SortedSet := map[a.member := 500];
            && Script(map[], a, 1) == (one, true) && Script(one, b, 1) == (one, false)
            && Script(map[], b, 1) == (map[b.member := b.now], true)
  {
    var one: SortedSet := map[a.member := 500];
    assert Pruned(map[], a.windowStart) == map[] && Pruned(map[], b.windowStart) == map[];
    assert Pruned(one, b.windowStart) == one;
    assert one[b.member := b.now].Keys == {a.member, b.member};
    assert |one[b.member := b.now]| == |{a.member, b.member}|;
    assert one[b.member := b.now] - {b.member} == one;
  }

  /** With part of a millisecond in the window, the TTL is cut short: two calls that expiry tells apart. */
  lemma CutShort(window: int) returns (r: Run, kr: KeyRun, ts: seq<int>, server: seq<int>)
    requires window > 0 && window % NANOS_PER_MILLI != 0
    ensures Twin(r, kr, ts, server, 1, window) && kr.oks != r.oks
  {
    var w := window / NANOS_PER_MILLI;
    var t := (w + 500) * NANOS_PER_MILLI;
    var a, b := ArgsFor(HALF_SECOND, window, Member(HALF_SECOND, 1)), ArgsFor(t, window, Member(t, 2));
    CutShortTimes(window, Member(HALF_SECOND, 1));
    CutShortTimes(window, Member(t, 2));
    r, kr := TwoCalls(a, b, w + 1000);
    ts, server := [HALF_SECOND, t], [0, w + 1000];
  }

  lemma TwoCalls(a: Args, b: Args, ttlMs: int) returns (r: Run, kr: KeyRun)
    requires a.now == 500 && b.windowStart == 499 && a.member != b.member
    ensures r.calls == [a, b] && IsRun(r, 1) && IsKeyRun(kr, r.calls, [0, ttlMs], 1, ttlMs) && kr.oks[1] != r.oks[1]
  {
    OneInTheWay(a, b);
    var one, two: SortedSet := map[a.member := 500], map[b.member := b.now];
    var k0, k1, k2 := Key(map[], 0), Key(one, ttlMs), Key(two, ttlMs + ttlMs);
    assert Step(map[], a, 1, one, true) && Step(one, b, 1, one, false);
    assert KeyStep(k0, a, 1, 0, ttlMs) == (k1, true) && KeyStep(k1, b, 1, ttlMs, ttlMs) == (k2, true);
    r := Run([a, b], [map[], one, one], [true, false]);
    kr := KeyRun([k0, k1, k2], [true, true]);
    forall k | 0 <= k < 2
      ensures Step(r.sets[k], r.calls[k], 1, r.sets[k + 1], r.oks[k])
      ensures StepAt(kr, r.calls[k], [0, ttlMs][k], 1, ttlMs, k)
    {
      if k == 0 {
        assert r.sets[k + 1] == one && kr.keys[k + 1] == k1;
      } else {
        assert k == 1 && r.sets[k + 1] == one && kr.keys[k + 1] == k2;
      }
    }
  }

  /**
   Expiry never changes a decision within 500ms of the server clock exactly when the window is a whole
   number of milliseconds.
   */
  lemma ExpiryInvisibleExactly(window: int)
    requires window > 0
    ensures window % NANOS_PER_MILLI == 0 <==>
            forall r, kr, ts, server, limit :: Twin(r, kr, ts, server, limit, window) ==> kr.oks == r.oks
  {
    if window % NANOS_PER_MILLI == 0 {
      forall r, kr, ts, server, limit | Twin(r, kr, ts, server, limit, window)
        ensures kr.oks == r.oks
      {
        HalfSecondSlack(r, kr, ts, server, limit, window);
      }
    } else {
      var r, kr, ts, server := CutShort(window);
      assert Twin(r, kr, ts, server, 1, window);
    }
  }
}
