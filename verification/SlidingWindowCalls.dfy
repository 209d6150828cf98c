/**
 One sliding-window limiter and the calls it makes, on any keys in any order: on each key they are a run
 of the script with key expiry, so what is proved of such runs holds of the limiter.
 */
module SlidingWindowCalls {
  import opened Common
  import opened SlidingWindow

  /** The limiter after a sequence of calls, on any keys. */
  function AfterCalls(prefix: string, limit: nat, window: int, calls: seq<Call>): (c: Client) {
    if calls == [] then Client(0, map[]) else
    Called(prefix, limit, window, AfterCalls(prefix, limit, window, calls[..|calls| - 1]), calls[|calls| - 1]).0
  }

  /** The calls on one key. */
  function OnKey(calls: seq<Call>, key: string): (r: seq<Call>) {
    if calls == [] then [] else
    OnKey(calls[..|calls| - 1], key) + if calls[|calls| - 1].key == key then [calls[|calls| - 1]] else []
  }

  /** The decisions on one key. */
  function Decisions(prefix: string, limit: nat, window: int, calls: seq<Call>, key: string): (r: seq<bool>) {
    if calls == [] then [] else
    var before := AfterCalls(prefix, limit, window, calls[..|calls| - 1]);
    Decisions(prefix, limit, window, calls[..|calls| - 1], key) +
    if calls[|calls| - 1].key == key then [Called(prefix, limit, window, before, calls[|calls| - 1]).1] else []
  }

  function Readings(calls: seq<Call>): (ts: seq<int>) {
    seq(|calls|, i requires 0 <= i < |calls| => calls[i].now)
  }

  function ServerTimes(calls: seq<Call>): (ts: seq<int>) {
    seq(|calls|, i requires 0 <= i < |calls| => calls[i].serverMs)
  }

  /** The arguments are what Allow sends for these calls, each with its own member, numbered up to last. */
  ghost predicate Sends(args: seq<Args>, calls: seq<Call>, window: int, last: nat) {
    && |args| == |calls|
    && (forall i :: 0 <= i < |args| ==> args[i] == ArgsFor(calls[i].now, window, args[i].member))
    && (forall i :: 0 <= i < |args| ==> args[i].member.seqNo <= last)
    && (forall i, j :: 0 <= i < j < |args| ==> args[i].member.seqNo < args[j].member.seqNo)
  }

  /** These arguments and this run are the history of a key with these calls and decisions, as the client has it. */
  ghost predicate Tells(limit: nat, window: int, rkey: string, c: Client, mine: seq<Call>, oks: seq<bool>,
                        args: seq<Args>, kr: KeyRun) {
    && Sends(args, mine, window, c.seqNo)
    && IsKeyRun(kr, args, ServerTimes(mine), limit, TtlMillis(window))
    && kr.oks == oks && (rkey in c.db <==> mine != []) && (mine != [] ==> c.db[rkey] == kr.keys[|args|])
  }

  ghost predicate History(prefix: string, limit: nat, window: int, calls: seq<Call>, key: string, args: seq<Args>,
                          kr: KeyRun) {
    Tells(limit, window, RedisKey(prefix, key), AfterCalls(prefix, limit, window, calls), OnKey(calls, key),
          Decisions(prefix, limit, window, calls, key), args, kr)
  }

  /** The three histories, one call on. */
  lemma OneCallOn(prefix: string, limit: nat, window: int, calls: seq<Call>, key: string, call: Call)
    ensures var (c, ok) := Called(prefix, limit, window, AfterCalls(prefix, limit, window, calls), call);
            && AfterCalls(prefix, limit, window, calls + [call]) == c
            && OnKey(calls + [call], key) == OnKey(calls, key) + (if call.key == key then [call] else [])
            && Decisions(prefix, limit, window, calls + [call], key)
               == Decisions(prefix, limit, window, calls, key) + (if call.key == key then [ok] else [])
  {
    assert (calls + [call])[..|calls|] == calls;
  }

  lemma RedisKeyInjective(prefix: string, a: string, b: string)
    requires RedisKey(prefix, a) == RedisKey(prefix, b)
    ensures a == b
  {
    assert RedisKey(prefix, a)[|prefix| + 4..] == a && RedisKey(prefix, b)[|prefix| + 4..] == b;
  }

  /** One more step of a key's run. */
  lemma KeyRunGrows(kr: KeyRun, args: seq<Args>, server: seq<int>, limit: nat, ttlMs: int, k: Key, a: Args,
                    serverMs: int)
    returns (kr': KeyRun)
    requires IsKeyRun(kr, args, server, limit, ttlMs) && (if args == [] then k.z == map[] else k == kr.keys[|args|])
    ensures var (after, ok) := KeyStep(k, a, limit, serverMs, ttlMs);
            && IsKeyRun(kr', args + [a], server + [serverMs], limit, ttlMs)
            && kr'.oks == kr.oks + [ok] && kr'.keys[|args| + 1] == after
  {
    var (after, ok) := KeyStep(k, a, limit, serverMs, ttlMs);
    kr' := KeyRun((if args == [] then [k] else kr.keys) + [after], kr.oks + [ok]);
    forall i | 0 <= i < |args + [a]|
      ensures StepAt(kr', (args + [a])[i], (server + [serverMs])[i], limit, ttlMs, i)
    {
      if i < |args| {
        assert StepAt(kr, args[i], server[i], limit, ttlMs, i);
        assert kr'.keys[i] == kr.keys[i] && kr'.keys[i + 1] == kr.keys[i + 1] && kr'.oks[i] == kr.oks[i];
      } else {
        assert kr'.keys[i] == k && kr'.keys[i + 1] == after && kr'.oks[i] == ok;
      }
    }
  }

  lemma SendsGrows(args: seq<Args>, calls: seq<Call>, window: int, last: nat, call: Call)
    requires Sends(args, calls, window, last)
    ensures Sends(args + [ArgsFor(call.now, window, Member(call.now, last + 1))], calls + [call], window, last + 1)
  {
  }

  /** The run of the key, one call on. */
  lemma RunGrows(limit: nat, ttlMs: int, mine: seq<Call>, call: Call, args: seq<Args>, a: Args, kr: KeyRun, k: Key)
    returns (kr': KeyRun)
    requires IsKeyRun(kr, args, ServerTimes(mine), limit, ttlMs)
    requires if args == [] then k.z == map[] else k == kr.keys[|args|]
    ensures var (after, ok) := KeyStep(k, a, limit, call.serverMs, ttlMs);
            && IsKeyRun(kr', args + [a], ServerTimes(mine + [call]), limit, ttlMs)
            && kr'.oks == kr.oks + [ok] && kr'.keys[|args| + 1] == after
  {
    kr' := KeyRunGrows(kr, args, ServerTimes(mine), limit, ttlMs, k, a, call.serverMs);
    TimesGrow(mine, call);
  }

  /** A step of the key's script is added to its history. */
  lemma TellsGrows(limit: nat, window: int, rkey: string, c: Client, c': Client, mine: seq<Call>,
                   oks: seq<bool>, ok: bool, call: Call, args: seq<Args>, kr: KeyRun)
    returns (args': seq<Args>, kr': KeyRun)
    requires Tells(limit, window, rkey, c, mine, oks, args, kr) && c'.seqNo == c.seqNo + 1 && rkey in c'.db
    requires var a := ArgsFor(call.now, window, Member(call.now, c.seqNo + 1));
             (c'.db[rkey], ok) == KeyStep(KeyIn(c.db, rkey, call.serverMs), a, limit, call.serverMs, TtlMillis(window))
    ensures Tells(limit, window, rkey, c', mine + [call], oks + [ok], args', kr')
  {
    var a := ArgsFor(call.now, window, Member(call.now, c.seqNo + 1));
    var k := KeyIn(c.db, rkey, call.serverMs);
    args' := args + [a];
    SendsGrows(args, mine, window, c.seqNo, call);
    kr' := RunGrows(limit, TtlMillis(window), mine, call, args, a, kr, k);
    Assembled(limit, window, rkey, c', mine + [call], oks + [ok], args', kr');
  }

  lemma Assembled(limit: nat, window: int, rkey: string, c: Client, mine: seq<Call>, oks: seq<bool>,
                  args: seq<Args>, kr: KeyRun)
    requires Sends(args, mine, window, c.seqNo) && IsKeyRun(kr, args, ServerTimes(mine), limit, TtlMillis(window))
    requires kr.oks == oks && mine != [] && rkey in c.db && c.db[rkey] == kr.keys[|args|]
    ensures Tells(limit, window, rkey, c, mine, oks, args, kr)
  {
  }

  /** A call on this key. */
  lemma OwnCall(prefix: string, limit: nat, window: int, c: Client, mine: seq<Call>, oks: seq<bool>, call: Call,
                args: seq<Args>, kr: KeyRun)
    returns (args': seq<Args>, kr': KeyRun)
    requires Tells(limit, window, RedisKey(prefix, call.key), c, mine, oks, args, kr)
    ensures var (c', ok) := Called(prefix, limit, window, c, call);
            Tells(limit, window, RedisKey(prefix, call.key), c', mine + [call], oks + [ok], args', kr')
  {
    var (c', ok) := Called(prefix, limit, window, c, call);
    args', kr' := TellsGrows(limit, window, RedisKey(prefix, call.key), c, c', mine, oks, ok, call, args, kr);
  }

  lemma TimesGrow(calls: seq<Call>, call: Call)
    ensures ServerTimes(calls + [call]) == ServerTimes(calls) + [call.serverMs]
  {
  }

  /** A call on another key. */
  lemma OtherCall(prefix: string, limit: nat, window: int, key: string, c: Client, mine: seq<Call>, oks: seq<bool>,
                  call: Call, args: seq<Args>, kr: KeyRun)
    requires Tells(limit, window, RedisKey(prefix, key), c, mine, oks, args, kr) && call.key != key
    ensures Tells(limit, window, RedisKey(prefix, key), Called(prefix, limit, window, c, call).0, mine, oks, args, kr)
  {
    if RedisKey(prefix, call.key) == RedisKey(prefix, key) {
      RedisKeyInjective(prefix, call.key, key);
    }
  }

  /**
   Whatever calls one limiter makes on whatever keys, those on one key are a run of the script with key
   expiry, with the decisions Allow returned and members that never repeat.
   */
  lemma {:induction false} CallsAreKeyRun(prefix: string, limit: nat, window: int, calls: seq<Call>, key: string)
    returns (args: seq<Args>, kr: KeyRun)
    ensures History(prefix, limit, window, calls, key, args, kr)
    decreases |calls|
  {
    if calls == [] {
      args, kr := [], KeyRun([Key(map[], 0)], []);
    } else {
      var init, call := calls[..|calls| - 1], calls[|calls| - 1];
      args, kr := CallsAreKeyRun(prefix, limit, window, init, key);
      assert calls == init + [call];
      OneCallOn(prefix, limit, window, init, key, call);
      var c, mine, oks :=
        AfterCalls(prefix, limit, window, init), OnKey(init, key), Decisions(prefix, limit, window, init, key);
      if call.key == key {
        args, kr := OwnCall(prefix, limit, window, c, mine, oks, call, args, kr);
      } else {
        OtherCall(prefix, limit, window, key, c, mine, oks, call, args, kr);
      }
    }
  }

  /** The run of the same arguments without expiry. */
  lemma {:induction false} WithoutExpiry(args: seq<Args>, limit: nat) returns (r: Run)
    ensures IsRun(r, limit) && r.calls == args
    decreases |args|
  {
    if args == [] {
      r := Run([], [map[]], []);
    } else {
      var n := |args| - 1;
      var q := WithoutExpiry(args[..n], limit);
      var (z, ok) := Script(q.sets[n], args[n], limit);
      r := Run(args, q.sets + [z], q.oks + [ok]);
      forall k | 0 <= k < |args|
        ensures Step(r.sets[k], r.calls[k], limit, r.sets[k + 1], r.oks[k])
      {
        assert k < n ==> Step(q.sets[k], q.calls[k], limit, q.sets[k + 1], q.oks[k]);
      }
    }
  }

  /** These calls of the key, by position among them, were admitted. */
  ghost predicate Admitted(oks: seq<bool>, ids: set<nat>) {
    forall i :: i in ids ==> i < |oks| && oks[i]
  }

  /**
   The limiter end to end: for every sequence of calls of one limiter, with readings that are not
   negative and within 500ms of the server clock, a whole-millisecond window, and readings on a key that
   fall back by at most skew, the admitted calls of the key that span at most window - skew - 1ms number at
   most the limit, in spite of flooring and key expiry.
   */
  lemma LimiterBound(prefix: string, limit: nat, window: int, calls: seq<Call>, key: string, skew: nat, ids: set<nat>)
    requires limit > 0 && window > 0 && window % NANOS_PER_MILLI == 0
    requires var mine := OnKey(calls, key);
             && (forall i :: 0 <= i < |mine| ==> 0 <= mine[i].now)
             && NearServer(Readings(mine), ServerTimes(mine), HALF_SECOND)
             && (forall i, j :: 0 <= i < j < |mine| ==> mine[i].now - skew <= mine[j].now)
             && Admitted(Decisions(prefix, limit, window, calls, key), ids)
             && (forall i, j :: i in ids && j in ids && i < |mine| && j < |mine| ==>
                   mine[j].now - mine[i].now <= window - skew - NANOS_PER_MILLI)
    ensures |ids| <= limit
  {
    var args, kr := CallsAreKeyRun(prefix, limit, window, calls, key);
    var r := WithoutExpiry(args, limit);
    var mine := OnKey(calls, key);
    var ts, server := Readings(mine), ServerTimes(mine);
    assert FromReadings(r, ts, window) && DistinctMembers(r);
    HalfSecondSlack(r, kr, ts, server, limit, window);
    NanosecondBound(r, ts, limit, window, skew, ids);
  }
}
