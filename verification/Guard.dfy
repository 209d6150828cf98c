/**
 Guard.Protect (floodguard.go): the four protections in order, over four stores.

 A rate limiter is any step function on its own state, and may allow, deny or fail. Each layer
 reads the clock itself; the velocity check does so once per rule and once to record.
 */
module Guard {
  import opened Common
  import Text
  import Idem = Idempotency
  import Velocity
  import opened Pipeline

  type Limiter<!S> = (S, string, int) -> (S, Verdict)

  /** The four stores: both limiters, the idempotency entries, and one list of actions per velocity key. */
  datatype Stores<S> = Stores(ip: S, rate: S, idem: Idem.Entries, vel: map<string, seq<int>>)

  /** The Guard's configuration: a missing IP limiter skips layer 1. */
  datatype Setup<!S> = Setup(
    ipLimiter: Option<Limiter<S>>,
    limiter: Limiter<S>,
    idemTtl: nat,
    rules: seq<Velocity.Rule>)

  datatype Request = Request(key: string, ipKey: string, idemKey: string, action: string)

  /** The clock readings of one request, layer by layer. */
  datatype Times = Times(ip: int, rate: int, claim: int, checks: seq<int>)

  predicate Ordered(t: Times) {
    && t.ip <= t.rate <= t.claim
    && (forall a :: 0 <= a < |t.checks| ==> t.claim <= t.checks[a])
    && NonDecreasing(t.checks)
  }

  predicate NonDecreasing(clock: seq<int>) {
    forall a, b :: 0 <= a < b < |clock| ==> clock[a] <= clock[b]
  }

  function VelKeyOf(req: Request): string {
    VelocityKey(req.key, req.action)
  }

  function TimesOf(vel: map<string, seq<int>>, k: string): seq<int> {
    if k in vel then vel[k] else []
  }

  // ---------------------------------------------------------------------------------------
  // Guard.Protect
  // ---------------------------------------------------------------------------------------

  datatype Layer = IpLayer | RateLayer | KeyLayer | VelocityLayer

  datatype Protection =
    | KeyMissing
    | Failed(layer: Layer)
    | DuplicateInFlight
    | Rejected(layer: Layer)
    | Cached(body: Bytes)
    | Allowed

  /** What a velocity check's new list and outcome make of the stores and the decision. */
  function AfterCheck<S>(st: Stores<S>, k: string, check: (seq<int>, Velocity.Outcome)): (r: (Stores<S>, Protection)) {
    (st.(vel := st.vel[k := check.0]),
     match check.1
     case Allowed => Allowed
     case Denied(_) => Rejected(VelocityLayer)
     case _ => Failed(VelocityLayer))
  }

  function DecideVelocity<S>(g: Setup<S>, st: Stores<S>, req: Request, t: Times): (r: (Stores<S>, Protection))
    requires |g.rules| < |t.checks|
  {
    var k := VelKeyOf(req);
    if k == "" then (st, Failed(VelocityLayer))
    else AfterCheck(st, k, Velocity.CheckFrom(g.rules, 0, TimesOf(st.vel, k), t.checks))
  }

  function DecideKey<S>(g: Setup<S>, st: Stores<S>, req: Request, t: Times): (r: (Stores<S>, Protection))
    requires |g.rules| < |t.checks|
  {
    if req.idemKey == "" then DecideVelocity(g, st, req, t) else
    var (idem, c) := Idem.MemoryClaim(st.idem, req.idemKey, t.claim, g.idemTtl);
    var st' := st.(idem := idem);
    match Idem.Decode(c)
    case Failure(e) => (st', if e.InFlight? then DuplicateInFlight else Failed(KeyLayer))
    case Success(b) =>
      if b.cached != [] then (st', Cached(b.cached))
      else if !b.process then (st', DuplicateInFlight)
      else DecideVelocity(g, st', req, t)
  }

  function DecideRate<S>(g: Setup<S>, st: Stores<S>, req: Request, t: Times): (r: (Stores<S>, Protection))
    requires |g.rules| < |t.checks|
  {
    var (rate, v) := g.limiter(st.rate, req.key, t.rate);
    var st' := st.(rate := rate);
    match v
    case Fault => (st', Failed(RateLayer))
    case Deny => (st', Rejected(RateLayer))
    case Allow => DecideKey(g, st', req, t)
  }

  function Decide<S>(g: Setup<S>, st: Stores<S>, req: Request, t: Times): (r: (Stores<S>, Protection))
    requires |g.rules| < |t.checks|
  {
    if req.key == "" then (st, KeyMissing)
    else if g.ipLimiter.None? || req.ipKey == "" then DecideRate(g, st, req, t)
    else
      var (ip, v) := g.ipLimiter.value(st.ip, req.ipKey, t.ip);
      var st' := st.(ip := ip);
      match v
      case Fault => (st', Failed(IpLayer))
      case Deny => (st', Rejected(IpLayer))
      case Allow => DecideRate(g, st', req, t)
  }

  /** The layer at which Protect stopped: 0 before any, 1 to 4 the layers, 5 after all. */
  function Depth(p: Protection): nat {
    match p
    case KeyMissing => 0
    case Failed(layer) => LayerNumber(layer)
    case Rejected(layer) => LayerNumber(layer)
    case DuplicateInFlight => 3
    case Cached(_) => 3
    case Allowed => 5
  }

  function LayerNumber(layer: Layer): nat {
    match layer
    case IpLayer => 1
    case RateLayer => 2
    case KeyLayer => 3
    case VelocityLayer => 4
  }

  /** Every idempotency key but this one, and every velocity key but this one, is as before. */
  ghost predicate OthersAsBefore<S>(st: Stores<S>, st': Stores<S>, idemKey: string, velKey: string) {
    && (forall k :: k != idemKey ==> (k in st'.idem <==> k in st.idem) && (k in st.idem ==> st'.idem[k] == st.idem[k]))
    && (forall k :: k != velKey ==> TimesOf(st'.vel, k) == TimesOf(st.vel, k))
  }

  /** The stores after layer 1. */
  function PastIp<S>(g: Setup<S>, st: Stores<S>, req: Request, t: Times): Stores<S> {
    if g.ipLimiter.None? || req.ipKey == "" then st
    else st.(ip := g.ipLimiter.value(st.ip, req.ipKey, t.ip).0)
  }

  /**
   A request stopped at one layer has touched no later layer's store, and in the claim and velocity
   stores only its own keys.
   */
  lemma LaterLayersUntouched<S>(g: Setup<S>, st: Stores<S>, req: Request, t: Times)
    requires |g.rules| < |t.checks|
    ensures var (st', p) := Decide(g, st, req, t);
            && (Depth(p) < 1 ==> st' == st)
            && (Depth(p) < 2 ==> st'.rate == st.rate)
            && (Depth(p) < 4 ==> st'.idem == st.idem && st'.vel == st.vel)
            && OthersAsBefore(st, st', req.idemKey, VelKeyOf(req))
  {
    if req.key != "" {
      var st1 := PastIp(g, st, req, t);
      var st2 := st1.(rate := g.limiter(st1.rate, req.key, t.rate).0);
      KeyLayerUntouched(g, st2, req, t);
    }
  }

  lemma KeyLayerUntouched<S>(g: Setup<S>, st: Stores<S>, req: Request, t: Times)
    requires |g.rules| < |t.checks|
    ensures var (st', p) := DecideKey(g, st, req, t);
            && Depth(p) > 2 && st'.ip == st.ip && st'.rate == st.rate
            && (Depth(p) == 3 ==> st' == st)
            && OthersAsBefore(st, st', req.idemKey, VelKeyOf(req))
            && (Depth(p) > 3 && req.idemKey != "" ==>
                  st'.idem == st.idem[req.idemKey := Idem.Entry(true, [], t.claim + g.idemTtl)])
  {
    var st1 := st.(idem := Idem.MemoryClaim(st.idem, req.idemKey, t.claim, g.idemTtl).0);
    VelocityLayerUntouched(g, st1, req, t);
    VelocityLayerUntouched(g, st, req, t);
  }

  lemma VelocityLayerUntouched<S>(g: Setup<S>, st: Stores<S>, req: Request, t: Times)
    requires |g.rules| < |t.checks|
    ensures var (st', p) := DecideVelocity(g, st, req, t);
            && Depth(p) > 3 && st' == st.(vel := st'.vel)
            && forall k :: k != VelKeyOf(req) ==> TimesOf(st'.vel, k) == TimesOf(st.vel, k)
  {
  }

  /** The key is in flight, and stays so at least until the deadline. */
  predicate HeldUntil(idem: Idem.Entries, key: string, deadline: int) {
    key in idem && deadline <= idem[key].expiresAt && idem[key].inFlight && idem[key].value == []
  }

  /** The key is held, or its response is cached, at least until the deadline. */
  predicate TakenUntil(idem: Idem.Entries, key: string, deadline: int) {
    key in idem && deadline <= idem[key].expiresAt && (idem[key].inFlight || idem[key].value != [])
  }

  /**
   While its key is taken, no request gets past its claim; while it is in flight, each that gets there
   is a duplicate.
   */
  lemma TakenKeyStops<S>(g: Setup<S>, st: Stores<S>, req: Request, t: Times, deadline: int)
    requires |g.rules| < |t.checks| && req.idemKey != "" && t.claim <= deadline
    requires TakenUntil(st.idem, req.idemKey, deadline)
    ensures var (st', p) := Decide(g, st, req, t);
            && Depth(p) <= 3 && st'.idem == st.idem && st'.vel == st.vel
            && (Depth(p) == 3 && HeldUntil(st.idem, req.idemKey, deadline) ==> p == DuplicateInFlight)
  {
    if req.key != "" {
      var st1 := PastIp(g, st, req, t);
      var st2 := st1.(rate := g.limiter(st1.rate, req.key, t.rate).0);
      TakenKeyIsNotGranted(g, st2, req, t, deadline);
    }
  }

  lemma TakenKeyIsNotGranted<S>(g: Setup<S>, st: Stores<S>, req: Request, t: Times, deadline: int)
    requires |g.rules| < |t.checks| && req.idemKey != "" && t.claim <= deadline
    requires TakenUntil(st.idem, req.idemKey, deadline)
    ensures var (st', p) := DecideKey(g, st, req, t);
            st' == st && Depth(p) == 3 && (HeldUntil(st.idem, req.idemKey, deadline) ==> p == DuplicateInFlight)
  {
  }

  /**
   A request that got past the claim leaves its key in flight, whether the velocity layer then let
   it through, rejected it or failed.
   */
  lemma KeyLeftInFlight<S>(g: Setup<S>, st: Stores<S>, req: Request, t: Times)
    requires |g.rules| < |t.checks|
    requires Depth(Decide(g, st, req, t).1) > 3 && req.idemKey != ""
    ensures var idem := Decide(g, st, req, t).0.idem;
            req.idemKey in idem && idem[req.idemKey] == Idem.Entry(true, [], t.claim + g.idemTtl)
            && HeldUntil(idem, req.idemKey, t.claim + g.idemTtl)
  {
    var st1 := PastIp(g, st, req, t);
    var st2 := st1.(rate := g.limiter(st1.rate, req.key, t.rate).0);
    KeyLayerUntouched(g, st2, req, t);
  }

  // ---------------------------------------------------------------------------------------
  // Exactly when Protect decides what
  // ---------------------------------------------------------------------------------------

  /** The IP limiter's verdict, if it is asked at all. */
  function IpVerdict<S>(g: Setup<S>, st: Stores<S>, req: Request, t: Times): Option<Verdict> {
    if g.ipLimiter.Some? && req.ipKey != "" then Some(g.ipLimiter.value(st.ip, req.ipKey, t.ip).1) else None
  }

  /** The IP limiter, if asked, and then the account limiter let the request through. */
  predicate WithinLimits<S>(g: Setup<S>, st: Stores<S>, req: Request, t: Times) {
    && (IpVerdict(g, st, req, t).Some? ==> IpVerdict(g, st, req, t).value.Allow?)
    && g.limiter(st.rate, req.key, t.rate).1.Allow?
  }

  /** The claim is granted, or there is no key to claim. */
  predicate ClaimOpen<S>(st: Stores<S>, req: Request, t: Times) {
    || req.idemKey == "" || req.idemKey !in st.idem || t.claim > st.idem[req.idemKey].expiresAt
    || (st.idem[req.idemKey].value == [] && !st.idem[req.idemKey].inFlight)
  }

  /** What the velocity engine says of the list kept for the account and action. */
  function VelocityOutcome<S>(g: Setup<S>, st: Stores<S>, req: Request, t: Times): Velocity.Outcome
    requires |g.rules| < |t.checks|
  {
    Velocity.CheckFrom(g.rules, 0, TimesOf(st.vel, VelKeyOf(req)), t.checks).1
  }

  /** Layers 1 and 2. */
  lemma LimitDecisionExactly<S>(g: Setup<S>, st: Stores<S>, req: Request, t: Times)
    requires |g.rules| < |t.checks| && req.key != ""
    ensures var ip, rate, p := IpVerdict(g, st, req, t), g.limiter(st.rate, req.key, t.rate).1, Decide(g, st, req, t).1;
            && (p == Rejected(IpLayer) <==> ip == Some(Deny)) && (p == Failed(IpLayer) <==> ip == Some(Fault))
            && (p == Rejected(RateLayer) <==> (ip.None? || ip.value.Allow?) && rate.Deny?)
            && (p == Failed(RateLayer) <==> (ip.None? || ip.value.Allow?) && rate.Fault?)
  {
    var st2 := PastIp(g, st, req, t).(rate := g.limiter(st.rate, req.key, t.rate).0);
    KeyLayerUntouched(g, st2, req, t);
  }

  /** Layers 3 and 4, for a request within its limits. */
  lemma KeyDecisionExactly<S>(g: Setup<S>, st: Stores<S>, req: Request, t: Times)
    requires |g.rules| < |t.checks| && req.key != ""
    ensures var live := req.idemKey != "" && req.idemKey in st.idem && t.claim <= st.idem[req.idemKey].expiresAt;
            var p, v := DecideKey(g, st, req, t).1, VelocityOutcome(g, st, req, t);
            && (forall body :: p == Cached(body) <==> live && body != [] && st.idem[req.idemKey].value == body)
            && (p == DuplicateInFlight <==> live && st.idem[req.idemKey].value == [] && st.idem[req.idemKey].inFlight)
            && (p == Allowed <==> ClaimOpen(st, req, t) && v == Velocity.Allowed)
            && (p == Rejected(VelocityLayer) <==> ClaimOpen(st, req, t) && v.Denied?)
            && (p == Failed(VelocityLayer) <==> ClaimOpen(st, req, t) && v != Velocity.Allowed && !v.Denied?)
  {
  }

  /**
   Exactly when Protect lets a request through: it has an account key, no limiter that is asked refuses or
   fails, its idempotency key is not taken, and every velocity rule passes. And exactly when it is answered
   from the cache, called a duplicate, or rejected by velocity.
   */
  lemma ProtectExactly<S>(g: Setup<S>, st: Stores<S>, req: Request, t: Times)
    requires |g.rules| < |t.checks|
    ensures var p := Decide(g, st, req, t).1;
            var within := req.key != "" && WithinLimits(g, st, req, t);
            var live := req.idemKey != "" && req.idemKey in st.idem && t.claim <= st.idem[req.idemKey].expiresAt;
            var open, v := ClaimOpen(st, req, t), VelocityOutcome(g, st, req, t);
            && (p == KeyMissing <==> req.key == "")
            && (forall body :: p == Cached(body) <==>
                  within && live && body != [] && st.idem[req.idemKey].value == body)
            && (p == DuplicateInFlight <==>
                  within && live && st.idem[req.idemKey].value == [] && st.idem[req.idemKey].inFlight)
            && (p == Allowed <==> within && open && v == Velocity.Allowed)
            && (p == Rejected(VelocityLayer) <==> within && open && v.Denied?)
            && (p == Failed(VelocityLayer) <==> within && open && v != Velocity.Allowed && !v.Denied?)
  {
    if req.key != "" {
      var st2 := PastIp(g, st, req, t).(rate := g.limiter(st.rate, req.key, t.rate).0);
      KeyDecisionExactly(g, st2, req, t);
      KeyLayerUntouched(g, st2, req, t);
      if WithinLimits(g, st, req, t) {
        assert Decide(g, st, req, t) == DecideKey(g, st2, req, t);
      } else {
        LimitDecisionExactly(g, st, req, t);
      }
    }
  }

  // ---------------------------------------------------------------------------------------
  // Accounts and actions are kept apart
  // ---------------------------------------------------------------------------------------

  /** With account names free of ':', a velocity key gives back the account and the action. */
  lemma VelocityKeyReadsBack(a: string, x: string, b: string, y: string)
    requires Text.Free(a, ':') && Text.Free(b, ':') && VelocityKey(a, x) == VelocityKey(b, y)
    ensures a == b && x == y
  {
    assert x != "" ==> VelocityKey(a, x)[|a|] == ':';
    assert y != "" ==> VelocityKey(b, y)[|b|] == ':';
    if x != "" && y != "" {
      assert VelocityKey(a, x) == a + [':'] + x && VelocityKey(b, y) == b + [':'] + y;
      Text.SplitAtSep(a, b, ':', x, y);
    }
  }

  /** Protect leaves the actions recorded for every other pair of account and action as they were. */
  lemma OtherPairsUntouched<S>(g: Setup<S>, st: Stores<S>, req: Request, t: Times, account: string, action: string)
    requires |g.rules| < |t.checks| && Text.Free(req.key, ':') && Text.Free(account, ':')
    requires account != req.key || action != req.action
    ensures var k := VelocityKey(account, action); TimesOf(Decide(g, st, req, t).0.vel, k) == TimesOf(st.vel, k)
  {
    LaterLayersUntouched(g, st, req, t);
    if VelocityKey(account, action) == VelKeyOf(req) {
      VelocityKeyReadsBack(account, action, req.key, req.action);
    }
  }

  /** The stores agree but for what was recorded for other pairs of account and action. */
  ghost predicate AgreeFor<S>(st: Stores<S>, st2: Stores<S>, account: string, action: string) {
    && st2.ip == st.ip && st2.rate == st.rate && st2.idem == st.idem
    && TimesOf(st2.vel, VelocityKey(account, action)) == TimesOf(st.vel, VelocityKey(account, action))
  }

  /** And what it decides, and leaves for its own pair, does not depend on them. */
  lemma OtherPairsIgnored<S>(g: Setup<S>, st: Stores<S>, st2: Stores<S>, req: Request, t: Times)
    requires |g.rules| < |t.checks| && AgreeFor(st, st2, req.key, req.action)
    ensures Decide(g, st2, req, t).1 == Decide(g, st, req, t).1
    ensures AgreeFor(Decide(g, st, req, t).0, Decide(g, st2, req, t).0, req.key, req.action)
  {
    if req.key != "" {
      var a := PastIp(g, st, req, t).(rate := g.limiter(st.rate, req.key, t.rate).0);
      var b := PastIp(g, st2, req, t).(rate := g.limiter(st2.rate, req.key, t.rate).0);
      KeyLayerIgnores(g, a, b, req, t);
    }
  }

  lemma KeyLayerIgnores<S>(g: Setup<S>, st: Stores<S>, st2: Stores<S>, req: Request, t: Times)
    requires |g.rules| < |t.checks| && AgreeFor(st, st2, req.key, req.action)
    ensures DecideKey(g, st2, req, t).1 == DecideKey(g, st, req, t).1
    ensures AgreeFor(DecideKey(g, st, req, t).0, DecideKey(g, st2, req, t).0, req.key, req.action)
  {
  }

  // ---------------------------------------------------------------------------------------
  // Any sequence of calls
  // ---------------------------------------------------------------------------------------

  /** A call on the Guard: a request to protect, or the completion of an idempotency key. */
  datatype Call =
    | Visit(req: Request, t: Times)
    | Completion(key: string, response: Bytes, at: int)

  function AfterCall<S>(g: Setup<S>, st: Stores<S>, c: Call): Stores<S>
    requires c.Visit? ==> |g.rules| < |c.t.checks|
  {
    match c
    case Visit(req, t) => Decide(g, st, req, t).0
    case Completion(key, response, at) => st.(idem := Idem.MemoryComplete(st.idem, key, response, at, g.idemTtl))
  }

  predicate CanCall<S>(g: Setup<S>, calls: seq<Call>) {
    forall i :: 0 <= i < |calls| && calls[i].Visit? ==> |g.rules| < |calls[i].t.checks|
  }

  function AfterCalls<S>(g: Setup<S>, st: Stores<S>, calls: seq<Call>): (r: Stores<S>)
    requires CanCall(g, calls)
    decreases |calls|
  {
    if calls == [] then st else AfterCalls(g, AfterCall(g, st, calls[0]), calls[1..])
  }

  /** Claims and completions of the key fall between its claim and the deadline, and responses are not empty. */
  predicate Within(calls: seq<Call>, key: string, claimed: int, deadline: int) {
    forall i :: 0 <= i < |calls| ==>
      match calls[i]
      case Visit(req, t) => req.idemKey == key ==> t.claim <= deadline
      case Completion(k, response, at) => k == key ==> claimed <= at && response != []
  }

  predicate NeverCompleted(calls: seq<Call>, key: string) {
    forall i :: 0 <= i < |calls| && calls[i].Completion? ==> calls[i].key != key
  }

  lemma CallKeepsTaken<S>(g: Setup<S>, st: Stores<S>, c: Call, key: string, claimed: int)
    requires c.Visit? ==> |g.rules| < |c.t.checks|
    requires key != "" && TakenUntil(st.idem, key, claimed + g.idemTtl)
    requires Within([c], key, claimed, claimed + g.idemTtl)
    ensures var st' := AfterCall(g, st, c);
            && TakenUntil(st'.idem, key, claimed + g.idemTtl)
            && (NeverCompleted([c], key) ==> key in st.idem && key in st'.idem && st'.idem[key] == st.idem[key])
  {
    assert [c][0] == c;
    if c.Visit? {
      LaterLayersUntouched(g, st, c.req, c.t);
      if c.req.idemKey == key {
        TakenKeyStops(g, st, c.req, c.t, claimed + g.idemTtl);
      }
    }
  }

  lemma {:induction false} CallsKeepTaken<S>(g: Setup<S>, st: Stores<S>, calls: seq<Call>, key: string, claimed: int)
    requires CanCall(g, calls) && key != "" && TakenUntil(st.idem, key, claimed + g.idemTtl)
    requires Within(calls, key, claimed, claimed + g.idemTtl)
    ensures var st' := AfterCalls(g, st, calls);
            && TakenUntil(st'.idem, key, claimed + g.idemTtl)
            && (NeverCompleted(calls, key) ==> key in st'.idem && key in st.idem && st'.idem[key] == st.idem[key])
    decreases |calls|
  {
    if calls != [] {
      assert Within([calls[0]], key, claimed, claimed + g.idemTtl);
      CallKeepsTaken(g, st, calls[0], key, claimed);
      CallsKeepTaken(g, AfterCall(g, st, calls[0]), calls[1..], key, claimed);
    }
  }

  /**
   Once a request got past its claim, no other request with that key does so within the lifetime:
   after any sequence of calls, by any accounts, addresses and actions and with any other keys, a retry
   that reaches the claim gets the cached response or is a duplicate, and without a completion of the key
   it is a duplicate; either way it changes neither the claim nor the velocity store.
   */
  lemma RetryIsDuplicate<S>(g: Setup<S>, st: Stores<S>, req: Request, t: Times, calls: seq<Call>, retry: Request,
                            t2: Times)
    requires |g.rules| < |t.checks| && |g.rules| < |t2.checks| && CanCall(g, calls)
    requires Depth(Decide(g, st, req, t).1) > 3 && req.idemKey != ""
    requires Within(calls, req.idemKey, t.claim, t.claim + g.idemTtl)
    requires retry.idemKey == req.idemKey && t2.claim <= t.claim + g.idemTtl
    ensures var st2 := AfterCalls(g, Decide(g, st, req, t).0, calls);
            var (st', p) := Decide(g, st2, retry, t2);
            && Depth(p) <= 3 && st'.idem == st2.idem && st'.vel == st2.vel
            && (Depth(p) == 3 && NeverCompleted(calls, req.idemKey) ==> p == DuplicateInFlight)
  {
    var st1, deadline := Decide(g, st, req, t).0, t.claim + g.idemTtl;
    KeyLeftInFlight(g, st, req, t);
    CallsKeepTaken(g, st1, calls, req.idemKey, t.claim);
    TakenKeyStops(g, AfterCalls(g, st1, calls), retry, t2, deadline);
  }

  // ---------------------------------------------------------------------------------------
  // The Guard itself
  // ---------------------------------------------------------------------------------------

  /** The Guard over the in-process stores; a limiter's state is kept here. */
  class Guard<S> {
    const ipLimiter: Option<Limiter<S>>
    const limiter: Limiter<S>
    const idem: Idem.Manager
    const velocity: Velocity.Engine
    var ip: S
    var rate: S

    constructor (ipLimiter: Option<Limiter<S>>, limiter: Limiter<S>, ip: S, rate: S,
                 idem: Idem.Manager, velocity: Velocity.Engine)
      ensures this.ipLimiter == ipLimiter && this.limiter == limiter && this.ip == ip && this.rate == rate
      ensures this.idem == idem && this.velocity == velocity
    {
      this.ipLimiter, this.limiter, this.ip, this.rate := ipLimiter, limiter, ip, rate;
      this.idem, this.velocity := idem, velocity;
    }

    /** The Guard is set up as g, and its four stores hold st. */
    ghost predicate Holds(g: Setup<S>, st: Stores<S>)
      reads this, idem.store, velocity, velocity.store, velocity.store.Buffers()
    {
      && g.ipLimiter == ipLimiter && g.limiter == limiter && g.idemTtl == idem.ttl && g.rules == velocity.rules
      && velocity.store.Valid() && ip == st.ip && rate == st.rate && idem.store.entries == st.idem
      && forall k: string :: velocity.store.Times(k) == TimesOf(st.vel, k)
    }

    method Protect(req: Request, t: Times, ghost g: Setup<S>, ghost st: Stores<S>) returns (r: Protection)
      requires Holds(g, st) && |velocity.rules| < |t.checks|
      modifies this, idem.store, velocity.store, velocity.store.Buffers()
      ensures velocity.rules == old(velocity.rules)
      ensures var (after, decision) := Decide(g, st, req, t); r == decision && Holds(g, after)
    {
      if |req.key| == 0 {
        return KeyMissing;
      }
      if ipLimiter.Some? && |req.ipKey| > 0 {
        var (ip', v) := ipLimiter.value(ip, req.ipKey, t.ip);
        ip := ip';
        if v.Fault? {
          return Failed(IpLayer);
        }
        if v.Deny? {
          return Rejected(IpLayer);
        }
      }
      var (rate', v) := limiter(rate, req.key, t.rate);
      rate := rate';
      if v.Fault? {
        return Failed(RateLayer);
      }
      if v.Deny? {
        return Rejected(RateLayer);
      }
      r := CheckKey(req, t, g, st.(ip := ip, rate := rate));
    }

    /** Layers 3 and 4 of Protect. */
    method CheckKey(req: Request, t: Times, ghost g: Setup<S>, ghost st: Stores<S>) returns (r: Protection)
      requires Holds(g, st) && |velocity.rules| < |t.checks|
      modifies idem.store, velocity.store, velocity.store.Buffers()
      ensures velocity.rules == old(velocity.rules)
      ensures var (after, decision) := DecideKey(g, st, req, t); r == decision && Holds(g, after)
    {
      ghost var claimed := st;
      if |req.idemKey| > 0 {
        var begun := idem.Begin(req.idemKey, t.claim);
        claimed := st.(idem := idem.store.entries);
        match begun
        case Failure(e) => return if e.InFlight? then DuplicateInFlight else Failed(KeyLayer);
        case Success(b) =>
          if |b.cached| > 0 {
            return Cached(b.cached);
          }
          if !b.process {
            return DuplicateInFlight;
          }
      }
      r := CheckVelocity(req, t, g, claimed);
    }

    /** Layer 4 of Protect. */
    method CheckVelocity(req: Request, t: Times, ghost g: Setup<S>, ghost st: Stores<S>) returns (r: Protection)
      requires Holds(g, st) && |velocity.rules| < |t.checks|
      modifies velocity.store, velocity.store.Buffers()
      ensures velocity.rules == old(velocity.rules)
      ensures var (after, decision) := DecideVelocity(g, st, req, t); r == decision && Holds(g, after)
    {
      var outcome := velocity.Check(VelocityKey(req.key, req.action), t.checks);
      match outcome
      case Allowed => return Allowed;
      case Denied(_) => return Rejected(VelocityLayer);
      case _ => return Failed(VelocityLayer);
    }
  }
}
