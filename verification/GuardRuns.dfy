/**
 The middleware's layers 1 to 4 (middleware/http.go) against Guard.Protect (floodguard.go): both
 decide alike and leave every store alike.

 The interleaved machine is run here together with the limiters that give its verdicts, on one
 request that nothing disturbs.
 */
module GuardRuns {
  import opened Common
  import Velocity
  import VR = VelocityRuns
  import opened Pipeline
  import opened Guard

  // ---------------------------------------------------------------------------------------
  // The machine together with its limiters
  // ---------------------------------------------------------------------------------------

  datatype System<S> = System(machine: State, ip: S, rate: S)

  predicate ConfiguredAs<S>(cfg: Config, g: Setup<S>) {
    cfg.ipLimiter == g.ipLimiter.Some? && cfg.idemTtl == g.idemTtl && cfg.rules == g.rules
  }

  /** One step of the machine, the limiters giving the verdicts. */
  function Advance<S>(cfg: Config, g: Setup<S>, y: System<S>, step: Step): System<S>
    requires Enabled(cfg, y.machine, step)
  {
    match step
    case IpLimit(r, _) =>
      var ipKey := y.machine.reqs[r].info.ip;
      if g.ipLimiter.None? || ipKey == "" then y.(machine := Apply(cfg, y.machine, step)) else
      var (ip, v) := g.ipLimiter.value(y.ip, ipKey, y.machine.now);
      System(Apply(cfg, y.machine, IpLimit(r, v)), ip, y.rate)
    case RateLimit(r, _) =>
      var (rate, v) := g.limiter(y.rate, y.machine.reqs[r].info.account, y.machine.now);
      System(Apply(cfg, y.machine, RateLimit(r, v)), y.ip, rate)
    case _ => y.(machine := Apply(cfg, y.machine, step))
  }

  predicate Possible<S>(cfg: Config, g: Setup<S>, y: System<S>, steps: seq<Step>)
    decreases |steps|
  {
    steps == [] || (Enabled(cfg, y.machine, steps[0]) && Possible(cfg, g, Advance(cfg, g, y, steps[0]), steps[1..]))
  }

  function After<S>(cfg: Config, g: Setup<S>, y: System<S>, steps: seq<Step>): System<S>
    requires Possible(cfg, g, y, steps)
    decreases |steps|
  {
    if steps == [] then y else After(cfg, g, Advance(cfg, g, y, steps[0]), steps[1..])
  }

  // ---------------------------------------------------------------------------------------
  // The steps of a request that nothing disturbs, at its own clock readings
  // ---------------------------------------------------------------------------------------

  function Go<S>(cfg: Config, g: Setup<S>, y: System<S>, step: Step): System<S> {
    if Enabled(cfg, y.machine, step) then Advance(cfg, g, y, step) else y
  }

  /** The clock runs on to the next reading. */
  function Until<S>(y: System<S>, at: int): Step {
    Tick(if y.machine.now <= at then at - y.machine.now else 0)
  }

  function RuleSteps<S>(cfg: Config, g: Setup<S>, y: System<S>, r: nat, i: nat, clock: seq<int>): (steps: seq<Step>)
    requires i <= |cfg.rules| < |clock|
    decreases |cfg.rules| - i
  {
    var wait := Until(y, clock[i]);
    if i == |cfg.rules| then [wait, VelocityStamp(r), VelocityAppend(r)] else
    var y' := Go(cfg, g, Go(cfg, g, y, wait), VelocityEval(r));
    [wait, VelocityEval(r)] + if At(y'.machine, r, Checking) then RuleSteps(cfg, g, y', r, i + 1, clock) else []
  }

  function VelocitySteps<S>(cfg: Config, g: Setup<S>, y: System<S>, r: nat, t: Times): (steps: seq<Step>)
    requires |cfg.rules| < |t.checks|
  {
    var y' := Go(cfg, g, y, VelocityBegin(r));
    [VelocityBegin(r)] + if At(y'.machine, r, Checking) then RuleSteps(cfg, g, y', r, 0, t.checks) else []
  }

  function KeySteps<S>(cfg: Config, g: Setup<S>, y: System<S>, r: nat, t: Times): (steps: seq<Step>)
    requires |cfg.rules| < |t.checks|
  {
    var wait := Until(y, t.claim);
    var y' := Go(cfg, g, Go(cfg, g, y, wait), Claim(r));
    [wait, Claim(r)] + if At(y'.machine, r, Claimed) then VelocitySteps(cfg, g, y', r, t) else []
  }

  function RateSteps<S>(cfg: Config, g: Setup<S>, y: System<S>, r: nat, t: Times): (steps: seq<Step>)
    requires |cfg.rules| < |t.checks|
  {
    var wait := Until(y, t.rate);
    var y' := Go(cfg, g, Go(cfg, g, y, wait), RateLimit(r, Allow));
    [wait, RateLimit(r, Allow)] + if At(y'.machine, r, RatePassed) then KeySteps(cfg, g, y', r, t) else []
  }

  function IpSteps<S>(cfg: Config, g: Setup<S>, y: System<S>, r: nat, t: Times): (steps: seq<Step>)
    requires |cfg.rules| < |t.checks|
  {
    var wait := Until(y, t.ip);
    var y' := Go(cfg, g, Go(cfg, g, y, wait), IpLimit(r, Allow));
    [wait, IpLimit(r, Allow)] + if At(y'.machine, r, IpPassed) then RateSteps(cfg, g, y', r, t) else []
  }

  /** From arrival to the decision of layer 4, each layer at its reading in t. */
  function LoneSteps<S>(cfg: Config, g: Setup<S>, y: System<S>, r: nat, info: Info, t: Times): (steps: seq<Step>)
    requires |cfg.rules| < |t.checks|
  {
    [Arrive(r, info)] + IpSteps(cfg, g, Go(cfg, g, y, Arrive(r, info)), r, t)
  }

  predicate BelongsTo(step: Step, r: nat) {
    step.Tick? || step.r == r
  }

  /** The system's stores are the given ones. */
  ghost predicate Holds<S>(y: System<S>, st: Stores<S>) {
    && y.ip == st.ip && y.rate == st.rate && y.machine.keys.entries == st.idem
    && forall k: string :: KeyOf(y.machine, k).list == TimesOf(st.vel, k)
  }

  /** Where the middleware leaves a request for which Protect answers so. */
  function StageFor(p: Protection): Stage
    requires p != KeyMissing
  {
    match p
    case Failed(_) => Done(StoreError)
    case DuplicateInFlight => Done(Conflict)
    case Rejected(layer) =>
      Done(match layer
           case IpLayer => IpLimited
           case RateLayer => RateLimited
           case KeyLayer => Conflict
           case VelocityLayer => VelocityRejected)
    case Cached(body) => Done(Replayed(body))
    case Allowed => Cleared
  }

  /** Locks, money and every other request are as before. */
  ghost predicate OthersKept(s: State, s': State, r: nat) {
    && s'.locks == s.locks && s'.money == s.money
    && forall q :: q != r ==> (q in s'.reqs <==> q in s.reqs) && (q in s.reqs ==> s'.reqs[q] == s.reqs[q])
  }

  /** Request r is where Protect would bring it, with the stores Protect leaves. */
  ghost predicate Reached<S>(y: System<S>, y': System<S>, r: nat, result: (Stores<S>, Protection)) {
    && result.1 != KeyMissing && At(y'.machine, r, StageFor(result.1)) && Holds(y', result.0)
    && OthersKept(y.machine, y'.machine, r)
  }

  /** These steps, all of request r or the clock's, take it there. */
  ghost predicate Serves<S>(cfg: Config, g: Setup<S>, y: System<S>, r: nat, steps: seq<Step>, result: (Stores<S>,
                            Protection)) {
    && Possible(cfg, g, y, steps) && (forall i :: 0 <= i < |steps| ==> BelongsTo(steps[i], r))
    && Reached(y, After(cfg, g, y, steps), r, result)
  }

  /**
   From every state of the stores, and for every request with a non-empty account key (and an
   idempotency key if one is required): with velocity blocking on, and each layer reading the clock as
   in t, the middleware takes the request through layers 1 to 4 to the decision of Protect and leaves
   all four stores as Protect does, whatever other requests stand where.
   */
  lemma MiddlewareIsProtect<S>(cfg: Config, g: Setup<S>, y: System<S>, st: Stores<S>, r: nat, lockKey: string,
                               req: Request, t: Times)
    requires ConfiguredAs(cfg, g) && cfg.blockOnVelocity && cfg.action == req.action && |g.rules| < |t.checks|
    requires r !in y.machine.reqs && req.key != "" && (cfg.requireKey ==> req.idemKey != "")
    requires Ordered(t) && y.machine.now <= t.ip && Holds(y, st)
    requires r !in KeyOf(y.machine, VelKeyOf(req)).checks
    ensures var steps := LoneSteps(cfg, g, y, r, Info(req.ipKey, req.key, lockKey, req.idemKey), t);
            Serves(cfg, g, y, r, steps, Decide(g, st, req, t))
  {
    var arrive := Arrive(r, Info(req.ipKey, req.key, lockKey, req.idemKey));
    var y1 := Advance(cfg, g, y, arrive);
    SameVelocity(y, y1);
    FromIp(cfg, g, y1, st, r, req, t);
    PrependOne(cfg, g, y, arrive, y1, r, IpSteps(cfg, g, y1, r, t), Decide(g, st, req, t));
  }

  /** One step of r, or of the clock, that disturbs nobody else. */
  ghost predicate Leads<S>(cfg: Config, g: Setup<S>, y: System<S>, step: Step, y': System<S>, r: nat) {
    && Enabled(cfg, y.machine, step) && BelongsTo(step, r)
    && y' == Advance(cfg, g, y, step) && OthersKept(y.machine, y'.machine, r)
  }

  lemma PrependOne<S>(cfg: Config, g: Setup<S>, y: System<S>, step: Step, y': System<S>, r: nat,
                      steps: seq<Step>, result: (Stores<S>, Protection))
    requires Leads(cfg, g, y, step, y', r) && Serves(cfg, g, y', r, steps, result)
    ensures Serves(cfg, g, y, r, [step] + steps, result)
  {
    var all := [step] + steps;
    assert all[1..] == steps;
  }

  lemma Prepend<S>(cfg: Config, g: Setup<S>, y: System<S>, a: Step, y1: System<S>, b: Step, y2: System<S>, r: nat,
                   steps: seq<Step>, result: (Stores<S>, Protection))
    requires Leads(cfg, g, y, a, y1, r) && Leads(cfg, g, y1, b, y2, r) && Serves(cfg, g, y2, r, steps, result)
    ensures Serves(cfg, g, y, r, [a, b] + steps, result)
  {
    PrependOne(cfg, g, y1, b, y2, r, steps, result);
    PrependOne(cfg, g, y, a, y1, r, [b] + steps, result);
    assert [a] + ([b] + steps) == [a, b] + steps;
  }

  ghost predicate Stopped<S>(y: System<S>, r: nat, result: (Stores<S>, Protection)) {
    result.1 != KeyMissing && At(y.machine, r, StageFor(result.1)) && Holds(y, result.0)
  }

  lemma Stop<S>(cfg: Config, g: Setup<S>, y: System<S>, r: nat, result: (Stores<S>, Protection))
    requires Stopped(y, r, result)
    ensures Serves(cfg, g, y, r, [], result)
  {
  }

  lemma SameVelocity<S>(y: System<S>, y': System<S>)
    requires y'.machine.vel == y.machine.vel
    ensures forall k: string :: KeyOf(y'.machine, k) == KeyOf(y.machine, k)
  {
  }

  /** The clock runs until a reading is taken. */
  lemma Wait<S>(cfg: Config, g: Setup<S>, y: System<S>, r: nat, at: int) returns (y': System<S>)
    requires y.machine.now <= at
    ensures Leads(cfg, g, y, Until(y, at), y', r) && y' == y.(machine := y.machine.(now := at))
    ensures forall k: string :: KeyOf(y'.machine, k) == KeyOf(y.machine, k)
  {
    y' := Advance(cfg, g, y, Until(y, at));
    SameVelocity(y, y');
  }

  /** Request r stands at this stage, its velocity key is not being checked, and the stores are the given ones. */
  ghost predicate Ready<S>(cfg: Config, g: Setup<S>, y: System<S>, st: Stores<S>, r: nat, req: Request, t: Times,
                           stage: Stage) {
    && ConfiguredAs(cfg, g) && cfg.blockOnVelocity && cfg.action == req.action && |g.rules| < |t.checks|
    && Ordered(t) && Holds(y, st) && At(y.machine, r, stage) && req.key != ""
    && y.machine.reqs[r].info.account == req.key && y.machine.reqs[r].info.idemKey == req.idemKey
    && r !in KeyOf(y.machine, VelKeyOf(req)).checks
  }

  /** Layer 1 stops the request as Protect does, or lets both go on. */
  lemma IpStep<S>(cfg: Config, g: Setup<S>, y: System<S>, st: Stores<S>, r: nat, req: Request, t: Times)
    returns (y': System<S>)
    requires Ready(cfg, g, y, st, r, req, t, Arrived) && y.machine.now == t.ip && y.machine.reqs[r].info.ip == req.ipKey
    ensures Leads(cfg, g, y, IpLimit(r, Allow), y', r) && y'.machine.now == t.ip
    ensures var result := Decide(g, st, req, t);
            if !At(y'.machine, r, IpPassed) then Stopped(y', r, result)
            else var st' := st.(ip := y'.ip);
                 Ready(cfg, g, y', st', r, req, t, IpPassed) && result == DecideRate(g, st', req, t)
  {
    y' := Advance(cfg, g, y, IpLimit(r, Allow));
    SameVelocity(y, y');
  }

  lemma FromIp<S>(cfg: Config, g: Setup<S>, y: System<S>, st: Stores<S>, r: nat, req: Request, t: Times)
    requires Ready(cfg, g, y, st, r, req, t, Arrived) && y.machine.now <= t.ip && y.machine.reqs[r].info.ip == req.ipKey
    ensures Serves(cfg, g, y, r, IpSteps(cfg, g, y, r, t), Decide(g, st, req, t))
  {
    var result := Decide(g, st, req, t);
    var y1 := Wait(cfg, g, y, r, t.ip);
    var y2 := IpStep(cfg, g, y1, st, r, req, t);
    if At(y2.machine, r, IpPassed) {
      FromRate(cfg, g, y2, st.(ip := y2.ip), r, req, t);
      Prepend(cfg, g, y, Until(y, t.ip), y1, IpLimit(r, Allow), y2, r, RateSteps(cfg, g, y2, r, t), result);
    } else {
      Stop(cfg, g, y2, r, result);
      Prepend(cfg, g, y, Until(y, t.ip), y1, IpLimit(r, Allow), y2, r, [], result);
    }
  }

  /** Layer 2. */
  lemma RateStep<S>(cfg: Config, g: Setup<S>, y: System<S>, st: Stores<S>, r: nat, req: Request, t: Times)
    returns (y': System<S>)
    requires Ready(cfg, g, y, st, r, req, t, IpPassed) && y.machine.now == t.rate
    ensures Leads(cfg, g, y, RateLimit(r, Allow), y', r) && y'.machine.now == t.rate
    ensures var result := DecideRate(g, st, req, t);
            if !At(y'.machine, r, RatePassed) then Stopped(y', r, result)
            else var st' := st.(rate := y'.rate);
                 Ready(cfg, g, y', st', r, req, t, RatePassed) && result == DecideKey(g, st', req, t)
  {
    y' := Advance(cfg, g, y, RateLimit(r, Allow));
    SameVelocity(y, y');
  }

  lemma FromRate<S>(cfg: Config, g: Setup<S>, y: System<S>, st: Stores<S>, r: nat, req: Request, t: Times)
    requires Ready(cfg, g, y, st, r, req, t, IpPassed) && y.machine.now <= t.rate
    ensures Serves(cfg, g, y, r, RateSteps(cfg, g, y, r, t), DecideRate(g, st, req, t))
  {
    var result := DecideRate(g, st, req, t);
    var y1 := Wait(cfg, g, y, r, t.rate);
    var y2 := RateStep(cfg, g, y1, st, r, req, t);
    if At(y2.machine, r, RatePassed) {
      FromKey(cfg, g, y2, st.(rate := y2.rate), r, req, t);
      Prepend(cfg, g, y, Until(y, t.rate), y1, RateLimit(r, Allow), y2, r, KeySteps(cfg, g, y2, r, t), result);
    } else {
      Stop(cfg, g, y2, r, result);
      Prepend(cfg, g, y, Until(y, t.rate), y1, RateLimit(r, Allow), y2, r, [], result);
    }
  }

  /** Layer 3. */
  lemma ClaimStep<S>(cfg: Config, g: Setup<S>, y: System<S>, st: Stores<S>, r: nat, req: Request, t: Times)
    returns (y': System<S>)
    requires Ready(cfg, g, y, st, r, req, t, RatePassed) && y.machine.now == t.claim
    ensures Leads(cfg, g, y, Claim(r), y', r) && y'.machine.now == t.claim
    ensures var result := DecideKey(g, st, req, t);
            if !At(y'.machine, r, Claimed) then Stopped(y', r, result)
            else var st' := st.(idem := y'.machine.keys.entries);
                 Ready(cfg, g, y', st', r, req, t, Claimed) && result == DecideVelocity(g, st', req, t)
  {
    y' := Advance(cfg, g, y, Claim(r));
    SameVelocity(y, y');
    ClaimDecides(cfg, g, y, st, r, req, t);
  }

  /** The machine's claim and Protect's answer to it. */
  lemma ClaimDecides<S>(cfg: Config, g: Setup<S>, y: System<S>, st: Stores<S>, r: nat, req: Request, t: Times)
    requires Ready(cfg, g, y, st, r, req, t, RatePassed) && y.machine.now == t.claim
    ensures var s', result := Claims(cfg, y.machine, r), DecideKey(g, st, req, t);
            var st' := st.(idem := s'.keys.entries);
            if At(s', r, Claimed) then result == DecideVelocity(g, st', req, t)
            else result.1 != KeyMissing && result.0 == st' && At(s', r, StageFor(result.1))
  {
  }

  lemma FromKey<S>(cfg: Config, g: Setup<S>, y: System<S>, st: Stores<S>, r: nat, req: Request, t: Times)
    requires Ready(cfg, g, y, st, r, req, t, RatePassed) && y.machine.now <= t.claim
    ensures Serves(cfg, g, y, r, KeySteps(cfg, g, y, r, t), DecideKey(g, st, req, t))
  {
    var result := DecideKey(g, st, req, t);
    var y1 := Wait(cfg, g, y, r, t.claim);
    var y2 := ClaimStep(cfg, g, y1, st, r, req, t);
    if At(y2.machine, r, Claimed) {
      FromVelocity(cfg, g, y2, st.(idem := y2.machine.keys.entries), r, req, t);
      Prepend(cfg, g, y, Until(y, t.claim), y1, Claim(r), y2, r, VelocitySteps(cfg, g, y2, r, t), result);
    } else {
      Stop(cfg, g, y2, r, result);
      Prepend(cfg, g, y, Until(y, t.claim), y1, Claim(r), y2, r, [], result);
    }
  }

  lemma FromVelocity<S>(cfg: Config, g: Setup<S>, y: System<S>, st: Stores<S>, r: nat, req: Request, t: Times)
    requires Ready(cfg, g, y, st, r, req, t, Claimed) && y.machine.now <= t.claim
    ensures Serves(cfg, g, y, r, VelocitySteps(cfg, g, y, r, t), DecideVelocity(g, st, req, t))
  {
    var y1 := BeginStep(cfg, g, y, st, r, req, t);
    FromRule(cfg, g, y1, st, r, VelKeyOf(req), VR.Evaluating(0), t.checks);
    var rest, result := RuleSteps(cfg, g, y1, r, 0, t.checks), DecideVelocity(g, st, req, t);
    PrependOne(cfg, g, y, VelocityBegin(r), y1, r, rest, result);
  }

  lemma BeginStep<S>(cfg: Config, g: Setup<S>, y: System<S>, st: Stores<S>, r: nat, req: Request, t: Times)
    returns (y': System<S>)
    requires Ready(cfg, g, y, st, r, req, t, Claimed)
    ensures Leads(cfg, g, y, VelocityBegin(r), y', r) && y'.machine.now == y.machine.now
    ensures InCheck(cfg, y', st, r, VelKeyOf(req), VR.Evaluating(0))
  {
    y' := Advance(cfg, g, y, VelocityBegin(r));
    assert forall q: string :: KeyOf(y'.machine, q).list == KeyOf(y.machine, q).list;
  }

  // ---------------------------------------------------------------------------------------
  // Layer 4, rule by rule
  // ---------------------------------------------------------------------------------------

  /** Request r's check of its velocity key is at this phase. */
  ghost predicate InCheck<S>(cfg: Config, y: System<S>, st: Stores<S>, r: nat, k: string, phase: VR.Phase) {
    && cfg.blockOnVelocity && At(y.machine, r, Checking) && k == VelKey(cfg, y.machine, r)
    && r in KeyOf(y.machine, k).checks && KeyOf(y.machine, k).checks[r] == phase && Holds(y, st)
  }

  lemma {:induction false} FromRule<S>(cfg: Config, g: Setup<S>, y: System<S>, st: Stores<S>, r: nat, k: string,
                                       phase: VR.Phase, clock: seq<int>)
    requires phase.Evaluating? && phase.next <= |cfg.rules| < |clock| && NonDecreasing(clock)
    requires InCheck(cfg, y, st, r, k, phase) && y.machine.now <= clock[phase.next]
    ensures Serves(cfg, g, y, r, RuleSteps(cfg, g, y, r, phase.next, clock),
                   AfterCheck(st, k, Velocity.CheckFrom(cfg.rules, phase.next, TimesOf(st.vel, k), clock)))
    decreases |cfg.rules| - phase.next
  {
    var i := phase.next;
    var result := AfterCheck(st, k, Velocity.CheckFrom(cfg.rules, i, TimesOf(st.vel, k), clock));
    var y1 := Wait(cfg, g, y, r, clock[i]);
    if i == |cfg.rules| {
      Record(cfg, g, y1, st, r, k, phase);
      PrependOne(cfg, g, y, Until(y, clock[i]), y1, r, [VelocityStamp(r), VelocityAppend(r)], result);
      assert RuleSteps(cfg, g, y, r, i, clock) == [Until(y, clock[i])] + [VelocityStamp(r), VelocityAppend(r)];
    } else {
      var y2, st2 := EvalStep(cfg, g, y1, st, r, k, phase, clock);
      if At(y2.machine, r, Checking) {
        FromRule(cfg, g, y2, st2, r, k, VR.Evaluating(i + 1), clock);
        var rest := RuleSteps(cfg, g, y2, r, i + 1, clock);
        Prepend(cfg, g, y, Until(y, clock[i]), y1, VelocityEval(r), y2, r, rest, result);
      } else {
        Stop(cfg, g, y2, r, result);
        Prepend(cfg, g, y, Until(y, clock[i]), y1, VelocityEval(r), y2, r, [], result);
      }
    }
  }

  /** A later check of the same key overwrites what trimming left. */
  lemma TrimmingForgotten<S>(st: Stores<S>, k: string, list: seq<int>, check: (seq<int>, Velocity.Outcome))
    ensures AfterCheck(st.(vel := st.vel[k := list]), k, check) == AfterCheck(st, k, check)
  {
    assert st.vel[k := list][k := check.0] == st.vel[k := check.0];
  }

  /** What one rule does to the machine. */
  lemma EvalMoves<S>(cfg: Config, g: Setup<S>, y: System<S>, st: Stores<S>, r: nat, k: string, phase: VR.Phase)
    returns (y': System<S>)
    requires phase.Evaluating? && phase.next < |cfg.rules| && InCheck(cfg, y, st, r, k, phase)
    ensures Leads(cfg, g, y, VelocityEval(r), y', r) && y'.machine.now == y.machine.now
    ensures var rule, list := cfg.rules[phase.next], TimesOf(st.vel, k);
            var v := Velocity.Judge(rule, list, y.machine.now);
            && Holds(y', st.(vel := st.vel[k := Velocity.ListAfter(rule, list, y.machine.now)]))
            && At(y'.machine, r, AfterVerdict(cfg, v)) && k == VelKey(cfg, y'.machine, r)
            && (v.Pass? ==>
                  var checks := KeyOf(y'.machine, k).checks; r in checks && checks[r] == VR.Evaluating(phase.next + 1))
  {
    y' := Advance(cfg, g, y, VelocityEval(r));
    assert forall q: string :: q != k ==> KeyOf(y'.machine, q) == KeyOf(y.machine, q);
  }

  /** One rule stops the request as Protect does, or lets both go on. */
  lemma EvalStep<S>(cfg: Config, g: Setup<S>, y: System<S>, st: Stores<S>, r: nat, k: string, phase: VR.Phase,
                    clock: seq<int>)
    returns (y': System<S>, st': Stores<S>)
    requires phase.Evaluating? && phase.next < |cfg.rules| < |clock|
    requires InCheck(cfg, y, st, r, k, phase) && y.machine.now == clock[phase.next]
    ensures Leads(cfg, g, y, VelocityEval(r), y', r) && y'.machine.now == y.machine.now
    ensures var i := phase.next;
            var result := AfterCheck(st, k, Velocity.CheckFrom(cfg.rules, i, TimesOf(st.vel, k), clock));
            if !At(y'.machine, r, Checking) then Stopped(y', r, result)
            else (InCheck(cfg, y', st', r, k, VR.Evaluating(i + 1)) &&
                result == AfterCheck(st', k, Velocity.CheckFrom(cfg.rules, i + 1, TimesOf(st'.vel, k), clock)))
  {
    y' := EvalMoves(cfg, g, y, st, r, k, phase);
    var rule, list := cfg.rules[phase.next], TimesOf(st.vel, k);
    var kept := Velocity.ListAfter(rule, list, y.machine.now);
    st' := st.(vel := st.vel[k := kept]);
    if Velocity.Judge(rule, list, y.machine.now).Pass? {
      TrimmingForgotten(st, k, kept, Velocity.CheckFrom(cfg.rules, phase.next + 1, kept, clock));
    }
  }

  /** All rules passed: the action is stamped and recorded. */
  lemma Record<S>(cfg: Config, g: Setup<S>, y: System<S>, st: Stores<S>, r: nat, k: string, phase: VR.Phase)
    requires InCheck(cfg, y, st, r, k, phase) && phase == VR.Evaluating(|cfg.rules|)
    ensures Serves(cfg, g, y, r, [VelocityStamp(r), VelocityAppend(r)],
                   AfterCheck(st, k, (TimesOf(st.vel, k) + [y.machine.now], Velocity.Allowed)))
  {
    var result := AfterCheck(st, k, (TimesOf(st.vel, k) + [y.machine.now], Velocity.Allowed));
    var y1 := StampStep(cfg, g, y, st, r, k);
    var y2 := AppendStep(cfg, g, y1, st, r, k, y.machine.now);
    Stop(cfg, g, y2, r, result);
    Prepend(cfg, g, y, VelocityStamp(r), y1, VelocityAppend(r), y2, r, [], result);
    assert [VelocityStamp(r), VelocityAppend(r)] + [] == [VelocityStamp(r), VelocityAppend(r)];
  }

  lemma StampStep<S>(cfg: Config, g: Setup<S>, y: System<S>, st: Stores<S>, r: nat, k: string) returns (y': System<S>)
    requires InCheck(cfg, y, st, r, k, VR.Evaluating(|cfg.rules|))
    ensures Leads(cfg, g, y, VelocityStamp(r), y', r) && InCheck(cfg, y', st, r, k, VR.Stamped(y.machine.now))
  {
    y' := Advance(cfg, g, y, VelocityStamp(r));
    assert forall q: string :: KeyOf(y'.machine, q).list == KeyOf(y.machine, q).list;
  }

  lemma AppendStep<S>(cfg: Config, g: Setup<S>, y: System<S>, st: Stores<S>, r: nat, k: string, at: int)
    returns (y': System<S>)
    requires InCheck(cfg, y, st, r, k, VR.Stamped(at))
    ensures Leads(cfg, g, y, VelocityAppend(r), y', r)
    ensures Stopped(y', r, AfterCheck(st, k, (TimesOf(st.vel, k) + [at], Velocity.Allowed)))
  {
    y' := Advance(cfg, g, y, VelocityAppend(r));
    assert forall q: string :: q != k ==> KeyOf(y'.machine, q) == KeyOf(y.machine, q);
  }
}
