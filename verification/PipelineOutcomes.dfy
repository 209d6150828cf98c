/**
 What each layer of the middleware answers, exactly: in every reachable state, and from the history of
 grants, stores and leases rather than from the stores' own code.
 */
module PipelineOutcomes {
  import opened Common
  import opened Pipeline
  import opened PipelineInvariant
  import opened PipelineKeys
  import opened PipelineSafety
  import opened PipelineTheorems
  import Idem = Idempotency
  import Lock
  import Velocity
  import VR = VelocityRuns
  import Wallet

  // ---------------------------------------------------------------------------------------
  // Refusals and what the configuration says about them
  // ---------------------------------------------------------------------------------------

  /**
   A bad request is exactly one without a required key; no request is refused by an IP limit, a velocity
   rule or a lock that the configuration does not ask for.
   */
  lemma RefusalsAsConfigured(cfg: Config, s0: State, steps: seq<Step>, r: nat)
    requires Booted(s0) && Legal(cfg, s0, steps) && r in Final(cfg, s0, steps).reqs
    ensures var p := Final(cfg, s0, steps).reqs[r];
            && (p.stage == Done(BadRequest) <==> cfg.requireKey && p.info.idemKey == "")
            && (p.stage == Done(IpLimited) ==> cfg.ipLimiter && p.info.ip != "")
            && (p.stage == Done(VelocityRejected) ==> cfg.blockOnVelocity)
            && (p.stage == Done(Locked) ==> cfg.requireLock && p.info.lockKey != "")
  {
    Reached(cfg, s0, steps);
    assert Shape(cfg, Final(cfg, s0, steps).reqs[r]);
  }

  /**
   The limits, in every state: an IP limiter is asked exactly if there is one and the request has an address;
   its verdict, and then the account limiter's, decides.
   */
  lemma LimitsAnsweredExactly(cfg: Config, s: State, r: nat, v: Verdict)
    ensures Enabled(cfg, s, IpLimit(r, v)) ==>
              var stage, asked := Apply(cfg, s, IpLimit(r, v)).reqs[r].stage, cfg.ipLimiter && s.reqs[r].info.ip != "";
              && (stage == Done(IpLimited) <==> asked && v == Deny)
              && (stage == Done(StoreError) <==> asked && v == Fault)
              && (stage == IpPassed <==> !asked || v == Allow)
    ensures Enabled(cfg, s, RateLimit(r, v)) ==>
              var stage := Apply(cfg, s, RateLimit(r, v)).reqs[r].stage;
              && (stage == Done(RateLimited) <==> v == Deny) && (stage == Done(StoreError) <==> v == Fault)
              && (stage == RatePassed <==> v == Allow)
  {
  }

  /** A velocity check begins unless there is neither account nor action to keep a list for. */
  lemma CheckBeginsExactly(cfg: Config, s: State, r: nat)
    requires Enabled(cfg, s, VelocityBegin(r))
    ensures var stage := Apply(cfg, s, VelocityBegin(r)).reqs[r].stage;
            && (stage == Done(StoreError) <==> s.reqs[r].info.account == "" && cfg.action == "")
            && (stage == Checking <==> s.reqs[r].info.account != "" || cfg.action != "")
  {
  }

  /** A MinInterval rule that has read the last action decides by the clock it reads later. */
  lemma LateVerdictExactly(cfg: Config, s: State, r: nat)
    requires Enabled(cfg, s, VelocityDecide(r))
    ensures var phase := KeyOf(s, VelKey(cfg, s, r)).checks[r];
            var min, stage := cfg.rules[phase.next].min, Apply(cfg, s, VelocityDecide(r)).reqs[r].stage;
            if min <= 0 then stage == Done(StoreError)
            else if phase.last.None? || s.now - phase.last.value >= min then stage == Checking
            else if cfg.blockOnVelocity then stage == Done(VelocityRejected) else stage == Cleared
  {
  }

  /**
   Where a velocity verdict takes a request: a flag stops it only if velocity blocks, and a malformed rule
   always does.
   */
  lemma VerdictExactly(cfg: Config, s: State, r: nat)
    requires Enabled(cfg, s, VelocityEval(r))
    ensures var k := KeyOf(s, VelKey(cfg, s, r));
            var stage := Apply(cfg, s, VelocityEval(r)).reqs[r].stage;
            match cfg.rules[k.checks[r].next]
            case RateOverWindow(n, window) =>
              var count := |Velocity.After(k.list, s.now - window)|;
              if n <= 0 || window <= 0 then stage == Done(StoreError)
              else if count < n then stage == Checking
              else if cfg.blockOnVelocity then stage == Done(VelocityRejected) else stage == Cleared
            case MinInterval(min) =>
              if min <= 0 then stage == Done(StoreError)
              else if k.list == [] || s.now - k.list[|k.list| - 1] >= min then stage == Checking
              else if cfg.blockOnVelocity then stage == Done(VelocityRejected) else stage == Cleared
  {
  }

  // ---------------------------------------------------------------------------------------
  // The lock
  // ---------------------------------------------------------------------------------------

  /** Request q is in the section of r's lock key, and within its lease. */
  ghost predicate Blocks(cfg: Config, s: State, q: nat, r: nat)
    requires r in s.reqs
  {
    && q in s.reqs && q != r && InSection(s.reqs[q].stage) && s.reqs[q].info.lockKey == s.reqs[r].info.lockKey
    && s.reqs[q].tenure.Some? && s.now < s.reqs[q].tenure.value.since + cfg.lockTtl
  }

  lemma HeldExactly(cfg: Config, s: State, r: nat)
    requires LockLink(cfg, s.reqs, s.locks, s.now) && r in s.reqs && !InSection(s.reqs[r].stage)
    ensures Lock.Held(s.locks.leases, s.reqs[r].info.lockKey, s.now) <==> exists q :: Blocks(cfg, s, q, r)
  {
    var key := s.reqs[r].info.lockKey;
    if Lock.Held(s.locks.leases, key, s.now) {
      assert LeaseOk(cfg, s.reqs, s.locks, key);
      assert Blocks(cfg, s, s.locks.owner[s.locks.leases[key].token], r);
    }
    if q: nat :| Blocks(cfg, s, q, r) {
      assert TenureOk(cfg, s.locks, s.now, q, s.reqs[q]);
    }
  }

  /**
   Exactly when the lock refuses a request: in every reachable state, if and only if another request is
   inside the section of that lock key and within its lease. Otherwise the request enters its handler.
   */
  lemma LockAnsweredExactly(cfg: Config, s0: State, steps: seq<Step>, r: nat, token: string)
    requires Booted(s0) && Legal(cfg, s0, steps) && Enabled(cfg, Final(cfg, s0, steps), TryLock(r, token))
    ensures var s := Final(cfg, s0, steps);
            var p := Apply(cfg, s, TryLock(r, token)).reqs[r];
            var blocked := exists q :: Blocks(cfg, s, q, r);
            && (p.stage == Done(Locked) <==> cfg.requireLock && p.info.lockKey != "" && blocked)
            && (p.stage == Done(StoreError) <==> cfg.requireLock && p.info.lockKey == "")
            && (p.stage == Running <==> !cfg.requireLock || (p.info.lockKey != "" && !blocked))
            && (p.stage == Running && cfg.requireLock ==> p.tenure == Some(Tenure(token, s.now)))
  {
    Reached(cfg, s0, steps);
    HeldExactly(cfg, Final(cfg, s0, steps), r);
  }

  // ---------------------------------------------------------------------------------------
  // What is stored
  // ---------------------------------------------------------------------------------------

  /**
   Exactly which responses are stored: in every run, once its handler is over and dealt with, a request
   has a stored response if and only if the handler did not panic, there is an idempotency key, the
   status is 2xx and something was written; and then it is all that was written.
   */
  lemma StoredExactly(cfg: Config, s0: State, steps: seq<Step>, r: nat)
    requires Booted(s0) && Legal(cfg, s0, steps)
    requires r in Final(cfg, s0, steps).reqs && Settled(Final(cfg, s0, steps).reqs[r].stage)
    ensures var s := Final(cfg, s0, steps);
            var p := s.reqs[r];
            && (p.stored.Some? <==>
                  !p.work.panicked && p.info.idemKey != "" && 200 <= p.work.status < 300 && Body(p.work.chunks) != [])
            && (p.stored.Some? ==>
                  && p.stored.value < |s.keys.stores| && s.keys.stores[p.stored.value].req == r
                  && s.keys.stores[p.stored.value].key == p.info.idemKey
                  && s.keys.stores[p.stored.value].body == Body(p.work.chunks))
  {
    Reached(cfg, s0, steps);
    var s := Final(cfg, s0, steps);
    assert Shape(cfg, s.reqs[r]) && KeyOk(s.keys, r, s.reqs[r]);
    if s.reqs[r].stored.Some? {
      assert StoreOk(s.keys, cfg.idemTtl, s.reqs[r].stored.value);
    }
  }
}
