/**
 The invariant of the middleware's machine: what the place of a request says about what it has done,
 and how requests, grants, stored responses, withdrawals and leases hang together.
 */
module PipelineInvariant {
  import opened Common
  import opened Pipeline
  import opened PipelineKeys
  import Ledger
  import Lock
  import Wallet

  type Procs = map<nat, Proc>

  predicate BeforeClaim(stage: Stage) {
    stage.Arrived? || stage.IpPassed? || stage.RatePassed?
  }

  /** The request has been let into the handler. */
  predicate Started(stage: Stage) {
    stage.Running? || stage.Returned? || stage.Releasing? || stage == Done(Served)
  }

  /** The handler is over and its response has been dealt with. */
  predicate Settled(stage: Stage) {
    stage.Releasing? || stage == Done(Served)
  }

  predicate PastClaim(stage: Stage) {
    stage.Claimed? || stage.Checking? || stage.Cleared? || Started(stage)
  }

  /** Between taking the lock and releasing it. */
  predicate InSection(stage: Stage) {
    stage.Running? || stage.Returned? || stage.Releasing?
  }

  predicate Shape(cfg: Config, p: Proc) {
    && (BeforeClaim(p.stage) ==> p.grant.None?)
    && (PastClaim(p.stage) && p.info.idemKey != "" ==> p.grant.Some?)
    && (!Started(p.stage) ==> p.work == NO_WORK && p.tenure.None?)
    && (!Settled(p.stage) ==> p.stored.None? && !p.work.panicked)
    && (p.stored.Some? <==> Settled(p.stage) && !p.work.panicked && Cacheable(p))
    && (p.stage == Done(BadRequest) <==> cfg.requireKey && p.info.idemKey == "")
    && (p.stage == Done(IpLimited) ==> cfg.ipLimiter && p.info.ip != "")
    && (p.stage == Done(VelocityRejected) ==> cfg.blockOnVelocity)
    && (p.stage == Done(Locked) ==> cfg.requireLock && p.info.lockKey != "")
    && (p.replay.Some? <==> p.stage.Done? && p.stage.outcome.Replayed?)
    && (p.replay.Some? ==> p.stage == Done(Replayed(p.replay.value.body)))
    && (cfg.requireLock && Started(p.stage) ==> p.tenure.Some?)
    && (!cfg.requireLock ==> p.tenure.None? && !p.stage.Releasing?)
    && (!p.work.called ==> p.work.debit.None?)
  }

  ghost predicate Shapes(cfg: Config, reqs: Procs) {
    forall r {:trigger Shape(cfg, reqs[r])} :: r in reqs ==> Shape(cfg, reqs[r])
  }

  /** The request's grant and stored response are the ones the history records for it. */
  predicate KeyOk(k: Keys, r: nat, p: Proc) {
    && (p.grant.Some? ==>
          && p.grant.value < |k.grants| && k.grants[p.grant.value].req == r
          && k.grants[p.grant.value].key == p.info.idemKey)
    && (p.stored.Some? ==>
          && p.stored.value < |k.stores| && p.grant.Some?
          && var st := k.stores[p.stored.value];
             st.req == r && st.grant == p.grant.value && st.body == Body(p.work.chunks) && 200 <= p.work.status < 300)
  }

  ghost predicate KeyLink(reqs: Procs, k: Keys) {
    && (forall r {:trigger KeyOk(k, r, reqs[r])} :: r in reqs ==> KeyOk(k, r, reqs[r]))
    && (forall i :: 0 <= i < |k.grants| ==> k.grants[i].req in reqs && reqs[k.grants[i].req].grant == Some(i))
    && (forall n :: 0 <= n < |k.stores| ==> k.stores[n].req in reqs && reqs[k.stores[n].req].stored == Some(n))
  }

  ghost predicate ReplayLink(reqs: Procs, k: Keys) {
    forall r {:trigger ReplayOk(k, reqs[r].info.idemKey, reqs[r].replay.value)} ::
      r in reqs && reqs[r].replay.Some? ==> ReplayOk(k, reqs[r].info.idemKey, reqs[r].replay.value)
  }

  predicate DebitOk(m: Money, r: nat, p: Proc) {
    p.work.debit.Some? ==>
      var d := p.work.debit.value;
      && d < |m.debits| && m.debits[d].req == r && m.debits[d].key == p.info.idemKey
      && m.debits[d].account == p.info.account
  }

  ghost predicate DebitLink(reqs: Procs, m: Money) {
    && (forall r {:trigger DebitOk(m, r, reqs[r])} :: r in reqs ==> DebitOk(m, r, reqs[r]))
    && (forall d :: 0 <= d < |m.debits| ==> m.debits[d].req in reqs && reqs[m.debits[d].req].work.debit == Some(d))
  }

  /** The withdrawals that went through are exactly the ledger's records, amount by amount. */
  ghost predicate DebitsRecorded(m: Money) {
    var recs := Ledger.ListOf(m.bank.book, Wallet.LEDGER_ACCOUNT);
    |recs| == |m.debits| && forall d :: 0 <= d < |recs| ==> RecordsDebit(recs[d], m.debits[d])
  }

  /** What the ledger says of a withdrawal. */
  predicate RecordsDebit(r: Ledger.Record, d: Debit) {
    && r.amount == -d.amount && r.account == "acct" && r.txType == "withdrawal" && r.actor == d.account
    && r.source == "api"
  }

  /**
   A wallet's mutex is held by a running request of that account whose withdrawal the balance still
   covers, and which has read a list that can only have grown.
   */
  predicate MutexOk(reqs: Procs, m: Money, who: string)
    requires who in m.mutex
  {
    var w := m.mutex[who];
    && w.req in reqs && reqs[w.req].stage == Running && reqs[w.req].info.account == who
    && reqs[w.req].work.called && reqs[w.req].work.debit.None?
    && 0 < w.amount <= Wallet.BalanceOf(m.bank, who).total
    && w.seen <= Ledger.ListOf(m.bank.book, Wallet.LEDGER_ACCOUNT)
  }

  ghost predicate MutexLink(reqs: Procs, m: Money) {
    forall who {:trigger MutexOk(reqs, m, who)} :: who in m.mutex ==> MutexOk(reqs, m, who)
  }

  /** A request's token is its own; and while its lease runs, the lock store holds exactly that lease. */
  predicate TenureOk(cfg: Config, l: Locks, now: int, r: nat, p: Proc) {
    p.tenure.Some? ==>
      var t := p.tenure.value;
      && t.token in l.owner && l.owner[t.token] == r && t.since <= now
      && (InSection(p.stage) && now < t.since + cfg.lockTtl ==>
            p.info.lockKey in l.leases && l.leases[p.info.lockKey] == Lock.Lease(t.token, t.since + cfg.lockTtl))
  }

  /** Every lease in the store is that of a request still in its critical section. */
  predicate LeaseOk(cfg: Config, reqs: Procs, l: Locks, key: string)
    requires key in l.leases
  {
    var e := l.leases[key];
    && e.token in l.owner && l.owner[e.token] in reqs
    && var p := reqs[l.owner[e.token]];
       && p.tenure.Some? && p.tenure.value.token == e.token && p.info.lockKey == key && InSection(p.stage)
       && e.expiresAt == p.tenure.value.since + cfg.lockTtl
  }

  ghost predicate LockLink(cfg: Config, reqs: Procs, l: Locks, now: int) {
    && (forall r {:trigger TenureOk(cfg, l, now, r, reqs[r])} :: r in reqs ==> TenureOk(cfg, l, now, r, reqs[r]))
    && (forall key {:trigger LeaseOk(cfg, reqs, l, key)} :: key in l.leases ==> LeaseOk(cfg, reqs, l, key))
  }

  ghost predicate Inv(cfg: Config, s: State) {
    && Shapes(cfg, s.reqs)
    && KeysInv(s.keys, s.start, s.now, cfg.idemTtl)
    && KeyLink(s.reqs, s.keys)
    && ReplayLink(s.reqs, s.keys)
    && DebitLink(s.reqs, s.money)
    && DebitsRecorded(s.money)
    && LockLink(cfg, s.reqs, s.locks, s.now)
    && MutexLink(s.reqs, s.money)
    && Wallet.Balanced(s.money.bank)
  }

  /** Steps that only move one request along, or extend its response. */
  predicate IsPlain(step: Step) {
    || step.IpLimit? || step.RateLimit? || step.VelocityBegin? || step.VelocityEval? || step.VelocityLook?
    || step.VelocityDecide? || step.VelocityStamp? || step.VelocityAppend? || step.WriteHeader? || step.Write?
    || step.Return?
  }

  /** Only request r has moved, and only its stage, status and chunks. */
  ghost predicate Plain(cfg: Config, s: State, s': State, r: nat) {
    && r in s.reqs && r in s'.reqs && s'.reqs == s.reqs[r := s'.reqs[r]]
    && s'.start == s.start && s'.now == s.now && s'.keys == s.keys && s'.locks == s.locks && s'.money == s.money
    && var p, p' := s.reqs[r], s'.reqs[r];
       && Shape(cfg, p')
       && p'.info == p.info && p'.grant == p.grant && p'.stored == p.stored && p'.tenure == p.tenure
       && p'.replay == p.replay && p'.work.debit == p.work.debit && p'.work.called == p.work.called
       && (p.stage == Running ==> p'.stage == Running || !Posting(s, r))
       && (p.stored.Some? ==> p'.work == p.work)
       && (p.tenure.Some? ==> InSection(p'.stage) == InSection(p.stage))
  }

  /** The lock step takes a lease that was free; otherwise it only moves the request on. */
  predicate TakesFreeLease(cfg: Config, s: State, r: nat)
    requires r in s.reqs
  {
    cfg.requireLock && s.reqs[r].info.lockKey != "" && !Lock.Held(s.locks.leases, s.reqs[r].info.lockKey, s.now)
  }
}
