/**
 Safety of the middleware over whole runs: at-most-once execution, faithful replay, an exclusive
 critical section, and balanced money, in every interleaving.
 */
module PipelineSafety {
  import opened Common
  import opened Pipeline
  import opened PipelineInvariant
  import opened PipelineKeys
  import Lock
  import Text
  import Wallet

  // ---------------------------------------------------------------------------------------
  // Requests and the idempotency history
  // ---------------------------------------------------------------------------------------

  lemma KeyLinkFrame(reqs: Procs, r: nat, p: Proc, k: Keys, k': Keys)
    requires KeyLink(reqs, k) && k'.grants == k.grants && k'.stores == k.stores
    requires r in reqs ==> p.grant == reqs[r].grant && p.stored == reqs[r].stored && p.info == reqs[r].info
    requires r in reqs && p.stored.Some? ==> p.work == reqs[r].work
    requires r !in reqs ==> p.grant.None? && p.stored.None?
    ensures KeyLink(reqs[r := p], k')
  {
    var reqs' := reqs[r := p];
    forall q | q in reqs'
      ensures KeyOk(k', q, reqs'[q])
    {
      if q in reqs {
        assert KeyOk(k, q, reqs[q]);
      }
    }
  }

  lemma ReplayLinkFrame(reqs: Procs, r: nat, p: Proc, k: Keys, k': Keys)
    requires ReplayLink(reqs, k) && k.grants <= k'.grants && k.stores <= k'.stores
    requires p.replay.Some? ==> ReplayOk(k, p.info.idemKey, p.replay.value)
    ensures ReplayLink(reqs[r := p], k')
  {
    var reqs' := reqs[r := p];
    forall q | q in reqs' && reqs'[q].replay.Some?
      ensures ReplayOk(k', reqs'[q].info.idemKey, reqs'[q].replay.value)
    {
      ReplayStaysOk(k, k', reqs'[q].info.idemKey, reqs'[q].replay.value);
    }
  }

  lemma GrantKeepsLink(reqs: Procs, r: nat, p: Proc, k: Keys, k': Keys)
    requires KeyLink(reqs, k) && r in reqs && reqs[r].grant.None? && reqs[r].stored.None?
    requires p.grant == Some(|k.grants|) && p.stored.None? && p.info == reqs[r].info
    requires k'.stores == k.stores && |k'.grants| == |k.grants| + 1 && k.grants <= k'.grants
    requires k'.grants[|k.grants|].req == r && k'.grants[|k.grants|].key == p.info.idemKey
    ensures KeyLink(reqs[r := p], k')
  {
    var reqs' := reqs[r := p];
    forall q | q in reqs'
      ensures KeyOk(k', q, reqs'[q])
    {
      if q != r {
        assert KeyOk(k, q, reqs[q]);
      }
    }
    forall i | 0 <= i < |k'.grants|
      ensures k'.grants[i].req in reqs' && reqs'[k'.grants[i].req].grant == Some(i)
    {
      if i < |k.grants| {
        assert k'.grants[i] == k.grants[i];
      }
    }
  }

  lemma StoreKeepsLink(reqs: Procs, r: nat, p: Proc, k: Keys, k': Keys, st: Store)
    requires KeyLink(reqs, k) && r in reqs && reqs[r].grant.Some? && reqs[r].stored.None?
    requires p.grant == reqs[r].grant && p.info == reqs[r].info && p.work == reqs[r].work
    requires p.stored == Some(|k.stores|)
    requires st.req == r && st.grant == p.grant.value && st.body == Body(p.work.chunks) && 200 <= p.work.status < 300
    requires k'.grants == k.grants && k'.stores == k.stores + [st]
    ensures KeyLink(reqs[r := p], k')
  {
    var reqs' := reqs[r := p];
    forall q | q in reqs'
      ensures KeyOk(k', q, reqs'[q])
    {
      assert KeyOk(k, q, reqs[q]);
    }
    forall n | 0 <= n < |k'.stores|
      ensures k'.stores[n].req in reqs' && reqs'[k'.stores[n].req].stored == Some(n)
    {
      if n < |k.stores| {
        assert k'.stores[n] == k.stores[n];
      }
    }
  }

  // ---------------------------------------------------------------------------------------
  // Requests and withdrawals
  // ---------------------------------------------------------------------------------------

  lemma DebitLinkFrame(reqs: Procs, r: nat, p: Proc, m: Money, m': Money)
    requires DebitLink(reqs, m) && m'.debits == m.debits
    requires if r in reqs then p.work.debit == reqs[r].work.debit && p.info == reqs[r].info else p.work.debit.None?
    ensures DebitLink(reqs[r := p], m')
  {
    var reqs' := reqs[r := p];
    forall q | q in reqs'
      ensures DebitOk(m', q, reqs'[q])
    {
      if q in reqs {
        assert DebitOk(m, q, reqs[q]);
      }
    }
  }

  lemma DebitKeepsLink(reqs: Procs, r: nat, p: Proc, m: Money, m': Money, d: Debit)
    requires DebitLink(reqs, m) && r in reqs && reqs[r].work.debit.None?
    requires p.info == reqs[r].info && p.work.debit == Some(|m.debits|)
    requires m'.debits == m.debits + [d] && d.req == r && d.key == p.info.idemKey && d.account == p.info.account
    ensures DebitLink(reqs[r := p], m')
  {
    var reqs' := reqs[r := p];
    forall q | q in reqs'
      ensures DebitOk(m', q, reqs'[q])
    {
      assert DebitOk(m, q, reqs[q]);
    }
    forall n | 0 <= n < |m'.debits|
      ensures m'.debits[n].req in reqs' && reqs'[m'.debits[n].req].work.debit == Some(n)
    {
      if n < |m.debits| {
        assert m'.debits[n] == m.debits[n];
      }
    }
  }

  /** Requests move, the money does not: nobody inside RecordTransaction may leave its handler. */
  lemma MutexLinkFrame(reqs: Procs, r: nat, p: Proc, m: Money)
    requires MutexLink(reqs, m)
    requires r in reqs ==> p.info == reqs[r].info
    requires r in reqs && reqs[r].stage == Running ==>
               || p.info.account !in m.mutex || m.mutex[p.info.account].req != r
               || (p.stage == Running && p.work.called == reqs[r].work.called && p.work.debit == reqs[r].work.debit)
    ensures MutexLink(reqs[r := p], m)
  {
    forall who | who in m.mutex
      ensures MutexOk(reqs[r := p], m, who)
    {
      assert MutexOk(reqs, m, who);
    }
  }

  // ---------------------------------------------------------------------------------------
  // Requests and locks
  // ---------------------------------------------------------------------------------------

  lemma LockLinkFrame(cfg: Config, reqs: Procs, r: nat, p: Proc, l: Locks, now: int)
    requires LockLink(cfg, reqs, l, now)
    requires r !in reqs ==> p.tenure.None?
    requires r in reqs ==> p.tenure == reqs[r].tenure && p.info == reqs[r].info
    requires r in reqs && p.tenure.Some? ==> InSection(p.stage) == InSection(reqs[r].stage)
    ensures LockLink(cfg, reqs[r := p], l, now)
  {
    var reqs' := reqs[r := p];
    forall q | q in reqs'
      ensures TenureOk(cfg, l, now, q, reqs'[q])
    {
      if q in reqs {
        assert TenureOk(cfg, l, now, q, reqs[q]);
      }
    }
    forall key | key in l.leases
      ensures LeaseOk(cfg, reqs', l, key)
    {
      assert LeaseOk(cfg, reqs, l, key);
    }
  }

  lemma AcquireKeepsLink(cfg: Config, reqs: Procs, r: nat, p: Proc, l: Locks, l': Locks, now: int, token: string)
    requires LockLink(cfg, reqs, l, now) && r in reqs && reqs[r].tenure.None? && token !in l.owner
    requires p.info == reqs[r].info && InSection(p.stage) && p.tenure == Some(Tenure(token, now))
    requires !Lock.Held(l.leases, p.info.lockKey, now)
    requires l'.leases == l.leases[p.info.lockKey := Lock.Lease(token, now + cfg.lockTtl)]
    requires l'.owner == l.owner[token := r]
    ensures LockLink(cfg, reqs[r := p], l', now)
  {
    var reqs' := reqs[r := p];
    forall q | q in reqs'
      ensures TenureOk(cfg, l', now, q, reqs'[q])
    {
      if q != r {
        assert TenureOk(cfg, l, now, q, reqs[q]);
      }
    }
    forall key | key in l'.leases
      ensures LeaseOk(cfg, reqs', l', key)
    {
      if key != p.info.lockKey {
        assert LeaseOk(cfg, reqs, l, key);
      }
    }
  }

  /** Releasing frees the request's own lease and nobody else's. */
  lemma ReleaseKeepsLink(cfg: Config, reqs: Procs, r: nat, p: Proc, l: Locks, l': Locks, now: int)
    requires LockLink(cfg, reqs, l, now) && r in reqs && reqs[r].tenure.Some?
    requires p.info == reqs[r].info && p.tenure == reqs[r].tenure && !InSection(p.stage)
    requires l'.leases == Lock.Released(l.leases, p.info.lockKey, p.tenure.value.token) && l'.owner == l.owner
    ensures LockLink(cfg, reqs[r := p], l', now)
  {
    assert TenureOk(cfg, l, now, r, reqs[r]);
    var reqs' := reqs[r := p];
    forall q | q in reqs'
      ensures TenureOk(cfg, l', now, q, reqs'[q])
    {
      if q != r {
        assert TenureOk(cfg, l, now, q, reqs[q]);
      }
    }
    forall key | key in l'.leases
      ensures LeaseOk(cfg, reqs', l', key)
    {
      assert LeaseOk(cfg, reqs, l, key);
    }
  }

  lemma TickKeepsLocks(cfg: Config, reqs: Procs, l: Locks, now: int, now': int)
    requires LockLink(cfg, reqs, l, now) && now <= now'
    ensures LockLink(cfg, reqs, l, now')
  {
    forall q | q in reqs
      ensures TenureOk(cfg, l, now', q, reqs[q])
    {
      assert TenureOk(cfg, l, now, q, reqs[q]);
    }
  }

  // ---------------------------------------------------------------------------------------
  // The invariant, step by step
  // ---------------------------------------------------------------------------------------

  lemma ShapesFrame(cfg: Config, reqs: Procs, r: nat, p: Proc)
    requires Shapes(cfg, reqs) && Shape(cfg, p)
    ensures Shapes(cfg, reqs[r := p])
  {
  }

  lemma LimitStepIsPlain(cfg: Config, s: State, step: Step)
    requires Enabled(cfg, s, step) && (step.IpLimit? || step.RateLimit?) && Shape(cfg, s.reqs[step.r])
    ensures Plain(cfg, s, Apply(cfg, s, step), step.r)
  {
  }

  lemma BeginIsPlain(cfg: Config, s: State, step: Step)
    requires Enabled(cfg, s, step) && step.VelocityBegin? && Shape(cfg, s.reqs[step.r])
    ensures Plain(cfg, s, Apply(cfg, s, step), step.r)
  {
  }

  lemma CheckStepIsPlain(cfg: Config, s: State, step: Step)
    requires Enabled(cfg, s, step)
    requires step.VelocityLook? || step.VelocityStamp? || step.VelocityAppend?
    requires Shape(cfg, s.reqs[step.r])
    ensures Plain(cfg, s, Apply(cfg, s, step), step.r)
  {
  }

  lemma VerdictStepIsPlain(cfg: Config, s: State, step: Step)
    requires Enabled(cfg, s, step) && (step.VelocityEval? || step.VelocityDecide?) && Shape(cfg, s.reqs[step.r])
    ensures Plain(cfg, s, Apply(cfg, s, step), step.r)
  {
  }

  lemma HandlerStepIsPlain(cfg: Config, s: State, step: Step)
    requires Enabled(cfg, s, step) && (step.WriteHeader? || step.Write? || step.Return?)
    requires Shape(cfg, s.reqs[step.r])
    ensures Plain(cfg, s, Apply(cfg, s, step), step.r)
  {
  }

  lemma PlainKeepsInv(cfg: Config, s: State, s': State, r: nat)
    requires Inv(cfg, s) && Plain(cfg, s, s', r)
    ensures Inv(cfg, s')
  {
    ShapesFrame(cfg, s.reqs, r, s'.reqs[r]);
    KeyLinkFrame(s.reqs, r, s'.reqs[r], s.keys, s'.keys);
    ReplayLinkFrame(s.reqs, r, s'.reqs[r], s.keys, s.keys);
    MutexLinkFrame(s.reqs, r, s'.reqs[r], s.money);
    DebitLinkFrame(s.reqs, r, s'.reqs[r], s.money, s'.money);
    LockLinkFrame(cfg, s.reqs, r, s'.reqs[r], s.locks, s.now);
  }

  lemma ArriveKeepsInv(cfg: Config, s: State, r: nat, info: Info)
    requires Inv(cfg, s) && r !in s.reqs
    ensures Inv(cfg, Arrives(cfg, s, r, info))
  {
    var p := Arrives(cfg, s, r, info).reqs[r];
    ShapesFrame(cfg, s.reqs, r, p);
    KeyLinkFrame(s.reqs, r, p, s.keys, s.keys);
    ReplayLinkFrame(s.reqs, r, p, s.keys, s.keys);
    MutexLinkFrame(s.reqs, r, p, s.money);
    DebitLinkFrame(s.reqs, r, p, s.money, s.money);
    LockLinkFrame(cfg, s.reqs, r, p, s.locks, s.now);
  }

  lemma TickKeepsInv(cfg: Config, s: State, delta: nat)
    requires Inv(cfg, s)
    ensures Inv(cfg, s.(now := s.now + delta))
  {
    TickKeepsKeys(s.keys, s.start, s.now, s.now + delta, cfg.idemTtl);
    TickKeepsLocks(cfg, s.reqs, s.locks, s.now, s.now + delta);
  }

  /** What a claim changes, by its reply. */
  lemma ClaimGrows(k: Keys, key: string, r: nat, now: int, ttl: int)
    ensures var (k', c) := ClaimKey(k, key, r, now, ttl);
            && k'.stores == k.stores
            && k'.grants == (if c.Granted? then k.grants + [Grant(key, r, now)] else k.grants)
            && (c.Granted? ==> c.grant == |k.grants|)
  {
  }

  lemma ClaimKeepsInv(cfg: Config, s: State, r: nat)
    requires Inv(cfg, s) && At(s, r, RatePassed)
    ensures Inv(cfg, Claims(cfg, s, r))
  {
    var p := s.reqs[r];
    assert Shape(cfg, p);
    if p.info.idemKey == "" {
      PlainKeepsInv(cfg, s, To(s, r, Claimed), r);
    } else {
      var (k', c) := ClaimKey(s.keys, p.info.idemKey, r, s.now, cfg.idemTtl);
      ClaimKeepsKeys(s.keys, p.info.idemKey, r, s.start, s.now, cfg.idemTtl);
      ClaimGrows(s.keys, p.info.idemKey, r, s.now, cfg.idemTtl);
      if c.Answered? {
        AnswerIsOk(s.keys, p.info.idemKey, r, s.start, s.now, cfg.idemTtl);
      }
      ReplyKeepsInv(cfg, s, r, k', c);
    }
  }

  lemma AfterClaimShape(cfg: Config, p: Proc, c: ClaimReply)
    requires Shape(cfg, p) && p.stage == RatePassed
    ensures var p' := AfterClaim(p, c);
            && Shape(cfg, p') && p.grant.None? && p.stored.None? && p.replay.None? && p.tenure.None?
            && p'.info == p.info && p'.tenure == p.tenure && p'.work == p.work
            && p'.replay == if c.Answered? then Some(c.replay) else None
  {
  }

  lemma ReplyKeepsInv(cfg: Config, s: State, r: nat, k': Keys, c: ClaimReply)
    requires Inv(cfg, s) && At(s, r, RatePassed) && KeysInv(k', s.start, s.now, cfg.idemTtl)
    requires k'.stores == s.keys.stores && (c.Granted? ==> c.grant == |s.keys.grants|)
    requires k'.grants ==
             if c.Granted? then s.keys.grants + [Grant(s.reqs[r].info.idemKey, r, s.now)] else s.keys.grants
    requires c.Answered? ==> ReplayOk(s.keys, s.reqs[r].info.idemKey, c.replay)
    ensures Inv(cfg, Put(s.(keys := k'), r, AfterClaim(s.reqs[r], c)))
  {
    var p' := AfterClaim(s.reqs[r], c);
    AfterClaimShape(cfg, s.reqs[r], c);
    ClaimKeepsLink(s.reqs, r, s.keys, k', c, s.now);
    assert s.keys.grants <= k'.grants && s.keys.stores <= k'.stores;
    ReplayLinkFrame(s.reqs, r, p', s.keys, k');
    KeyChangeKeepsInv(cfg, s, r, p', k');
  }

  /** A step of request r that touches only the keys and keeps their invariants. */
  lemma KeyChangeKeepsInv(cfg: Config, s: State, r: nat, p': Proc, k': Keys)
    requires Inv(cfg, s) && r in s.reqs && KeysInv(k', s.start, s.now, cfg.idemTtl)
    requires KeyLink(s.reqs[r := p'], k') && ReplayLink(s.reqs[r := p'], k') && Shape(cfg, p')
    requires p'.info == s.reqs[r].info && p'.tenure == s.reqs[r].tenure && p'.work == s.reqs[r].work
    requires p'.tenure.Some? ==> InSection(p'.stage) == InSection(s.reqs[r].stage)
    requires s.reqs[r].stage != Running
    ensures Inv(cfg, Put(s.(keys := k'), r, p'))
  {
    ShapesFrame(cfg, s.reqs, r, p');
    MutexLinkFrame(s.reqs, r, p', s.money);
    DebitLinkFrame(s.reqs, r, p', s.money, s.money);
    LockLinkFrame(cfg, s.reqs, r, p', s.locks, s.now);
  }

  lemma ClaimKeepsLink(reqs: Procs, r: nat, k: Keys, k': Keys, c: ClaimReply, now: int)
    requires KeyLink(reqs, k) && r in reqs && reqs[r].grant.None? && reqs[r].stored.None?
    requires k'.stores == k.stores && (c.Granted? ==> c.grant == |k.grants|)
    requires k'.grants == if c.Granted? then k.grants + [Grant(reqs[r].info.idemKey, r, now)] else k.grants
    ensures KeyLink(reqs[r := AfterClaim(reqs[r], c)], k')
  {
    if c.Granted? {
      GrantKeepsLink(reqs, r, AfterClaim(reqs[r], c), k, k');
    } else {
      KeyLinkFrame(reqs, r, AfterClaim(reqs[r], c), k, k');
    }
  }

  lemma RefusedLockIsPlain(cfg: Config, s: State, r: nat, token: string)
    requires At(s, r, Cleared) && Shape(cfg, s.reqs[r]) && !TakesFreeLease(cfg, s, r)
    ensures Plain(cfg, s, TakesLock(cfg, s, r, token), r)
  {
  }

  /** A step of request r that touches only the locks and keeps their invariant. */
  lemma LockChangeKeepsInv(cfg: Config, s: State, s': State, r: nat)
    requires Inv(cfg, s) && r in s.reqs && r in s'.reqs && s'.reqs == s.reqs[r := s'.reqs[r]]
    requires s'.start == s.start && s'.now == s.now && s'.keys == s.keys && s'.money == s.money
    requires Shape(cfg, s'.reqs[r]) && s'.reqs[r].info == s.reqs[r].info && s'.reqs[r].work == s.reqs[r].work
    requires s'.reqs[r].grant == s.reqs[r].grant && s'.reqs[r].stored == s.reqs[r].stored
    requires s'.reqs[r].replay == s.reqs[r].replay
    requires LockLink(cfg, s'.reqs, s'.locks, s'.now) && s.reqs[r].stage != Running
    ensures Inv(cfg, s')
  {
    ShapesFrame(cfg, s.reqs, r, s'.reqs[r]);
    KeyLinkFrame(s.reqs, r, s'.reqs[r], s.keys, s.keys);
    ReplayLinkFrame(s.reqs, r, s'.reqs[r], s.keys, s.keys);
    MutexLinkFrame(s.reqs, r, s'.reqs[r], s.money);
    DebitLinkFrame(s.reqs, r, s'.reqs[r], s.money, s.money);
  }

  lemma TryLockKeepsInv(cfg: Config, s: State, r: nat, token: string)
    requires Inv(cfg, s) && At(s, r, Cleared) && token !in s.locks.owner
    ensures Inv(cfg, TakesLock(cfg, s, r, token))
  {
    assert Shape(cfg, s.reqs[r]);
    var s' := TakesLock(cfg, s, r, token);
    if TakesFreeLease(cfg, s, r) {
      AcquireKeepsLink(cfg, s.reqs, r, s'.reqs[r], s.locks, s'.locks, s.now, token);
      LockChangeKeepsInv(cfg, s, s', r);
    } else {
      RefusedLockIsPlain(cfg, s, r, token);
      PlainKeepsInv(cfg, s, s', r);
    }
  }

  /** A step of request r that touches only the money and keeps its invariants. */
  lemma MoneyChangeKeepsInv(cfg: Config, s: State, r: nat, p': Proc, m': Money)
    requires Inv(cfg, s) && r in s.reqs && Shape(cfg, p') && p' == s.reqs[r].(work := p'.work)
    requires p'.stored.Some? ==> p'.work == s.reqs[r].work
    requires DebitLink(s.reqs[r := p'], m') && MutexLink(s.reqs[r := p'], m')
    requires DebitsRecorded(m') && Wallet.Balanced(m'.bank)
    ensures Inv(cfg, Put(s.(money := m'), r, p'))
  {
    ShapesFrame(cfg, s.reqs, r, p');
    KeyLinkFrame(s.reqs, r, p', s.keys, s.keys);
    ReplayLinkFrame(s.reqs, r, p', s.keys, s.keys);
    LockLinkFrame(cfg, s.reqs, r, p', s.locks, s.now);
  }

  /** A refused withdrawal touches nothing; any other takes the mutex with the list as it is now. */
  lemma WithdrawKeepsMutexes(s: State, r: nat, amount: int)
    requires MutexLink(s.reqs, s.money) && At(s, r, Running) && CanWithdraw(s, r, amount) && !Posting(s, r)
    requires s.reqs[r].work.debit.None?
    ensures var s' := Withdraws(s, r, amount); MutexLink(s'.reqs, s'.money)
  {
    var s' := Withdraws(s, r, amount);
    forall who | who in s'.money.mutex
      ensures MutexOk(s'.reqs, s'.money, who)
    {
      if who in s.money.mutex {
        assert MutexOk(s.reqs, s.money, who);
      }
    }
  }

  lemma WithdrawKeepsInv(cfg: Config, s: State, r: nat, amount: int)
    requires Inv(cfg, s) && At(s, r, Running) && CanWithdraw(s, r, amount)
    ensures Inv(cfg, Withdraws(s, r, amount))
  {
    var s', who := Withdraws(s, r, amount), s.reqs[r].info.account;
    assert Shape(cfg, s.reqs[r]);
    assert !Posting(s, r) by {
      assert who in s.money.mutex ==> MutexOk(s.reqs, s.money, who);
    }
    WithdrawKeepsMutexes(s, r, amount);
    DebitLinkFrame(s.reqs, r, s'.reqs[r], s.money, s'.money);
    Wallet.OpenedBalances(s.money.bank, who);
    MoneyChangeKeepsInv(cfg, s, r, s'.reqs[r], s'.money);
  }

  lemma PostKeepsMutexes(cfg: Config, s: State, r: nat, at: Text.Timestamp)
    requires MutexLink(s.reqs, s.money) && CanPost(s, r)
    ensures var s' := Posts(cfg, s, r, at); MutexLink(s'.reqs, s'.money)
  {
    var s' := Posts(cfg, s, r, at);
    forall who | who in s'.money.mutex
      ensures MutexOk(s'.reqs, s'.money, who)
    {
      assert MutexOk(s.reqs, s.money, who);
    }
  }

  lemma PostRecorded(cfg: Config, s: State, r: nat, at: Text.Timestamp)
    requires DebitsRecorded(s.money) && CanPost(s, r) && s.money.mutex[s.reqs[r].info.account].amount > 0
    ensures DebitsRecorded(Posts(cfg, s, r, at).money)
  {
  }

  lemma PostKeepsInv(cfg: Config, s: State, r: nat, at: Text.Timestamp)
    requires Inv(cfg, s) && At(s, r, Running) && CanPost(s, r)
    ensures Inv(cfg, Posts(cfg, s, r, at))
  {
    var s', who := Posts(cfg, s, r, at), s.reqs[r].info.account;
    var Writing(_, amount, seen) := s.money.mutex[who];
    assert Shape(cfg, s.reqs[r]) && MutexOk(s.reqs, s.money, who);
    PostKeepsMutexes(cfg, s, r, at);
    PostRecorded(cfg, s, r, at);
    DebitKeepsLink(s.reqs, r, s'.reqs[r], s.money, s'.money, Debit(s.reqs[r].info.idemKey, r, who, amount));
    Wallet.LandedBalances(cfg.h, s.money.bank, who, amount, seen, "api", at);
    MoneyChangeKeepsInv(cfg, s, r, s'.reqs[r], s'.money);
  }

  lemma CompleteKeepsInv(cfg: Config, s: State, r: nat)
    requires Inv(cfg, s) && At(s, r, Returned)
    ensures Inv(cfg, Completes(cfg, s, r))
  {
    var p, s' := s.reqs[r], Completes(cfg, s, r);
    assert Shape(cfg, p) && KeyOk(s.keys, r, p);
    var p' := s'.reqs[r];
    if Cacheable(p) {
      var st := s'.keys.stores[|s.keys.stores|];
      StoreKeepsGrants(s.keys, st, s.start, s.now, cfg.idemTtl);
      StoreKeepsStores(s.keys, st, s.start, s.now, cfg.idemTtl);
      StoreKeepsLink(s.reqs, r, p', s.keys, s'.keys, st);
      ReplayLinkFrame(s.reqs, r, p', s.keys, s'.keys);
      KeyChangeKeepsInv(cfg, s, r, p', s'.keys);
    } else {
      PlainKeepsInv(cfg, s, s', r);
    }
  }

  lemma ReleaseKeepsInv(cfg: Config, s: State, r: nat)
    requires Inv(cfg, s) && At(s, r, Releasing)
    ensures Inv(cfg, Releases(s, r))
  {
    var s' := Releases(s, r);
    assert Shape(cfg, s.reqs[r]);
    ReleaseKeepsLink(cfg, s.reqs, r, s'.reqs[r], s.locks, s'.locks, s.now);
    LockChangeKeepsInv(cfg, s, s', r);
  }

  lemma PlainStepKeepsInv(cfg: Config, s: State, step: Step)
    requires Inv(cfg, s) && Enabled(cfg, s, step) && IsPlain(step)
    ensures Inv(cfg, Apply(cfg, s, step))
  {
    assert Plain(cfg, s, Apply(cfg, s, step), step.r) by {
      assert Shape(cfg, s.reqs[step.r]);
      if step.VelocityEval? || step.VelocityDecide? {
        VerdictStepIsPlain(cfg, s, step);
      } else if step.WriteHeader? || step.Write? || step.Return? {
        HandlerStepIsPlain(cfg, s, step);
      } else if step.IpLimit? || step.RateLimit? {
        LimitStepIsPlain(cfg, s, step);
      } else if step.VelocityBegin? {
        BeginIsPlain(cfg, s, step);
      } else {
        CheckStepIsPlain(cfg, s, step);
      }
    }
    PlainKeepsInv(cfg, s, Apply(cfg, s, step), step.r);
  }

  lemma HandlerStepKeepsInv(cfg: Config, s: State, step: Step)
    requires Inv(cfg, s) && Enabled(cfg, s, step) && (step.Withdraw? || step.Post? || step.Complete? || step.Release?)
    ensures Inv(cfg, Apply(cfg, s, step))
  {
    if step.Withdraw? {
      WithdrawKeepsInv(cfg, s, step.r, step.amount);
    } else if step.Post? {
      PostKeepsInv(cfg, s, step.r, step.at);
    } else if step.Complete? {
      CompleteKeepsInv(cfg, s, step.r);
    } else {
      ReleaseKeepsInv(cfg, s, step.r);
    }
  }

  /** What every step of every request keeps. */
  lemma StepKeepsInv(cfg: Config, s: State, step: Step)
    requires Inv(cfg, s) && Enabled(cfg, s, step)
    ensures Inv(cfg, Apply(cfg, s, step))
  {
    if IsPlain(step) {
      PlainStepKeepsInv(cfg, s, step);
    } else if step.Tick? {
      TickKeepsInv(cfg, s, step.delta);
    } else if step.Arrive? {
      ArriveKeepsInv(cfg, s, step.r, step.info);
    } else if step.Claim? {
      ClaimKeepsInv(cfg, s, step.r);
    } else if step.TryLock? {
      TryLockKeepsInv(cfg, s, step.r, step.token);
    } else {
      HandlerStepKeepsInv(cfg, s, step);
    }
  }

  lemma {:induction false} RunKeepsInv(cfg: Config, s: State, steps: seq<Step>)
    requires Inv(cfg, s) && Legal(cfg, s, steps)
    ensures Inv(cfg, Final(cfg, s, steps))
    decreases |steps|
  {
    if steps != [] {
      StepKeepsInv(cfg, s, steps[0]);
      RunKeepsInv(cfg, Apply(cfg, s, steps[0]), steps[1..]);
    }
  }

  lemma InitialInv(cfg: Config, s: State)
    requires Initial(s) && Wallet.Balanced(s.money.bank)
    ensures Inv(cfg, s)
  {
  }
}
