/**
 The middleware's answer to a claim, from the history of grants and stores alone: who has been granted
 the key, and what has been stored under it, within the lifetime.
 */
module PipelineClaims {
  import opened Common
  import opened Pipeline
  import opened PipelineInvariant
  import opened PipelineKeys
  import opened PipelineSafety
  import opened PipelineTheorems
  import Idem = Idempotency

  // ---------------------------------------------------------------------------------------
  // An entry is what the last event of its key left
  // ---------------------------------------------------------------------------------------

  /** The last event was a grant, after the lifetime of everything stored before. */
  ghost predicate LastGranted(k: Keys, ttl: int, key: string)
    requires key in k.entries
  {
    && key in k.holder && k.holder[key] < |k.grants| && k.grants[k.holder[key]].key == key
    && k.entries[key].expiresAt == k.grants[k.holder[key]].at + ttl
    && (forall n :: 0 <= n < |k.stores| && k.stores[n].key == key ==> k.stores[n].at + ttl < k.grants[k.holder[key]].at)
    && (forall i :: 0 <= i < |k.grants| && k.grants[i].key == key ==> k.grants[i].at <= k.grants[k.holder[key]].at)
  }

  /** The last event was a store. */
  ghost predicate LastStored(k: Keys, ttl: int, key: string)
    requires key in k.entries
  {
    && key in k.writer && k.writer[key] < |k.stores| && k.stores[k.writer[key]].key == key
    && k.entries[key].value == k.stores[k.writer[key]].body
    && k.entries[key].expiresAt == k.stores[k.writer[key]].at + ttl
    && (forall n :: 0 <= n < |k.stores| && k.stores[n].key == key ==>
          n <= k.writer[key] && k.stores[n].at <= k.stores[k.writer[key]].at)
    && (forall i :: 0 <= i < |k.grants| && k.grants[i].key == key ==> k.grants[i].at <= k.stores[k.writer[key]].at)
  }

  /** Nothing has happened under the key. */
  ghost predicate NeverUsed(k: Keys, key: string) {
    && (forall i :: 0 <= i < |k.grants| ==> k.grants[i].key != key)
    && (forall n :: 0 <= n < |k.stores| ==> k.stores[n].key != key)
  }

  ghost predicate Law(k: Keys, ttl: int, key: string) {
    if key !in k.entries then NeverUsed(k, key)
    else if k.entries[key].value == [] then LastGranted(k, ttl, key)
    else LastStored(k, ttl, key)
  }

  /** Grant i of its key comes after the grant that store n, made in turn, answers. */
  predicate Follows(k: Keys, n: nat, i: nat)
    requires n < |k.stores| && i < |k.grants|
  {
    k.stores[n].inTurn && k.grants[i].key == k.stores[n].key && i > k.stores[n].grant
  }

  /** After a store in turn, the key is granted again only when its lifetime is over. */
  ghost predicate Turns(k: Keys, ttl: int) {
    forall n, i :: 0 <= n < |k.stores| && 0 <= i < |k.grants| && Follows(k, n, i) ==>
      k.grants[i].at > k.stores[n].at + ttl
  }

  /** Nothing lies in the future, and a store comes after the grant it answers. */
  ghost predicate InOrder(k: Keys, now: int) {
    && (forall i :: 0 <= i < |k.grants| ==> k.grants[i].at <= now)
    && (forall n :: 0 <= n < |k.stores| ==>
          && k.stores[n].at <= now && k.stores[n].grant < |k.grants|
          && k.grants[k.stores[n].grant].at <= k.stores[n].at)
  }

  ghost predicate HistoryInv(k: Keys, now: int, ttl: int) {
    InOrder(k, now) && Turns(k, ttl) && forall key {:trigger Law(k, ttl, key)} :: Law(k, ttl, key)
  }

  // ---------------------------------------------------------------------------------------
  // Claims and stores keep it
  // ---------------------------------------------------------------------------------------

  /** A granted key has outlived everything that happened under it. */
  lemma GrantOutlives(k: Keys, key: string, now: int, ttl: int)
    requires HistoryInv(k, now, ttl) && ttl >= 0 && Grantable(k, key, now)
    ensures forall n :: 0 <= n < |k.stores| && k.stores[n].key == key ==> k.stores[n].at + ttl < now
    ensures forall i :: 0 <= i < |k.grants| && k.grants[i].key == key ==> k.grants[i].at + ttl < now
  {
    assert Law(k, ttl, key);
  }

  lemma GrantKeepsHistory(k: Keys, k': Keys, key: string, r: nat, now: int, ttl: int)
    requires HistoryInv(k, now, ttl) && ttl >= 0 && Grantable(k, key, now)
    requires k'.grants == k.grants + [Grant(key, r, now)] && k'.holder == k.holder[key := |k.grants|]
    requires k'.stores == k.stores && k'.writer == k.writer
    requires k'.entries == k.entries[key := Idem.Entry(true, [], now + ttl)]
    ensures HistoryInv(k', now, ttl)
  {
    GrantOutlives(k, key, now, ttl);
    forall q: string
      ensures Law(k', ttl, q)
    {
      assert Law(k, ttl, q);
    }
    forall n, i | 0 <= n < |k'.stores| && 0 <= i < |k'.grants| && Follows(k', n, i)
      ensures k'.grants[i].at > k'.stores[n].at + ttl
    {
      assert i < |k.grants| ==> Follows(k, n, i);
    }
  }

  lemma StoreKeepsHistory(k: Keys, st: Store, now: int, ttl: int)
    requires HistoryInv(k, now, ttl) && st.at == now && st.body != [] && st.grant < |k.grants|
    requires forall i :: 0 <= i < |k.grants| && k.grants[i].key == st.key && st.inTurn ==> i <= st.grant
    ensures HistoryInv(Stored(k, st, ttl), now, ttl)
  {
    var k' := Stored(k, st, ttl);
    forall q: string
      ensures Law(k', ttl, q)
    {
      assert Law(k, ttl, q);
    }
    forall n, i | 0 <= n < |k'.stores| && 0 <= i < |k'.grants| && Follows(k', n, i)
      ensures k'.grants[i].at > k'.stores[n].at + ttl
    {
      assert n < |k.stores| ==> Follows(k, n, i);
    }
  }

  lemma ClaimKeepsHistory(k: Keys, key: string, r: nat, now: int, ttl: int)
    requires HistoryInv(k, now, ttl) && ttl >= 0 && (key in k.entries ==> Occupied(k.entries[key]))
    ensures HistoryInv(ClaimKey(k, key, r, now, ttl).0, now, ttl)
  {
    ClaimCases(k, key, r, now, ttl);
    var (k', c) := ClaimKey(k, key, r, now, ttl);
    if c.Granted? {
      GrantKeepsHistory(k, k', key, r, now, ttl);
    }
  }

  lemma KeysUntouched(cfg: Config, s: State, step: Step)
    requires Enabled(cfg, s, step) && !step.Claim? && !step.Complete?
    ensures Apply(cfg, s, step).keys == s.keys && Apply(cfg, s, step).now >= s.now
  {
  }

  lemma StepKeepsHistory(cfg: Config, s: State, step: Step)
    requires Inv(cfg, s) && HistoryInv(s.keys, s.now, cfg.idemTtl) && Enabled(cfg, s, step)
    ensures var s' := Apply(cfg, s, step); HistoryInv(s'.keys, s'.now, cfg.idemTtl)
  {
    if step.Claim? {
      ClaimKeepsHistory(s.keys, s.reqs[step.r].info.idemKey, step.r, s.now, cfg.idemTtl);
    } else if step.Complete? {
      CompleteKeepsHistory(cfg, s, step.r);
    } else {
      KeysUntouched(cfg, s, step);
      LaterKeepsHistory(s.keys, s.now, Apply(cfg, s, step).now, cfg.idemTtl);
    }
  }

  lemma LaterKeepsHistory(k: Keys, now: int, now': int, ttl: int)
    requires HistoryInv(k, now, ttl) && now <= now'
    ensures HistoryInv(k, now', ttl)
  {
  }

  lemma CompleteKeepsHistory(cfg: Config, s: State, r: nat)
    requires Inv(cfg, s) && HistoryInv(s.keys, s.now, cfg.idemTtl) && At(s, r, Returned)
    ensures HistoryInv(Completes(cfg, s, r).keys, s.now, cfg.idemTtl)
  {
    var p := s.reqs[r];
    assert Shape(cfg, p) && KeyOk(s.keys, r, p);
    if Cacheable(p) {
      var st := Completes(cfg, s, r).keys.stores[|s.keys.stores|];
      forall i | 0 <= i < |s.keys.grants| && s.keys.grants[i].key == st.key && st.inTurn
        ensures i <= st.grant
      {
        assert GrantOk(s.keys, s.start, s.now, cfg.idemTtl, i);
      }
      StoreKeepsHistory(s.keys, st, s.now, cfg.idemTtl);
    }
  }

  lemma {:induction false} RunKeepsHistory(cfg: Config, s: State, steps: seq<Step>)
    requires Inv(cfg, s) && HistoryInv(s.keys, s.now, cfg.idemTtl) && Legal(cfg, s, steps)
    ensures var f := Final(cfg, s, steps); Inv(cfg, f) && HistoryInv(f.keys, f.now, cfg.idemTtl)
    decreases |steps|
  {
    if steps != [] {
      StepKeepsInv(cfg, s, steps[0]);
      StepKeepsHistory(cfg, s, steps[0]);
      RunKeepsHistory(cfg, Apply(cfg, s, steps[0]), steps[1..]);
    }
  }

  lemma HistoryReached(cfg: Config, s0: State, steps: seq<Step>)
    requires Booted(s0) && Legal(cfg, s0, steps)
    ensures var f := Final(cfg, s0, steps); Inv(cfg, f) && HistoryInv(f.keys, f.now, cfg.idemTtl)
  {
    InitialInv(cfg, s0);
    RunKeepsHistory(cfg, s0, steps);
  }

  // ---------------------------------------------------------------------------------------
  // The answer
  // ---------------------------------------------------------------------------------------

  /** Grant i of the key is within its lifetime. */
  predicate FreshGrant(k: Keys, key: string, now: int, ttl: int, i: nat) {
    i < |k.grants| && k.grants[i].key == key && now <= k.grants[i].at + ttl
  }

  /** Store n of the key is within its lifetime. */
  predicate FreshStore(k: Keys, key: string, now: int, ttl: int, n: nat) {
    n < |k.stores| && k.stores[n].key == key && now <= k.stores[n].at + ttl
  }

  /** No later store of the key. */
  ghost predicate Latest(k: Keys, n: nat)
    requires n < |k.stores|
  {
    forall m :: n < m < |k.stores| ==> k.stores[m].key != k.stores[n].key
  }

  lemma AnswerFromHistory(k: Keys, key: string, r: nat, now: int, ttl: int)
    requires HistoryInv(k, now, ttl) && ttl >= 0 && (key in k.entries ==> Occupied(k.entries[key]))
    ensures var c := ClaimKey(k, key, r, now, ttl).1;
            var granted := exists i :: FreshGrant(k, key, now, ttl, i);
            var stored := exists n :: FreshStore(k, key, now, ttl, n);
            && (c.Granted? <==> !granted && !stored) && (c.Refused? <==> granted && !stored)
            && (c.Answered? <==> stored)
            && (c.Answered? ==>
                  exists n: nat :: FreshStore(k, key, now, ttl, n) && Latest(k, n) && c.replay.body == k.stores[n].body)
  {
    ClaimCases(k, key, r, now, ttl);
    assert Law(k, ttl, key);
    if Grantable(k, key, now) {
      GrantOutlives(k, key, now, ttl);
    } else if k.entries[key].value == [] {
      assert FreshGrant(k, key, now, ttl, k.holder[key]);
    } else {
      assert FreshStore(k, key, now, ttl, k.writer[key]) && Latest(k, k.writer[key]);
    }
  }

  /**
   Exactly what a request's claim is answered, in every reachable state: granted if nothing happened under
   the key within the lifetime; replayed, with the body stored last, if something was stored within it; and
   a conflict if the key was granted within it and nothing stored. Without a key the claim is skipped.
   */
  lemma ClaimAnsweredExactly(cfg: Config, s0: State, steps: seq<Step>, r: nat)
    requires Booted(s0) && Legal(cfg, s0, steps) && Enabled(cfg, Final(cfg, s0, steps), Claim(r))
    ensures var s := Final(cfg, s0, steps);
            var key, stage := s.reqs[r].info.idemKey, Apply(cfg, s, Claim(r)).reqs[r].stage;
            var granted := exists i :: FreshGrant(s.keys, key, s.now, cfg.idemTtl, i);
            var stored := exists n :: FreshStore(s.keys, key, s.now, cfg.idemTtl, n);
            && (stage == Claimed <==> key == "" || (!granted && !stored))
            && (stage == Done(Conflict) <==> key != "" && granted && !stored)
            && (stage.Done? && stage.outcome.Replayed? <==> key != "" && stored)
            && (key != "" && stored ==>
                  exists n: nat :: FreshStore(s.keys, key, s.now, cfg.idemTtl, n) && Latest(s.keys, n)
                                   && stage == Done(Replayed(s.keys.stores[n].body)))
  {
    HistoryReached(cfg, s0, steps);
    var s := Final(cfg, s0, steps);
    AnswerFromHistory(s.keys, s.reqs[r].info.idemKey, r, s.now, cfg.idemTtl);
  }

  /** Two stores of a key in turn, the earlier within its lifetime, answer the same grant. */
  lemma FreshTurnSameGrant(k: Keys, now: int, ttl: int, n: nat, m: nat)
    requires InOrder(k, now) && Turns(k, ttl) && ttl >= 0
    requires n <= m < |k.stores| && k.stores[n].inTurn && k.stores[m].inTurn
    requires k.grants[k.stores[n].grant].key == k.stores[n].key == k.stores[m].key == k.grants[k.stores[m].grant].key
    requires now <= k.stores[n].at + ttl && k.stores[n].at <= k.stores[m].at
    ensures k.stores[n].grant == k.stores[m].grant
  {
    assert !Follows(k, n, k.stores[m].grant) && !Follows(k, m, k.stores[n].grant);
  }

  /** So they are the same store. */
  lemma FreshTurnIsLatest(cfg: Config, s: State, n: nat, m: nat)
    requires KeyLink(s.reqs, s.keys) && StoreInv(s.keys, cfg.idemTtl)
    requires InOrder(s.keys, s.now) && Turns(s.keys, cfg.idemTtl)
    requires n <= m < |s.keys.stores| && s.keys.stores[n].key == s.keys.stores[m].key
    requires s.keys.stores[n].inTurn && s.keys.stores[m].inTurn && s.now <= s.keys.stores[n].at + cfg.idemTtl
    requires s.keys.stores[n].at <= s.keys.stores[m].at
    ensures n == m
  {
    var k := s.keys;
    assert StoreOk(k, cfg.idemTtl, n) && StoreOk(k, cfg.idemTtl, m);
    FreshTurnSameGrant(k, s.now, cfg.idemTtl, n, m);
    assert s.reqs[k.stores[n].req].stored == Some(n) && s.reqs[k.stores[m].req].stored == Some(m);
  }

  /**
   A response stored in turn is what answers: as long as its lifetime runs, and everything stored under the
   key was stored in turn, every claim of the key is answered with it.
   */
  lemma InTurnStoreAnswers(cfg: Config, s0: State, steps: seq<Step>, n: nat, r: nat)
    requires Booted(s0) && Legal(cfg, s0, steps) && n < |Final(cfg, s0, steps).keys.stores|
    requires var s := Final(cfg, s0, steps);
             AllInTurn(s.keys, s.keys.stores[n].key) && s.now <= s.keys.stores[n].at + cfg.idemTtl
    ensures var s := Final(cfg, s0, steps);
            var (k', c) := ClaimKey(s.keys, s.keys.stores[n].key, r, s.now, cfg.idemTtl);
            k' == s.keys && c.Answered? && c.replay.body == s.keys.stores[n].body
  {
    HistoryReached(cfg, s0, steps);
    var s := Final(cfg, s0, steps);
    var key := s.keys.stores[n].key;
    AnswerFromHistory(s.keys, key, r, s.now, cfg.idemTtl);
    ClaimCases(s.keys, key, r, s.now, cfg.idemTtl);
    assert FreshStore(s.keys, key, s.now, cfg.idemTtl, n);
    assert Law(s.keys, cfg.idemTtl, key);
    FreshTurnIsLatest(cfg, s, n, s.keys.writer[key]);
  }
}
