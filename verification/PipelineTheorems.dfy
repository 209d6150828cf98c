/**
 What the middleware guarantees: theorems over every run of every number of requests, from empty
 stores and seeded wallets.
 */
module PipelineTheorems {
  import opened Common
  import opened Pipeline
  import opened PipelineInvariant
  import opened PipelineKeys
  import opened PipelineSafety
  import Ledger
  import Velocity
  import VR = VelocityRuns
  import Wallet

  /** Empty stores, an empty ledger, and wallets holding their seeds. */
  ghost predicate Booted(s: State) {
    Initial(s) && Wallet.Balanced(s.money.bank)
  }

  lemma Reached(cfg: Config, s0: State, steps: seq<Step>)
    requires Booted(s0) && Legal(cfg, s0, steps)
    ensures Inv(cfg, Final(cfg, s0, steps))
  {
    InitialInv(cfg, s0);
    RunKeepsInv(cfg, s0, steps);
  }

  // ---------------------------------------------------------------------------------------
  // At most once
  // ---------------------------------------------------------------------------------------

  /** Two grants of one idempotency key are more than the TTL apart. */
  lemma GrantsAreSpaced(cfg: Config, s0: State, steps: seq<Step>, i: nat, j: nat)
    requires Booted(s0) && Legal(cfg, s0, steps)
    requires i < j < |Final(cfg, s0, steps).keys.grants|
    requires Final(cfg, s0, steps).keys.grants[i].key == Final(cfg, s0, steps).keys.grants[j].key
    ensures var grants := Final(cfg, s0, steps).keys.grants; grants[j].at > grants[i].at + cfg.idemTtl
  {
    Reached(cfg, s0, steps);
  }

  /** Two withdrawals of one key: different requests, with grants more than the TTL apart. */
  ghost predicate FarApart(cfg: Config, s: State, a: nat, b: nat)
    requires a < |s.money.debits| && b < |s.money.debits|
  {
    var p, q := s.money.debits[a].req, s.money.debits[b].req;
    && p != q && p in s.reqs && q in s.reqs && s.reqs[p].grant.Some? && s.reqs[q].grant.Some?
    && s.reqs[p].grant.value < |s.keys.grants| && s.reqs[q].grant.value < |s.keys.grants|
    && var t, u := s.keys.grants[s.reqs[p].grant.value].at, s.keys.grants[s.reqs[q].grant.value].at;
       (t > u + cfg.idemTtl || u > t + cfg.idemTtl) && s.now - s.start > cfg.idemTtl
  }

  lemma WithdrawalsFarApart(cfg: Config, s: State, a: nat, b: nat)
    requires Shapes(cfg, s.reqs) && KeyLink(s.reqs, s.keys) && DebitLink(s.reqs, s.money)
    requires GrantInv(s.keys, s.start, s.now, cfg.idemTtl)
    requires a < b < |s.money.debits| && s.money.debits[a].key == s.money.debits[b].key != ""
    ensures FarApart(cfg, s, a, b)
  {
    var p, q := s.money.debits[a].req, s.money.debits[b].req;
    assert Shape(cfg, s.reqs[p]) && Shape(cfg, s.reqs[q]);
    assert DebitOk(s.money, p, s.reqs[p]) && DebitOk(s.money, q, s.reqs[q]);
    assert KeyOk(s.keys, p, s.reqs[p]) && KeyOk(s.keys, q, s.reqs[q]);
    var i, j := s.reqs[p].grant.value, s.reqs[q].grant.value;
    assert GrantOk(s.keys, s.start, s.now, cfg.idemTtl, i) && GrantOk(s.keys, s.start, s.now, cfg.idemTtl, j);
  }

  /**
   Two withdrawals that went through under one key come from different requests whose grants are
   more than the TTL apart. So in a run no longer than the TTL a key moves money at most once.
   */
  lemma OneWithdrawalPerKey(cfg: Config, s0: State, steps: seq<Step>, a: nat, b: nat)
    requires Booted(s0) && Legal(cfg, s0, steps)
    requires var debits := Final(cfg, s0, steps).money.debits;
             a < b < |debits| && debits[a].key == debits[b].key != ""
    ensures FarApart(cfg, Final(cfg, s0, steps), a, b)
  {
    Reached(cfg, s0, steps);
    WithdrawalsFarApart(cfg, Final(cfg, s0, steps), a, b);
  }

  /** The ledger's records are the withdrawals that went through, and the money adds up. */
  lemma MoneyAddsUp(cfg: Config, s0: State, steps: seq<Step>)
    requires Booted(s0) && Legal(cfg, s0, steps)
    ensures var m := Final(cfg, s0, steps).money;
            && Wallet.Balanced(m.bank)
            && var recs := Ledger.ListOf(m.bank.book, Wallet.LEDGER_ACCOUNT);
               |recs| == |m.debits| && forall d :: 0 <= d < |recs| ==> RecordsDebit(recs[d], m.debits[d])
  {
    Reached(cfg, s0, steps);
  }

  /** A request that ends in any refusal, error or replay has not run the handler nor moved money. */
  lemma RefusedMeansUntouched(cfg: Config, s0: State, steps: seq<Step>, r: nat)
    requires Booted(s0) && Legal(cfg, s0, steps)
    requires r in Final(cfg, s0, steps).reqs
    requires Final(cfg, s0, steps).reqs[r].stage.Done? && Final(cfg, s0, steps).reqs[r].stage != Done(Served)
    ensures var s := Final(cfg, s0, steps);
            && s.reqs[r].work == NO_WORK && s.reqs[r].stored.None?
            && (forall d :: 0 <= d < |s.money.debits| ==> s.money.debits[d].req != r)
            && (forall n :: 0 <= n < |s.keys.stores| ==> s.keys.stores[n].req != r)
  {
    Reached(cfg, s0, steps);
    assert Shape(cfg, Final(cfg, s0, steps).reqs[r]);
  }

  // ---------------------------------------------------------------------------------------
  // Faithful replay
  // ---------------------------------------------------------------------------------------

  /**
   A cached reply is the full body of chunks written by a 2xx handler that had been granted the key;
   and that handler is the one granted the key last before the reply exactly when it stored its
   response in turn, as every response stored within the TTL of its grant is.
   */
  ghost predicate Faithful(cfg: Config, s: State, r: nat)
    requires r in s.reqs && s.reqs[r].replay.Some?
  {
    var key, rp := s.reqs[r].info.idemKey, s.reqs[r].replay.value;
    && s.reqs[r].stage == Done(Replayed(rp.body))
    && rp.epoch < rp.seen <= |s.keys.grants| && s.keys.grants[rp.epoch].key == key
    && (forall i :: rp.epoch < i < rp.seen ==> s.keys.grants[i].key != key)
    && rp.from < |s.keys.stores|
    && var st := s.keys.stores[rp.from];
       && st.key == key && st.req in s.reqs && rp.body == Body(s.reqs[st.req].work.chunks)
       && 200 <= s.reqs[st.req].work.status < 300
       && st.grant < |s.keys.grants| && s.keys.grants[st.grant].req == st.req && s.keys.grants[st.grant].key == key
       && (st.req == s.keys.grants[rp.epoch].req <==> st.inTurn)
       && (st.at <= s.keys.grants[st.grant].at + cfg.idemTtl ==> st.inTurn)
  }

  lemma ReplayIsFaithful(cfg: Config, s0: State, steps: seq<Step>, r: nat)
    requires Booted(s0) && Legal(cfg, s0, steps)
    requires r in Final(cfg, s0, steps).reqs && Final(cfg, s0, steps).reqs[r].replay.Some?
    ensures Faithful(cfg, Final(cfg, s0, steps), r)
  {
    Reached(cfg, s0, steps);
    var s := Final(cfg, s0, steps);
    var rp := s.reqs[r].replay.value;
    assert Shape(cfg, s.reqs[r]);
    assert ReplayOk(s.keys, s.reqs[r].info.idemKey, rp);
    assert StoreOk(s.keys, cfg.idemTtl, rp.from);
    var q := s.keys.stores[rp.from].req;
    assert KeyOk(s.keys, q, s.reqs[q]);
  }

  /** Replies to requests r1 and r2 with the same key, and no grant of the key between them. */
  ghost predicate SameEpoch(s: State, r1: nat, r2: nat) {
    && r1 in s.reqs && r2 in s.reqs && s.reqs[r1].replay.Some? && s.reqs[r2].replay.Some?
    && var key, x, y := s.reqs[r1].info.idemKey, s.reqs[r1].replay.value, s.reqs[r2].replay.value;
       && s.reqs[r2].info.idemKey == key && x.seen <= y.seen <= |s.keys.grants|
       && forall i :: x.seen <= i < y.seen ==> s.keys.grants[i].key != key
  }

  /** Every response stored under the key was stored in turn. */
  predicate AllInTurn(k: Keys, key: string) {
    forall n :: 0 <= n < |k.stores| && k.stores[n].key == key ==> k.stores[n].inTurn
  }

  /** Every response stored under the key was stored within the TTL of the claim it answers. */
  predicate AllTimely(cfg: Config, k: Keys, key: string) {
    forall n :: 0 <= n < |k.stores| && k.stores[n].key == key ==>
      k.stores[n].grant < |k.grants| && k.stores[n].at <= k.grants[k.stores[n].grant].at + cfg.idemTtl
  }

  /** Callers that complete within the TTL of their claim, or never, store in turn. */
  lemma TimelyIsInTurn(cfg: Config, s0: State, steps: seq<Step>, key: string)
    requires Booted(s0) && Legal(cfg, s0, steps) && AllTimely(cfg, Final(cfg, s0, steps).keys, key)
    ensures AllInTurn(Final(cfg, s0, steps).keys, key)
  {
    Reached(cfg, s0, steps);
    var k := Final(cfg, s0, steps).keys;
    forall n | 0 <= n < |k.stores| && k.stores[n].key == key
      ensures k.stores[n].inTurn
    {
      assert StoreOk(k, cfg.idemTtl, n);
    }
  }

  /** If responses are stored in turn, all replies of a key between two consecutive grants are identical. */
  lemma RepliesAgreeBetweenGrants(cfg: Config, s0: State, steps: seq<Step>, r1: nat, r2: nat)
    requires Booted(s0) && Legal(cfg, s0, steps)
    requires SameEpoch(Final(cfg, s0, steps), r1, r2)
    requires AllInTurn(Final(cfg, s0, steps).keys, Final(cfg, s0, steps).reqs[r1].info.idemKey)
    ensures Final(cfg, s0, steps).reqs[r1].stage == Final(cfg, s0, steps).reqs[r2].stage
  {
    ReplayIsFaithful(cfg, s0, steps, r1);
    ReplayIsFaithful(cfg, s0, steps, r2);
    var s := Final(cfg, s0, steps);
    var x, y := s.reqs[r1].replay.value, s.reqs[r2].replay.value;
    assert x.epoch == y.epoch;
  }

  /** A response worth caching is stored before the request gives up its lock. */
  lemma StoredBeforeRelease(cfg: Config, s0: State, steps: seq<Step>, r: nat)
    requires Booted(s0) && Legal(cfg, s0, steps)
    requires var s := Final(cfg, s0, steps);
             r in s.reqs && Settled(s.reqs[r].stage) && !s.reqs[r].work.panicked && Cacheable(s.reqs[r])
    ensures var s := Final(cfg, s0, steps);
            && s.reqs[r].stored.Some? && s.reqs[r].stored.value < |s.keys.stores|
            && var st := s.keys.stores[s.reqs[r].stored.value];
               st.req == r && st.body == Body(s.reqs[r].work.chunks)
  {
    Reached(cfg, s0, steps);
    var s := Final(cfg, s0, steps);
    assert Shape(cfg, s.reqs[r]) && KeyOk(s.keys, r, s.reqs[r]);
  }

  /** Grant i is still within its TTL, and its request was refused by a later layer. */
  ghost predicate RefusedAfterGrant(cfg: Config, s: State, i: nat) {
    && i < |s.keys.grants| && s.now <= s.keys.grants[i].at + cfg.idemTtl && s.keys.grants[i].req in s.reqs
    && var stage := s.reqs[s.keys.grants[i].req].stage;
       stage.Done? && stage != Done(Served)
  }

  lemma BurntKey(cfg: Config, s: State, i: nat)
    requires Shapes(cfg, s.reqs) && KeyLink(s.reqs, s.keys) && KeysInv(s.keys, s.start, s.now, cfg.idemTtl)
    requires RefusedAfterGrant(cfg, s, i) && AllInTurn(s.keys, s.keys.grants[i].key)
    ensures var key := s.keys.grants[i].key; !Grantable(s.keys, key, s.now) && s.keys.entries[key].value == []
  {
    var key, r := s.keys.grants[i].key, s.keys.grants[i].req;
    assert GrantOk(s.keys, s.start, s.now, cfg.idemTtl, i);
    assert Shape(cfg, s.reqs[r]);
    TimelyStorerHolds(s.keys, s.start, s.now, cfg.idemTtl, i);
    assert WriterOk(s.keys, key);
    assert s.keys.entries[key].value != [] ==> StoreOk(s.keys, cfg.idemTtl, s.keys.writer[key]);
  }

  /**
   A key granted to a request that was then refused (by velocity or by the lock) stays taken: until
   the TTL is over, every further claim of it is answered with a conflict.
   */
  lemma RefusedGrantBurnsKey(cfg: Config, s0: State, steps: seq<Step>, i: nat, other: nat)
    requires Booted(s0) && Legal(cfg, s0, steps)
    requires RefusedAfterGrant(cfg, Final(cfg, s0, steps), i)
    requires AllInTurn(Final(cfg, s0, steps).keys, Final(cfg, s0, steps).keys.grants[i].key)
    ensures var s := Final(cfg, s0, steps);
            ClaimKey(s.keys, s.keys.grants[i].key, other, s.now, cfg.idemTtl) == (s.keys, Refused)
  {
    Reached(cfg, s0, steps);
    var s := Final(cfg, s0, steps);
    BurntKey(cfg, s, i);
    assert Occupied(s.keys.entries[s.keys.grants[i].key]);
    ClaimCases(s.keys, s.keys.grants[i].key, other, s.now, cfg.idemTtl);
  }

  // ---------------------------------------------------------------------------------------
  // The critical section
  // ---------------------------------------------------------------------------------------

  /** In any state whose requests and leases agree: one request per lock key within its lease. */
  lemma ExclusiveIn(cfg: Config, s: State, r1: nat, r2: nat)
    requires Shapes(cfg, s.reqs) && LockLink(cfg, s.reqs, s.locks, s.now) && cfg.requireLock
    requires r1 in s.reqs && r2 in s.reqs && s.reqs[r1].info.lockKey == s.reqs[r2].info.lockKey
    requires InSection(s.reqs[r1].stage) && InSection(s.reqs[r2].stage)
    requires s.reqs[r1].tenure.Some? ==> s.now < s.reqs[r1].tenure.value.since + cfg.lockTtl
    requires s.reqs[r2].tenure.Some? ==> s.now < s.reqs[r2].tenure.value.since + cfg.lockTtl
    ensures r1 == r2
  {
    assert Shape(cfg, s.reqs[r1]) && Shape(cfg, s.reqs[r2]);
    assert TenureOk(cfg, s.locks, s.now, r1, s.reqs[r1]) && TenureOk(cfg, s.locks, s.now, r2, s.reqs[r2]);
  }

  /** Two requests in the section of one lock key, both within their lease, are the same request. */
  lemma SectionIsExclusive(cfg: Config, s0: State, steps: seq<Step>, r1: nat, r2: nat)
    requires Booted(s0) && Legal(cfg, s0, steps) && cfg.requireLock
    requires var s := Final(cfg, s0, steps);
             && r1 in s.reqs && r2 in s.reqs && s.reqs[r1].info.lockKey == s.reqs[r2].info.lockKey
             && InSection(s.reqs[r1].stage) && InSection(s.reqs[r2].stage)
             && (s.reqs[r1].tenure.Some? ==> s.now < s.reqs[r1].tenure.value.since + cfg.lockTtl)
             && (s.reqs[r2].tenure.Some? ==> s.now < s.reqs[r2].tenure.value.since + cfg.lockTtl)
    ensures r1 == r2
  {
    Reached(cfg, s0, steps);
    ExclusiveIn(cfg, Final(cfg, s0, steps), r1, r2);
  }

  /** No finished request leaves a lock behind: every lease belongs to a request still in its section. */
  lemma LeasesBelongToSections(cfg: Config, s0: State, steps: seq<Step>, key: string)
    requires Booted(s0) && Legal(cfg, s0, steps)
    requires key in Final(cfg, s0, steps).locks.leases
    ensures var s := Final(cfg, s0, steps);
            exists r :: r in s.reqs && InSection(s.reqs[r].stage) && s.reqs[r].info.lockKey == key
                        && s.reqs[r].tenure.Some? && s.reqs[r].tenure.value.token == s.locks.leases[key].token
  {
    Reached(cfg, s0, steps);
    var s := Final(cfg, s0, steps);
    assert LeaseOk(cfg, s.reqs, s.locks, key);
  }

  /**
   A release, however late, touches only its own lease: whatever lease another request has drawn
   stays as it is, and every lease in the store has been drawn by some request.
   */
  lemma ReleaseSparesOthers(cfg: Config, s0: State, steps: seq<Step>, r: nat, key: string)
    requires Booted(s0) && Legal(cfg, s0, steps) && Enabled(cfg, Final(cfg, s0, steps), Release(r))
    requires key in Final(cfg, s0, steps).locks.leases
    ensures var s := Final(cfg, s0, steps);
            var e, after := s.locks.leases[key], Releases(s, r).locks.leases;
            && e.token in s.locks.owner
            && (s.locks.owner[e.token] != r ==> key in after && after[key] == e)
            && (s.locks.owner[e.token] == r ==> key !in after)
  {
    Reached(cfg, s0, steps);
    var s := Final(cfg, s0, steps);
    assert Shape(cfg, s.reqs[r]) && TenureOk(cfg, s.locks, s.now, r, s.reqs[r]);
    assert LeaseOk(cfg, s.reqs, s.locks, key);
  }

  // ---------------------------------------------------------------------------------------
  // Velocity inside the pipeline
  // ---------------------------------------------------------------------------------------

  /** The velocity action of a step on key k, if it has one. */
  function VelocityMove(cfg: Config, s: State, step: Step, k: string): seq<VR.Move>
    requires Enabled(cfg, s, step)
  {
    match step
    case Tick(delta) => [VR.Tick(delta)]
    case VelocityBegin(r) => if VelKey(cfg, s, r) == k && k != "" then [VR.Act(VR.Begin(r))] else []
    case VelocityEval(r) => if VelKey(cfg, s, r) == k then [VR.Act(VR.Eval(r))] else []
    case VelocityLook(r) => if VelKey(cfg, s, r) == k then [VR.Act(VR.Look(r))] else []
    case VelocityDecide(r) => if VelKey(cfg, s, r) == k then [VR.Act(VR.Decide(r))] else []
    case VelocityStamp(r) => if VelKey(cfg, s, r) == k then [VR.Act(VR.Stamp(r))] else []
    case VelocityAppend(r) => if VelKey(cfg, s, r) == k then [VR.Act(VR.Append(r))] else []
    case _ => []
  }

  /** What a run of the pipeline does to velocity key k. */
  function VelocityRun(cfg: Config, s: State, steps: seq<Step>, k: string): (r: seq<VR.Move>)
    requires Legal(cfg, s, steps)
    decreases |steps|
  {
    if steps == [] then [] else
      VelocityMove(cfg, s, steps[0], k) + VelocityRun(cfg, Apply(cfg, s, steps[0]), steps[1..], k)
  }

  function WorldOf(s: State, k: string): VR.World {
    VR.World(s.now, KeyOf(s, k))
  }

  lemma StepProjects(cfg: Config, s: State, step: Step, k: string)
    requires Enabled(cfg, s, step)
    ensures var moves := VelocityMove(cfg, s, step, k);
            && |moves| <= 1
            && (moves == [] ==> WorldOf(Apply(cfg, s, step), k) == WorldOf(s, k))
            && (moves != [] ==> VR.CanMove(cfg.rules, WorldOf(s, k), moves[0])
                                && WorldOf(Apply(cfg, s, step), k) == VR.Moved(cfg.rules, WorldOf(s, k), moves[0]))
  {
  }

  /** Every run of the pipeline is, on each velocity key, a run of the velocity machine. */
  lemma {:induction false} PipelineIsVelocityRun(cfg: Config, s: State, steps: seq<Step>, k: string)
    requires Legal(cfg, s, steps)
    ensures VR.Legal(cfg.rules, WorldOf(s, k), VelocityRun(cfg, s, steps, k))
    ensures VR.Final(cfg.rules, WorldOf(s, k), VelocityRun(cfg, s, steps, k)) == WorldOf(Final(cfg, s, steps), k)
    decreases |steps|
  {
    if steps != [] {
      var s' := Apply(cfg, s, steps[0]);
      var first, rest := VelocityMove(cfg, s, steps[0], k), VelocityRun(cfg, s', steps[1..], k);
      StepProjects(cfg, s, steps[0], k);
      PipelineIsVelocityRun(cfg, s', steps[1..], k);
      if first == [] {
        assert first + rest == rest;
      } else {
        assert (first + rest)[0] == first[0] && (first + rest)[1..] == rest;
      }
    }
  }

  /** At no point of the run are more than c requests between passing rule j on velocity key k and recording there. */
  predicate AtMostBetween(cfg: Config, s: State, steps: seq<Step>, k: string, j: nat, c: nat)
    requires Legal(cfg, s, steps)
    decreases |steps|
  {
    |VR.PastRule(KeyOf(s, k), j)| <= c &&
    (steps == [] || AtMostBetween(cfg, Apply(cfg, s, steps[0]), steps[1..], k, j, c))
  }

  lemma {:induction false} BetweenProjects(cfg: Config, s: State, steps: seq<Step>, k: string, j: nat, c: nat)
    requires Legal(cfg, s, steps) && AtMostBetween(cfg, s, steps, k, j, c)
    requires VR.Legal(cfg.rules, WorldOf(s, k), VelocityRun(cfg, s, steps, k))
    ensures VR.AtMostPast(cfg.rules, WorldOf(s, k), VelocityRun(cfg, s, steps, k), j, c)
    decreases |steps|
  {
    if steps != [] {
      var s' := Apply(cfg, s, steps[0]);
      var first, rest := VelocityMove(cfg, s, steps[0], k), VelocityRun(cfg, s', steps[1..], k);
      StepProjects(cfg, s, steps[0], k);
      if first == [] {
        assert first + rest == rest;
      } else {
        assert (first + rest)[0] == first[0] && (first + rest)[1..] == rest;
      }
      BetweenProjects(cfg, s', steps[1..], k, j, c);
    }
  }

  /**
   The rate rule in the pipeline: in every run in which at most c requests are ever between passing
   rule j on a key and recording there, no interval of the rule's window holds more than n + c - 1
   recorded actions of the key.
   */
  lemma PipelineRateBound(cfg: Config, s0: State, steps: seq<Step>, k: string, j: nat, c: nat, from: int)
    requires Initial(s0) && Legal(cfg, s0, steps) && AtMostBetween(cfg, s0, steps, k, j, c) && j < |cfg.rules|
    requires cfg.rules[j].RateOverWindow? && Velocity.WellFormed(cfg.rules[j])
    requires VR.LooksBack(cfg.rules, cfg.rules[j].window)
    ensures Velocity.CountIn(KeyOf(Final(cfg, s0, steps), k).log, from, cfg.rules[j].window) <= cfg.rules[j].n + c - 1
  {
    PipelineIsVelocityRun(cfg, s0, steps, k);
    BetweenProjects(cfg, s0, steps, k, j, c);
    VR.RateBoundFromEmpty(cfg.rules, s0.now, VelocityRun(cfg, s0, steps, k), j, c, from);
  }
}
