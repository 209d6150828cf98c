/**
 Runs of the middleware in which two tempting claims fail: the ledger's chain breaking under the
 per-account lock, and two replies of one key, between the same two grants, that differ.
 */
module PipelineWitness {
  import opened Common
  import opened Pipeline
  import opened PipelineTheorems
  import opened PipelineLedger
  import Idem = Idempotency
  import Ledger
  import Lock
  import Text
  import Velocity
  import VR = VelocityRuns
  import Wallet

  // ---------------------------------------------------------------------------------------
  // Building runs
  // ---------------------------------------------------------------------------------------

  ghost predicate Runs(cfg: Config, s: State, steps: seq<Step>, s': State) {
    Legal(cfg, s, steps) && Final(cfg, s, steps) == s'
  }

  /** One more step at the end. */
  lemma {:induction false} Then(cfg: Config, s0: State, steps: seq<Step>, s: State, step: Step)
    returns (all: seq<Step>, s': State)
    requires Runs(cfg, s0, steps, s) && Enabled(cfg, s, step)
    ensures all == steps + [step] && s' == Apply(cfg, s, step) && Runs(cfg, s0, all, s')
    decreases |steps|
  {
    all, s' := steps + [step], Apply(cfg, s, step);
    if steps == [] {
      assert all[1..] == [] && Legal(cfg, s', []);
    } else {
      var rest, _ := Then(cfg, Apply(cfg, s0, steps[0]), steps[1..], s, step);
      assert all[0] == steps[0] && all[1..] == rest;
    }
  }

  function Fresh(info: Info, stage: Stage): Proc {
    Proc(info, stage, None, None, None, None, NO_WORK)
  }

  /** Both limiters let the request through. */
  lemma Knock(cfg: Config, s0: State, steps: seq<Step>, s: State, r: nat, info: Info)
    returns (all: seq<Step>, s': State)
    requires Runs(cfg, s0, steps, s) && r !in s.reqs && info.idemKey != ""
    ensures Runs(cfg, s0, all, s') && s' == Put(s, r, Fresh(info, RatePassed))
  {
    var s1, s2;
    all, s1 := Then(cfg, s0, steps, s, Arrive(r, info));
    assert s1 == Put(s, r, Fresh(info, Arrived));
    all, s2 := Then(cfg, s0, all, s1, IpLimit(r, Allow));
    assert s2.reqs == s.reqs[r := Fresh(info, IpPassed)];
    all, s' := Then(cfg, s0, all, s2, RateLimit(r, Allow));
    assert s'.reqs == s.reqs[r := Fresh(info, RatePassed)];
  }

  /** s' differs from s in the stage of r and in velocity key k. */
  ghost predicate OnlyChecked(s: State, s': State, r: nat, k: string, stage: Stage) {
    && r in s.reqs && s' == s.(vel := s'.vel, reqs := s.reqs[r := s.reqs[r].(stage := stage)])
    && forall q: string :: q != k ==> KeyOf(s', q) == KeyOf(s, q)
  }

  predicate AllWellFormed(rules: seq<Velocity.Rule>) {
    forall i :: 0 <= i < |rules| ==> Velocity.WellFormed(rules[i])
  }

  /** An unused velocity key lets every check pass. */
  lemma {:induction false} PassRules(cfg: Config, s0: State, steps: seq<Step>, s: State, r: nat, i: nat)
    returns (all: seq<Step>, s': State)
    requires Runs(cfg, s0, steps, s) && AllWellFormed(cfg.rules) && i <= |cfg.rules| && At(s, r, Checking)
    requires var k := KeyOf(s, VelKey(cfg, s, r)); k.list == [] && r in k.checks && k.checks[r] == VR.Evaluating(i)
    ensures Runs(cfg, s0, all, s') && OnlyChecked(s, s', r, VelKey(cfg, s, r), Cleared)
    decreases |cfg.rules| - i
  {
    var s1;
    if i == |cfg.rules| {
      all, s1 := Then(cfg, s0, steps, s, VelocityStamp(r));
      assert s1 == s.(vel := s1.vel);
      all, s' := Then(cfg, s0, all, s1, VelocityAppend(r));
    } else {
      EvalPasses(cfg, s, r, i);
      all, s1 := Then(cfg, s0, steps, s, VelocityEval(r));
      all, s' := PassRules(cfg, s0, all, s1, r, i + 1);
      assert s'.reqs == s.reqs[r := s.reqs[r].(stage := Cleared)];
    }
  }

  lemma EvalPasses(cfg: Config, s: State, r: nat, i: nat)
    requires AllWellFormed(cfg.rules) && i < |cfg.rules| && At(s, r, Checking)
    requires var k := KeyOf(s, VelKey(cfg, s, r)); k.list == [] && r in k.checks && k.checks[r] == VR.Evaluating(i)
    ensures Enabled(cfg, s, VelocityEval(r))
    ensures var s' := Apply(cfg, s, VelocityEval(r));
            && OnlyChecked(s, s', r, VelKey(cfg, s, r), Checking)
            && var k := KeyOf(s', VelKey(cfg, s, r));
               k.list == [] && r in k.checks && k.checks[r] == VR.Evaluating(i + 1)
  {
    assert Velocity.Judge(cfg.rules[i], [], s.now).Pass? && Velocity.ListAfter(cfg.rules[i], [], s.now) == [];
  }

  /** Nothing stands in the way of request r. */
  ghost predicate Welcome(cfg: Config, s: State, r: nat, info: Info, token: string) {
    var k := VelocityKey(info.account, cfg.action);
    && r !in s.reqs && info.idemKey != ""
    && ClaimKey(s.keys, info.idemKey, r, s.now, cfg.idemTtl).1 == Granted(|s.keys.grants|)
    && AllWellFormed(cfg.rules) && k != "" && KeyOf(s, k).list == [] && r !in KeyOf(s, k).checks
    && info.lockKey != "" && !Lock.Held(s.locks.leases, info.lockKey, s.now) && token !in s.locks.owner
  }

  function LocksAfter(cfg: Config, s: State, r: nat, info: Info, token: string): Locks {
    if !cfg.requireLock then s.locks else
    Locks(Lock.Acquired(s.locks.leases, info.lockKey, token, s.now, cfg.lockTtl), s.locks.owner[token := r])
  }

  function ProcAfter(cfg: Config, s: State, info: Info, token: string): Proc {
    Fresh(info, Running).(grant := Some(|s.keys.grants|), tenure := TenureOf(cfg, s, token))
  }

  function TenureOf(cfg: Config, s: State, token: string): Option<Tenure> {
    if cfg.requireLock then Some(Tenure(token, s.now)) else None
  }

  /** Request r is in its handler, and s' otherwise differs from s only by its claim, its check and its lock. */
  ghost predicate Entered(cfg: Config, s: State, s': State, r: nat, info: Info, token: string) {
    && s' == s.(keys := ClaimKey(s.keys, info.idemKey, r, s.now, cfg.idemTtl).0,
                locks := LocksAfter(cfg, s, r, info, token), vel := s'.vel,
                reqs := s.reqs[r := ProcAfter(cfg, s, info, token)])
    && forall q: string :: q != VelocityKey(info.account, cfg.action) ==> KeyOf(s', q) == KeyOf(s, q)
  }

  /** The claim is granted. */
  lemma GrantStep(cfg: Config, s0: State, steps: seq<Step>, s: State, r: nat, info: Info)
    returns (all: seq<Step>, s': State)
    requires Runs(cfg, s0, steps, s) && r !in s.reqs && info.idemKey != ""
    requires ClaimKey(s.keys, info.idemKey, r, s.now, cfg.idemTtl).1 == Granted(|s.keys.grants|)
    ensures Runs(cfg, s0, all, s')
    ensures s' == s.(keys := ClaimKey(s.keys, info.idemKey, r, s.now, cfg.idemTtl).0,
                     reqs := s.reqs[r := Fresh(info, Claimed).(grant := Some(|s.keys.grants|))])
  {
    var s1;
    all, s1 := Knock(cfg, s0, steps, s, r, info);
    all, s' := Then(cfg, s0, all, s1, Claim(r));
    assert s'.reqs == s.reqs[r := Fresh(info, Claimed).(grant := Some(|s.keys.grants|))];
  }

  /** The velocity check passes. */
  lemma CheckPasses(cfg: Config, s0: State, steps: seq<Step>, s: State, r: nat) returns (all: seq<Step>, s': State)
    requires Runs(cfg, s0, steps, s) && AllWellFormed(cfg.rules) && At(s, r, Claimed) && VelKey(cfg, s, r) != ""
    requires var k := KeyOf(s, VelKey(cfg, s, r)); k.list == [] && r !in k.checks
    ensures Runs(cfg, s0, all, s') && OnlyChecked(s, s', r, VelKey(cfg, s, r), Cleared)
  {
    var s1;
    all, s1 := Then(cfg, s0, steps, s, VelocityBegin(r));
    assert OnlyChecked(s, s1, r, VelKey(cfg, s, r), Checking);
    all, s' := PassRules(cfg, s0, all, s1, r, 0);
    assert s'.reqs == s.reqs[r := s.reqs[r].(stage := Cleared)];
  }

  lemma Enter(cfg: Config, s0: State, steps: seq<Step>, s: State, r: nat, info: Info, token: string)
    returns (all: seq<Step>, s': State)
    requires Runs(cfg, s0, steps, s) && Welcome(cfg, s, r, info, token)
    ensures Runs(cfg, s0, all, s') && Entered(cfg, s, s', r, info, token)
  {
    var s1, s2;
    all, s1 := GrantStep(cfg, s0, steps, s, r, info);
    assert forall q: string :: KeyOf(s1, q) == KeyOf(s, q);
    all, s2 := CheckPasses(cfg, s0, all, s1, r);
    assert s2.reqs[r] == Fresh(info, Cleared).(grant := Some(|s.keys.grants|)) && s2.locks == s.locks;
    all, s' := LockTaken(cfg, s0, all, s2, r, token);
    assert s'.reqs == s.reqs[r := ProcAfter(cfg, s, info, token)];
  }

  /** The lock is free. */
  lemma LockTaken(cfg: Config, s0: State, steps: seq<Step>, s: State, r: nat, token: string)
    returns (all: seq<Step>, s': State)
    requires Runs(cfg, s0, steps, s) && At(s, r, Cleared) && token !in s.locks.owner && s.reqs[r].tenure.None?
    requires s.reqs[r].info.lockKey != "" && !Lock.Held(s.locks.leases, s.reqs[r].info.lockKey, s.now)
    ensures Runs(cfg, s0, all, s') && forall q: string :: KeyOf(s', q) == KeyOf(s, q)
    ensures s' == s.(locks := LocksAfter(cfg, s, r, s.reqs[r].info, token),
                     reqs := s.reqs[r := s.reqs[r].(stage := Running, tenure := TenureOf(cfg, s, token))])
  {
    all, s' := Then(cfg, s0, steps, s, TryLock(r, token));
  }

  // ---------------------------------------------------------------------------------------
  // Two wallets, one chain
  // ---------------------------------------------------------------------------------------

  const NO_KEYS := Keys(map[], [], [], map[], map[])

  /** Two wallets with one cent each, and nothing else. */
  function TwoWallets(a: string, b: string): State {
    var one := Wallet.Balance(1, 1);
    var bank := Wallet.Bank(map[a := one, b := one], map[]);
    State(0, 0, map[], NO_KEYS, map[], Locks(map[], map[]), Money(bank, map[], []))
  }

  lemma TwoWalletsBooted(a: string, b: string)
    requires a != b
    ensures Booted(TwoWallets(a, b))
  {
    var w := TwoWallets(a, b).money.bank.wallets;
    Wallet.GainWithout(w, a);
    Wallet.GainWithout(w - {a}, b);
    assert w - {a} - {b} == map[];
  }

  lemma VelocityKeyInjective(a: string, b: string, action: string)
    requires VelocityKey(a, action) == VelocityKey(b, action)
    ensures a == b
  {
    if action != "" {
      assert |a| == |b| && VelocityKey(a, action)[..|a|] == a && VelocityKey(b, action)[..|b|] == b;
    }
  }

  function InfoOf(account: string, idemKey: string): Info {
    Info("", account, account, idemKey)
  }

  /** Requests 1 and 2 are in their handlers, each for its own wallet and under its own lock. */
  ghost predicate BothIn(s: State, a: string, b: string) {
    && At(s, 1, Running) && At(s, 2, Running) && s.reqs[1].work == NO_WORK == s.reqs[2].work
    && s.reqs[1].info.account == a != b == s.reqs[2].info.account
    && s.money == TwoWallets(a, b).money
  }

  /** Both have read the empty ledger. */
  ghost predicate BothRead(s: State, a: string, b: string) {
    && At(s, 1, Running) && At(s, 2, Running) && a != b
    && s.reqs[1].info.account == a && s.reqs[2].info.account == b
    && s.money == TwoWallets(a, b).money.(mutex := map[a := Writing(1, 1, []), b := Writing(2, 1, [])])
  }

  /** The requests are the same ones, under the same keys, at the same time. */
  ghost predicate SameInfo(s: State, s': State) {
    s'.now == s.now && s'.reqs.Keys == s.reqs.Keys && forall r :: r in s.reqs ==> s'.reqs[r].info == s.reqs[r].info
  }

  lemma ReadBoth(cfg: Config, s0: State, steps: seq<Step>, s: State, a: string, b: string)
    returns (all: seq<Step>, s': State)
    requires Runs(cfg, s0, steps, s) && BothIn(s, a, b)
    ensures Runs(cfg, s0, all, s') && BothRead(s', a, b) && SameInfo(s, s')
  {
    var s1;
    all, s1 := Then(cfg, s0, steps, s, Withdraw(1, 1));
    assert s1.money.bank.wallets == s.money.bank.wallets;
    assert s1.money == s.money.(mutex := map[a := Writing(1, 1, [])]);
    all, s' := Then(cfg, s0, all, s1, Withdraw(2, 1));
    assert s'.money.bank.wallets == s.money.bank.wallets;
    assert s'.money.mutex == map[a := Writing(1, 1, []), b := Writing(2, 1, [])];
  }

  /** What a withdrawal of one cent records when it has read the empty ledger. */
  function FirstRecord(h: Ledger.Hash, who: string, at: Text.Timestamp): Ledger.Record {
    Ledger.NewRecord(h, [], Wallet.LEDGER_ACCOUNT, Wallet.TxOf(Wallet.Withdraw(1), who, "api", at))
  }

  lemma PostsFirst(cfg: Config, s: State, r: nat, who: string, at: Text.Timestamp)
    requires At(s, r, Running) && s.reqs[r].info.account == who && who in s.money.mutex && Wallet.Cents(s.money.bank)
    requires s.money.mutex[who] == Writing(r, 1, [])
    ensures Enabled(cfg, s, Post(r, at))
    ensures var s' := Apply(cfg, s, Post(r, at));
            && SameInfo(s, s') && s'.money.mutex == s.money.mutex - {who} && Wallet.Cents(s'.money.bank)
            && (forall q :: q in s.reqs ==> s'.reqs[q].stage == s.reqs[q].stage)
            && ListIn(s') == ListIn(s) + [FirstRecord(cfg.h, who, at)]
  {
  }

  lemma AppendBoth(cfg: Config, s0: State, steps: seq<Step>, s: State, a: string, b: string, at: Text.Timestamp)
    returns (all: seq<Step>, s': State)
    requires Runs(cfg, s0, steps, s) && BothRead(s, a, b)
    ensures Runs(cfg, s0, all, s') && SameInfo(s, s')
    ensures ListIn(s') == [FirstRecord(cfg.h, a, at), FirstRecord(cfg.h, b, at)]
  {
    var s1;
    PostsFirst(cfg, s, 1, a, at);
    all, s1 := Then(cfg, s0, steps, s, Post(1, at));
    PostsFirst(cfg, s1, 2, b, at);
    all, s' := Then(cfg, s0, all, s1, Post(2, at));
  }

  /** Two first records make no chain. */
  lemma TwoFirstRecords(h: Ledger.Hash, a: string, b: string, at: Text.Timestamp)
    ensures var recs := [FirstRecord(h, a, at), FirstRecord(h, b, at)];
            && recs[0].id == recs[1].id && !Ledger.Numbered(recs, Wallet.LEDGER_ACCOUNT)
            && (recs[0].recordHash != h(Ledger.GENESIS) ==> !Ledger.ValidChain(h, recs))
  {
    var recs := [FirstRecord(h, a, at), FirstRecord(h, b, at)];
    assert recs[1].id == 1 && recs[1].prevHash == h(Ledger.GENESIS);
    assert recs[..1] == [recs[0]];
    assert Ledger.ValidChain(h, recs) ==> Ledger.Sound(h, recs, 1);
  }

  /** Both requests in their handlers. */
  lemma EnterBoth(cfg: Config, a: string, b: string) returns (steps: seq<Step>, s: State)
    requires AllWellFormed(cfg.rules) && a != b && a != "" && b != ""
    ensures Runs(cfg, TwoWallets(a, b), steps, s) && BothIn(s, a, b) && s.now == 0
    ensures forall r :: r in s.reqs ==> s.reqs[r].info.lockKey == s.reqs[r].info.account
  {
    var s0 := TwoWallets(a, b);
    assert VelocityKey(a, cfg.action) != VelocityKey(b, cfg.action) by {
      if VelocityKey(a, cfg.action) == VelocityKey(b, cfg.action) {
        VelocityKeyInjective(a, b, cfg.action);
      }
    }
    var s1;
    steps, s1 := Enter(cfg, s0, [], s0, 1, InfoOf(a, "x"), "s");
    SecondWelcome(cfg, s0, s1, a, b);
    steps, s := Enter(cfg, s0, steps, s1, 2, InfoOf(b, "y"), "t");
  }

  /**
   The chain under the per-account lock: with the lock required, each request locking its own account,
   and no time passing, two withdrawals from different wallets leave two records with number 1 that both
   link to the start; the verifier rejects them unless the first record's hash is that of the start.
   */
  lemma TwoWalletsBreakChain(cfg: Config, a: string, b: string, at: Text.Timestamp)
    returns (s0: State, steps: seq<Step>)
    requires cfg.requireLock && cfg.lockTtl > 0 && AllWellFormed(cfg.rules) && a != b && a != "" && b != ""
    ensures Booted(s0) && Legal(cfg, s0, steps) && !NoStaleAppend(cfg, s0, steps)
    ensures var s := Final(cfg, s0, steps);
            var recs := ListIn(s);
            && s.now == s0.now && (forall r :: r in s.reqs ==> s.reqs[r].info.lockKey == s.reqs[r].info.account)
            && |recs| == 2 && recs[0].id == recs[1].id && !Ledger.Numbered(recs, Wallet.LEDGER_ACCOUNT)
            && (recs[0].recordHash != cfg.h(Ledger.GENESIS) ==> !Ledger.ValidChain(cfg.h, recs))
  {
    s0 := TwoWallets(a, b);
    TwoWalletsBooted(a, b);
    var s1, s2, s3;
    steps, s1 := EnterBoth(cfg, a, b);
    steps, s2 := ReadBoth(cfg, s0, steps, s1, a, b);
    steps, s3 := AppendBoth(cfg, s0, steps, s2, a, b, at);
    TwoFirstRecords(cfg.h, a, b, at);
    ChainHoldsIffNoStaleAppend(cfg, s0, steps);
  }

  lemma SecondWelcome(cfg: Config, s0: State, s1: State, a: string, b: string)
    requires s0 == TwoWallets(a, b) && Entered(cfg, s0, s1, 1, InfoOf(a, "x"), "s") && AllWellFormed(cfg.rules)
    requires a != b && b != "" && VelocityKey(a, cfg.action) != VelocityKey(b, cfg.action)
    ensures Welcome(cfg, s1, 2, InfoOf(b, "y"), "t")
  {
  }

  // ---------------------------------------------------------------------------------------
  // A late response replayed
  // ---------------------------------------------------------------------------------------

  lemma OneChunk(body: Bytes)
    ensures Body([body]) == body
  {
    assert [body][..0] == [] && Body([]) == [];
  }

  /** The handler of request r writes one chunk and returns. */
  lemma WriteAndReturn(cfg: Config, s0: State, steps: seq<Step>, s: State, r: nat, body: Bytes)
    returns (all: seq<Step>, s': State)
    requires Runs(cfg, s0, steps, s) && At(s, r, Running) && !Posting(s, r) && s.reqs[r].work == NO_WORK
    ensures Runs(cfg, s0, all, s')
    ensures s' == s.(reqs := s.reqs[r := s.reqs[r].(stage := Returned, work := NO_WORK.(chunks := [body]))])
  {
    var s1;
    all, s1 := Then(cfg, s0, steps, s, Write(r, body));
    assert NO_WORK.chunks + [body] == [body];
    assert s1 == s.(reqs := s.reqs[r := s.reqs[r].(work := NO_WORK.(chunks := [body]))]);
    all, s' := Then(cfg, s0, all, s1, Return(r, false));
    assert s'.reqs == s.reqs[r := s.reqs[r].(stage := Returned, work := NO_WORK.(chunks := [body]))];
  }

  /** The response of request r is stored. */
  ghost predicate Responded(cfg: Config, s: State, s': State, r: nat, body: Bytes)
    requires r in s.reqs && s.reqs[r].grant.Some?
  {
    var key, grant := s.reqs[r].info.idemKey, s.reqs[r].grant.value;
    var inTurn := key in s.keys.holder && s.keys.holder[key] == grant;
    && s' == s.(reqs := s'.reqs, keys := Stored(s.keys, Store(key, r, grant, body, s.now, inTurn), cfg.idemTtl))
    && s'.reqs.Keys == s.reqs.Keys && forall q :: q in s.reqs && q != r ==> s'.reqs[q] == s.reqs[q]
  }

  lemma Respond(cfg: Config, s0: State, steps: seq<Step>, s: State, r: nat, body: Bytes)
    returns (all: seq<Step>, s': State)
    requires Runs(cfg, s0, steps, s) && At(s, r, Running) && !Posting(s, r) && s.reqs[r].work == NO_WORK && body != []
    requires s.reqs[r].info.idemKey != "" && s.reqs[r].grant.Some?
    ensures Runs(cfg, s0, all, s') && Responded(cfg, s, s', r, body)
  {
    var s1;
    OneChunk(body);
    all, s1 := WriteAndReturn(cfg, s0, steps, s, r, body);
    all, s' := Then(cfg, s0, all, s1, Complete(r));
  }

  /** A request is answered from the store. */
  lemma Replays(cfg: Config, s0: State, steps: seq<Step>, s: State, r: nat, info: Info, rp: Replay)
    returns (all: seq<Step>, s': State)
    requires Runs(cfg, s0, steps, s) && r !in s.reqs && info.idemKey != ""
    requires ClaimKey(s.keys, info.idemKey, r, s.now, cfg.idemTtl) == (s.keys, Answered(rp))
    ensures Runs(cfg, s0, all, s')
    ensures s' == s.(reqs := s.reqs[r := Fresh(info, Done(Replayed(rp.body))).(replay := Some(rp))])
  {
    var s1;
    all, s1 := Knock(cfg, s0, steps, s, r, info);
    all, s' := Then(cfg, s0, all, s1, Claim(r));
    assert s'.reqs == s.reqs[r := Fresh(info, Done(Replayed(rp.body))).(replay := Some(rp))];
  }

  /** The key granted twice, a lifetime apart. */
  function GrantedTwice(ttl: nat, key: string): Keys {
    var k1 := ClaimKey(NO_KEYS, key, 1, 0, ttl).0;
    ClaimKey(k1, key, 2, ttl + 1, ttl).0
  }

  lemma GrantedTwiceIs(ttl: nat, key: string)
    ensures ClaimKey(NO_KEYS, key, 1, 0, ttl).1 == Granted(0)
    ensures ClaimKey(ClaimKey(NO_KEYS, key, 1, 0, ttl).0, key, 2, ttl + 1, ttl).1 == Granted(1)
    ensures GrantedTwice(ttl, key) == Keys(map[key := Idem.Entry(true, [], ttl + 1 + ttl)],
                                           [Grant(key, 1, 0), Grant(key, 2, ttl + 1)], [], map[key := 1], map[])
  {
    var k1 := ClaimKey(NO_KEYS, key, 1, 0, ttl).0;
    assert k1 == Keys(map[key := Idem.Entry(true, [], ttl)], [Grant(key, 1, 0)], [], map[key := 0], map[]);
  }

  /** After a store, the stored body is what the next claim is answered with. */
  lemma StoredIsReplayed(k: Keys, st: Store, r: nat, ttl: nat)
    requires st.body != [] && st.key in k.holder
    ensures var k' := Stored(k, st, ttl);
            var rp := Replay(st.body, |k.stores|, k.holder[st.key], |k.grants|);
            ClaimKey(k', st.key, r, st.at, ttl) == (k', Answered(rp))
  {
  }

  /** Request 1 is in its handler, its claim has run out, and request 2 is in its handler under the same key. */
  lemma EnterTwice(cfg: Config, a: string, b: string, key: string) returns (steps: seq<Step>, s: State)
    requires AllWellFormed(cfg.rules) && a != b && a != "" && b != "" && key != ""
    ensures Runs(cfg, TwoWallets(a, b), steps, s) && s.now == cfg.idemTtl + 1 && s.money.mutex == map[]
    ensures s.reqs.Keys == {1, 2} && s.keys == GrantedTwice(cfg.idemTtl, key)
    ensures forall r :: r == 1 || r == 2 ==>
              && At(s, r, Running) && s.reqs[r].work == NO_WORK
              && s.reqs[r].info.idemKey == key && s.reqs[r].grant == Some(r - 1)
  {
    var s0 := TwoWallets(a, b);
    GrantedTwiceIs(cfg.idemTtl, key);
    var s1, s2;
    steps, s1 := Enter(cfg, s0, [], s0, 1, InfoOf(a, key), "s");
    steps, s2 := Then(cfg, s0, steps, s1, Tick(cfg.idemTtl + 1));
    SecondWelcomeLate(cfg, s0, s1, a, b, key);
    steps, s := Enter(cfg, s0, steps, s2, 2, InfoOf(b, key), "t");
  }

  lemma SecondWelcomeLate(cfg: Config, s0: State, s1: State, a: string, b: string, key: string)
    requires s0 == TwoWallets(a, b) && Entered(cfg, s0, s1, 1, InfoOf(a, key), "s") && AllWellFormed(cfg.rules)
    requires a != b && b != "" && key != ""
    ensures Welcome(cfg, s1.(now := cfg.idemTtl + 1), 2, InfoOf(b, key), "t")
  {
    GrantedTwiceIs(cfg.idemTtl, key);
    if VelocityKey(a, cfg.action) == VelocityKey(b, cfg.action) {
      VelocityKeyInjective(a, b, cfg.action);
    }
    var s2 := s1.(now := cfg.idemTtl + 1);
    assert KeyOf(s2, VelocityKey(b, cfg.action)) == KeyOf(s1, VelocityKey(b, cfg.action)) == VR.EMPTY;
  }

  /**
   Lateness matters. Request 1 outlives the lifetime of its claim; request 2 is granted the key and
   stores; request 3 is answered with that; then request 1 stores, and request 4, with no grant in
   between, is answered with the older response.
   */
  lemma LateStoreIsReplayed(cfg: Config, a: string, b: string, key: string, older: Bytes, newer: Bytes)
    returns (s0: State, steps: seq<Step>)
    requires AllWellFormed(cfg.rules) && a != b && a != "" && b != "" && key != "" && older != [] && newer != []
    ensures Booted(s0) && Legal(cfg, s0, steps)
    ensures var s := Final(cfg, s0, steps);
            && SameEpoch(s, 3, 4) && s.reqs[3].info.idemKey == key
            && s.reqs[3].stage == Done(Replayed(newer)) && s.reqs[4].stage == Done(Replayed(older))
  {
    s0 := TwoWallets(a, b);
    TwoWalletsBooted(a, b);
    GrantedTwiceIs(cfg.idemTtl, key);
    var s1, s2, s3, s4, s5;
    var ttl, t := cfg.idemTtl, cfg.idemTtl + 1;
    steps, s1 := EnterTwice(cfg, a, b, key);
    steps, s2 := Respond(cfg, s0, steps, s1, 2, newer);
    StoredIsReplayed(s1.keys, Store(key, 2, 1, newer, t, true), 3, ttl);
    steps, s3 := Replays(cfg, s0, steps, s2, 3, InfoOf(a, key), Replay(newer, 0, 1, 2));
    steps, s4 := Respond(cfg, s0, steps, s3, 1, older);
    StoredIsReplayed(s3.keys, Store(key, 1, 0, older, t, false), 4, ttl);
    steps, s5 := Replays(cfg, s0, steps, s4, 4, InfoOf(a, key), Replay(older, 1, 1, 2));
  }
}
