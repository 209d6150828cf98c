/**
 The ledger under the middleware. Every wallet writes to one ledger account, while wallet mutexes and
 lock keys are per wallet: withdrawals from different wallets may overlap between reading the ledger
 and appending to it. When the hash chain survives that, and when not.
 */
module PipelineLedger {
  import opened Common
  import opened Pipeline
  import opened PipelineInvariant
  import opened PipelineSafety
  import opened PipelineTheorems
  import Ledger
  import Text
  import Wallet

  function ListIn(s: State): seq<Ledger.Record> {
    Ledger.ListOf(s.money.bank.book, Wallet.LEDGER_ACCOUNT)
  }

  /** Nothing has been appended since request r, now appending, read the list. */
  predicate Current(s: State, r: nat)
    requires Posting(s, r)
  {
    s.money.mutex[s.reqs[r].info.account].seen == ListIn(s)
  }

  /** No append of the run is stale. */
  predicate NoStaleAppend(cfg: Config, s: State, steps: seq<Step>)
    requires Legal(cfg, s, steps)
    decreases |steps|
  {
    steps == [] ||
    ((steps[0].Post? ==> Current(s, steps[0].r)) && NoStaleAppend(cfg, Apply(cfg, s, steps[0]), steps[1..]))
  }

  // ---------------------------------------------------------------------------------------
  // A run of the pipeline is, for the ledger, an interleaving of readers and writers
  // ---------------------------------------------------------------------------------------

  /** What a step does to the ledger. */
  function LedgerMove(s: State, step: Step): (ops: seq<Ledger.Op>)
    requires step.Withdraw? ==> step.r in s.reqs && CanWithdraw(s, step.r, step.amount)
    requires step.Post? ==> CanPost(s, step.r)
  {
    match step
    case Withdraw(r, amount) => if Posting(Withdraws(s, r, amount), r) then [Ledger.Read(r)] else []
    case Post(r, at) =>
      var who := s.reqs[r].info.account;
      [Ledger.Write(r, Wallet.TxOf(Wallet.Withdraw(s.money.mutex[who].amount), who, "api", at))]
    case _ => []
  }

  function LedgerRun(cfg: Config, s: State, steps: seq<Step>): (ops: seq<Ledger.Op>)
    requires Legal(cfg, s, steps)
    decreases |steps|
  {
    if steps == [] then [] else LedgerMove(s, steps[0]) + LedgerRun(cfg, Apply(cfg, s, steps[0]), steps[1..])
  }

  /** The readers' snapshots are those of the requests holding a mutex. */
  ghost predicate Snapshots(m: Money, snaps: map<nat, seq<Ledger.Record>>) {
    forall who :: who in m.mutex ==> m.mutex[who].req in snaps && snaps[m.mutex[who].req] == m.mutex[who].seen
  }

  /** From s to s' the ledger does what ops says, and the snapshots stay those of the mutex holders. */
  ghost predicate Tracks(cfg: Config, s: State, s': State, ops: seq<Ledger.Op>,
                         snaps: map<nat, seq<Ledger.Record>>, snaps': map<nat, seq<Ledger.Record>>)
  {
    && Ledger.Follows(cfg.h, Wallet.LEDGER_ACCOUNT, ListIn(s), snaps, ops, ListIn(s'), snaps')
    && Snapshots(s'.money, snaps')
  }

  lemma MoneyUntouched(cfg: Config, s: State, step: Step)
    requires Enabled(cfg, s, step) && !step.Withdraw? && !step.Post?
    ensures Apply(cfg, s, step).money == s.money
  {
  }

  lemma WithdrawTracks(cfg: Config, s: State, r: nat, amount: int, snaps: map<nat, seq<Ledger.Record>>)
    returns (snaps': map<nat, seq<Ledger.Record>>)
    requires MutexLink(s.reqs, s.money) && At(s, r, Running) && CanWithdraw(s, r, amount) && Snapshots(s.money, snaps)
    ensures Tracks(cfg, s, Withdraws(s, r, amount), LedgerMove(s, Withdraw(r, amount)), snaps, snaps')
  {
    forall who | who in s.money.mutex
      ensures s.money.mutex[who].req != r
    {
      assert MutexOk(s.reqs, s.money, who);
    }
    snaps' := if LedgerMove(s, Withdraw(r, amount)) == [] then snaps else snaps[r := ListIn(s)];
  }

  lemma PostTracks(cfg: Config, s: State, r: nat, at: Text.Timestamp, snaps: map<nat, seq<Ledger.Record>>)
    returns (snaps': map<nat, seq<Ledger.Record>>)
    requires MutexLink(s.reqs, s.money) && At(s, r, Running) && CanPost(s, r) && Snapshots(s.money, snaps)
    ensures Tracks(cfg, s, Posts(cfg, s, r, at), LedgerMove(s, Post(r, at)), snaps, snaps')
    ensures Ledger.Stale(ListIn(s), snaps, LedgerMove(s, Post(r, at))) <==> !Current(s, r)
  {
    forall who | who in s.money.mutex && who != s.reqs[r].info.account
      ensures s.money.mutex[who].req != r
    {
      assert MutexOk(s.reqs, s.money, who);
    }
    snaps' := snaps - {r};
  }

  lemma StepTracks(cfg: Config, s: State, step: Step, snaps: map<nat, seq<Ledger.Record>>)
    returns (snaps': map<nat, seq<Ledger.Record>>)
    requires Inv(cfg, s) && Enabled(cfg, s, step) && Snapshots(s.money, snaps)
    ensures Tracks(cfg, s, Apply(cfg, s, step), LedgerMove(s, step), snaps, snaps')
    ensures Ledger.Stale(ListIn(s), snaps, LedgerMove(s, step)) <==> step.Post? && !Current(s, step.r)
  {
    if step.Withdraw? {
      snaps' := WithdrawTracks(cfg, s, step.r, step.amount, snaps);
    } else if step.Post? {
      snaps' := PostTracks(cfg, s, step.r, step.at, snaps);
    } else {
      MoneyUntouched(cfg, s, step);
      snaps' := snaps;
    }
  }

  /** Every run of the pipeline is, for the ledger, an interleaving of its writers. */
  lemma {:induction false} PipelineIsLedgerRun(cfg: Config, s: State, steps: seq<Step>, snaps: map<nat,
                                               seq<Ledger.Record>>)
    requires Inv(cfg, s) && Legal(cfg, s, steps) && Snapshots(s.money, snaps)
    ensures var ops := LedgerRun(cfg, s, steps);
            && Ledger.CanRun(snaps.Keys, ops)
            && Ledger.Interleave(cfg.h, Wallet.LEDGER_ACCOUNT, ListIn(s), snaps, ops) == ListIn(Final(cfg, s, steps))
            && (Ledger.NoneStale(cfg.h, Wallet.LEDGER_ACCOUNT, ListIn(s), snaps, ops) <==> NoStaleAppend(cfg, s, steps))
    decreases |steps|
  {
    if steps != [] {
      var s', first := Apply(cfg, s, steps[0]), LedgerMove(s, steps[0]);
      var rest := LedgerRun(cfg, s', steps[1..]);
      StepKeepsInv(cfg, s, steps[0]);
      var snaps' := StepTracks(cfg, s, steps[0], snaps);
      PipelineIsLedgerRun(cfg, s', steps[1..], snaps');
      Ledger.InterleaveStep(cfg.h, Wallet.LEDGER_ACCOUNT, ListIn(s), snaps, first, ListIn(s'), snaps', rest);
    }
  }

  /**
   The chain under the middleware: after every run, whatever the configuration, the numbers are 1..n
   exactly when no append was stale; and, given no collision among the payloads at hand, so is the
   chain accepted by the verifier.
   */
  lemma ChainHoldsIffNoStaleAppend(cfg: Config, s0: State, steps: seq<Step>)
    requires Booted(s0) && Legal(cfg, s0, steps)
    ensures var recs := ListIn(Final(cfg, s0, steps));
            && (Ledger.Numbered(recs, Wallet.LEDGER_ACCOUNT) <==> NoStaleAppend(cfg, s0, steps))
            && (Ledger.AllPipeFree(recs) && Ledger.CollisionFree(cfg.h, Ledger.Payloads(recs) + {Ledger.GENESIS}) ==>
                  (Ledger.ValidChain(cfg.h, recs) <==> NoStaleAppend(cfg, s0, steps)))
  {
    InitialInv(cfg, s0);
    PipelineIsLedgerRun(cfg, s0, steps, map[]);
    var ops, recs := LedgerRun(cfg, s0, steps), ListIn(Final(cfg, s0, steps));
    Ledger.NumberedIffNoneStale(cfg.h, Wallet.LEDGER_ACCOUNT, [], map[], ops);
    if Ledger.AllPipeFree(recs) && Ledger.CollisionFree(cfg.h, Ledger.Payloads(recs) + {Ledger.GENESIS}) {
      Ledger.ChainValidIffNoneStale(cfg.h, Wallet.LEDGER_ACCOUNT, [], map[], ops);
    }
  }

  // ---------------------------------------------------------------------------------------
  // What a deployment can do about it
  // ---------------------------------------------------------------------------------------

  /** At no point of the run are two withdrawals inside RecordTransaction. */
  predicate OneWriterAtATime(cfg: Config, s: State, steps: seq<Step>)
    requires Legal(cfg, s, steps)
    decreases |steps|
  {
    && (forall a, b :: a in s.money.mutex && b in s.money.mutex ==> a == b)
    && (steps == [] || OneWriterAtATime(cfg, Apply(cfg, s, steps[0]), steps[1..]))
  }

  ghost predicate AllCurrent(s: State) {
    forall who :: who in s.money.mutex ==> s.money.mutex[who].seen == ListIn(s)
  }

  lemma {:induction false} OneWriterIsNeverStale(cfg: Config, s: State, steps: seq<Step>)
    requires Legal(cfg, s, steps) && AllCurrent(s) && OneWriterAtATime(cfg, s, steps)
    ensures NoStaleAppend(cfg, s, steps)
    decreases |steps|
  {
    if steps != [] {
      if !steps[0].Withdraw? && !steps[0].Post? {
        MoneyUntouched(cfg, s, steps[0]);
      }
      OneWriterIsNeverStale(cfg, Apply(cfg, s, steps[0]), steps[1..]);
    }
  }

  /** Every request of the run uses this lock key. */
  predicate OneLockKey(steps: seq<Step>, key: string) {
    forall i :: 0 <= i < |steps| && steps[i].Arrive? ==> steps[i].info.lockKey == key
  }

  /** Every request of the run is for this account. */
  predicate OneAccount(steps: seq<Step>, account: string) {
    forall i :: 0 <= i < |steps| && steps[i].Arrive? ==> steps[i].info.account == account
  }

  /** Every request in its section is within its lease. */
  predicate AllInLease(cfg: Config, s: State) {
    forall r :: r in s.reqs && InSection(s.reqs[r].stage) && s.reqs[r].tenure.Some? ==>
      s.now < s.reqs[r].tenure.value.since + cfg.lockTtl
  }

  /** The same at every point of the run. */
  predicate AlwaysInLease(cfg: Config, s: State, steps: seq<Step>)
    requires Legal(cfg, s, steps)
    decreases |steps|
  {
    AllInLease(cfg, s) && (steps == [] || AlwaysInLease(cfg, Apply(cfg, s, steps[0]), steps[1..]))
  }

  /** Only an arrival brings new keys into the machine. */
  lemma InfoStays(cfg: Config, s: State, step: Step, r: nat)
    requires Enabled(cfg, s, step) && r in Apply(cfg, s, step).reqs
    ensures var s' := Apply(cfg, s, step);
            if r in s.reqs then s'.reqs[r].info == s.reqs[r].info else step.Arrive? && s'.reqs[r].info == step.info
  {
  }

  /** All requests in the machine have this lock key, or this account. */
  predicate AllLockOn(s: State, key: string) {
    forall r :: r in s.reqs ==> s.reqs[r].info.lockKey == key
  }

  predicate AllFor(s: State, account: string) {
    forall r :: r in s.reqs ==> s.reqs[r].info.account == account
  }

  lemma StepKeepsInfo(cfg: Config, s: State, step: Step, key: string)
    requires Enabled(cfg, s, step)
    ensures AllLockOn(s, key) && (step.Arrive? ==> step.info.lockKey == key) ==> AllLockOn(Apply(cfg, s, step), key)
    ensures AllFor(s, key) && (step.Arrive? ==> step.info.account == key) ==> AllFor(Apply(cfg, s, step), key)
  {
    forall r | r in Apply(cfg, s, step).reqs
      ensures var s' := Apply(cfg, s, step);
              if r in s.reqs then s'.reqs[r].info == s.reqs[r].info else step.Arrive? && s'.reqs[r].info == step.info
    {
      InfoStays(cfg, s, step, r);
    }
  }

  lemma OneHolder(cfg: Config, s: State, key: string, a: string, b: string)
    requires Shapes(cfg, s.reqs) && LockLink(cfg, s.reqs, s.locks, s.now) && MutexLink(s.reqs, s.money)
    requires cfg.requireLock
    requires AllLockOn(s, key) && AllInLease(cfg, s) && a in s.money.mutex && b in s.money.mutex
    ensures a == b
  {
    assert MutexOk(s.reqs, s.money, a) && MutexOk(s.reqs, s.money, b);
    ExclusiveIn(cfg, s, s.money.mutex[a].req, s.money.mutex[b].req);
  }

  lemma {:induction false} SharedLockSerialises(cfg: Config, s: State, steps: seq<Step>, key: string)
    requires Inv(cfg, s) && Legal(cfg, s, steps) && cfg.requireLock
    requires OneLockKey(steps, key) && AllLockOn(s, key) && AlwaysInLease(cfg, s, steps)
    ensures OneWriterAtATime(cfg, s, steps)
    decreases |steps|
  {
    forall a, b | a in s.money.mutex && b in s.money.mutex
      ensures a == b
    {
      OneHolder(cfg, s, key, a, b);
    }
    if steps != [] {
      StepKeepsInv(cfg, s, steps[0]);
      StepKeepsInfo(cfg, s, steps[0], key);
      SharedLockSerialises(cfg, Apply(cfg, s, steps[0]), steps[1..], key);
    }
  }

  lemma {:induction false} SharedAccountSerialises(cfg: Config, s: State, steps: seq<Step>, account: string)
    requires Inv(cfg, s) && Legal(cfg, s, steps) && OneAccount(steps, account) && AllFor(s, account)
    ensures OneWriterAtATime(cfg, s, steps)
    decreases |steps|
  {
    forall a | a in s.money.mutex
      ensures a == account
    {
      assert MutexOk(s.reqs, s.money, a);
    }
    if steps != [] {
      StepKeepsInv(cfg, s, steps[0]);
      StepKeepsInfo(cfg, s, steps[0], account);
      SharedAccountSerialises(cfg, Apply(cfg, s, steps[0]), steps[1..], account);
    }
  }

  /**
   Two deployments whose chain always holds, whatever the hash: all requests share one lock key and
   no handler outlives its lease; or all requests are for one account, whose wallet mutex is enough.
   */
  lemma SerialisedChainHolds(cfg: Config, s0: State, steps: seq<Step>, key: string)
    requires Booted(s0) && Legal(cfg, s0, steps)
    requires (cfg.requireLock && OneLockKey(steps, key) && AlwaysInLease(cfg, s0, steps)) || OneAccount(steps, key)
    ensures Ledger.ValidBook(cfg.h, Final(cfg, s0, steps).money.bank.book)
  {
    InitialInv(cfg, s0);
    if OneAccount(steps, key) {
      SharedAccountSerialises(cfg, s0, steps, key);
    } else {
      SharedLockSerialises(cfg, s0, steps, key);
    }
    OneWriterIsNeverStale(cfg, s0, steps);
    NeverStaleKeepsBook(cfg, s0, steps);
  }

  lemma StepKeepsBook(cfg: Config, s: State, step: Step)
    requires Enabled(cfg, s, step) && Ledger.ValidBook(cfg.h, s.money.bank.book)
    requires step.Post? ==> Current(s, step.r)
    ensures Ledger.ValidBook(cfg.h, Apply(cfg, s, step).money.bank.book)
  {
    if step.Post? {
      var who := s.reqs[step.r].info.account;
      var tx := Wallet.TxOf(Wallet.Withdraw(s.money.mutex[who].amount), who, "api", step.at);
      Ledger.PostKeepsBook(cfg.h, s.money.bank.book, Wallet.LEDGER_ACCOUNT, tx);
    } else if !step.Withdraw? {
      MoneyUntouched(cfg, s, step);
    }
  }

  /** Without a stale append the book stays valid, hash collisions or not. */
  lemma {:induction false} NeverStaleKeepsBook(cfg: Config, s: State, steps: seq<Step>)
    requires Legal(cfg, s, steps) && NoStaleAppend(cfg, s, steps) && Ledger.ValidBook(cfg.h, s.money.bank.book)
    ensures Ledger.ValidBook(cfg.h, Final(cfg, s, steps).money.bank.book)
    decreases |steps|
  {
    if steps != [] {
      StepKeepsBook(cfg, s, steps[0]);
      NeverStaleKeepsBook(cfg, Apply(cfg, s, steps[0]), steps[1..]);
    }
  }
}
