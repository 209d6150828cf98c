/**
 What handlers did, from the steps of the run alone: the status and body a request ends with are those it
 wrote, the withdrawals that went through are those that were asked for, and each wallet has lost exactly
 its own.
 */
module PipelineHandlers {
  import opened Common
  import opened Pipeline
  import opened PipelineInvariant
  import opened PipelineSafety
  import opened PipelineTheorems
  import opened PipelineLedger
  import Wallet

  // ---------------------------------------------------------------------------------------
  // Responses
  // ---------------------------------------------------------------------------------------

  /** The last status request r writes, or the one it had. */
  function StatusWritten(steps: seq<Step>, r: nat, status: int): (result: int)
    decreases |steps|
  {
    if steps == [] then status else
    StatusWritten(steps[1..], r, if steps[0].WriteHeader? && steps[0].r == r then steps[0].status else status)
  }

  /** The chunks request r writes, in order. */
  function ChunksWritten(steps: seq<Step>, r: nat): (chunks: seq<Bytes>)
    decreases |steps|
  {
    if steps == [] then [] else
    (if steps[0].Write? && steps[0].r == r then [steps[0].chunk] else []) + ChunksWritten(steps[1..], r)
  }

  /** What request r has done; nothing, before it arrives. */
  function WorkOf(s: State, r: nat): Work {
    if r in s.reqs then s.reqs[r].work else NO_WORK
  }

  /** Only a handler's own steps change what it has done. */
  predicate IsHandlerStep(step: Step) {
    step.Write? || step.WriteHeader? || step.Withdraw? || step.Post? || step.Return?
  }

  lemma WorkStays(cfg: Config, s: State, step: Step, r: nat)
    requires Enabled(cfg, s, step) && !IsHandlerStep(step)
    ensures WorkOf(Apply(cfg, s, step), r) == WorkOf(s, r) && (r in s.reqs ==> r in Apply(cfg, s, step).reqs)
  {
  }

  /** What a step does to the response of request r; a withdrawal once asked for stays asked for. */
  ghost predicate Writes(s: State, s': State, step: Step, r: nat) {
    var w, w' := WorkOf(s, r), WorkOf(s', r);
    && w'.status == (if step.WriteHeader? && step.r == r then step.status else w.status)
    && w'.chunks == w.chunks + (if step.Write? && step.r == r then [step.chunk] else [])
    && (w.called ==> w'.called) && (r in s.reqs ==> r in s'.reqs)
  }

  lemma HandlerStepWrites(cfg: Config, s: State, step: Step, r: nat)
    requires Enabled(cfg, s, step) && IsHandlerStep(step)
    ensures Writes(s, Apply(cfg, s, step), step, r)
  {
  }

  lemma StepWrites(cfg: Config, s: State, step: Step, r: nat)
    requires Enabled(cfg, s, step)
    ensures Writes(s, Apply(cfg, s, step), step, r)
  {
    if IsHandlerStep(step) {
      HandlerStepWrites(cfg, s, step, r);
    } else {
      WorkStays(cfg, s, step, r);
    }
  }

  lemma {:induction false} RunWrites(cfg: Config, s: State, steps: seq<Step>, r: nat)
    requires Legal(cfg, s, steps)
    ensures var w := WorkOf(Final(cfg, s, steps), r);
            && w.status == StatusWritten(steps, r, WorkOf(s, r).status)
            && w.chunks == WorkOf(s, r).chunks + ChunksWritten(steps, r)
    decreases |steps|
  {
    if steps != [] {
      StepWrites(cfg, s, steps[0], r);
      RunWrites(cfg, Apply(cfg, s, steps[0]), steps[1..], r);
      var first := if steps[0].Write? && steps[0].r == r then [steps[0].chunk] else [];
      var rest := ChunksWritten(steps[1..], r);
      assert WorkOf(s, r).chunks + first + rest == WorkOf(s, r).chunks + (first + rest);
    }
  }

  /** The status and the chunks of a request are exactly those its handler wrote in the run. */
  lemma ResponseIsWhatWasWritten(cfg: Config, s0: State, steps: seq<Step>, r: nat)
    requires Booted(s0) && Legal(cfg, s0, steps) && r in Final(cfg, s0, steps).reqs
    ensures var w := Final(cfg, s0, steps).reqs[r].work;
            w.status == StatusWritten(steps, r, 200) && w.chunks == ChunksWritten(steps, r)
  {
    RunWrites(cfg, s0, steps, r);
  }

  /**
   Faithful replay, from the steps: a cached reply is the concatenation of all chunks that a request granted
   the key wrote in the run, and the last status it wrote is 2xx.
   */
  lemma ReplyWasWritten(cfg: Config, s0: State, steps: seq<Step>, r: nat) returns (q: nat)
    requires Booted(s0) && Legal(cfg, s0, steps)
    requires r in Final(cfg, s0, steps).reqs && Final(cfg, s0, steps).reqs[r].replay.Some?
    ensures var s := Final(cfg, s0, steps);
            && s.reqs[r].stage == Done(Replayed(Body(ChunksWritten(steps, q))))
            && 200 <= StatusWritten(steps, q, 200) < 300
            && exists i :: 0 <= i < |s.keys.grants| && s.keys.grants[i].req == q
                           && s.keys.grants[i].key == s.reqs[r].info.idemKey
  {
    ReplayIsFaithful(cfg, s0, steps, r);
    var s := Final(cfg, s0, steps);
    q := s.keys.stores[s.reqs[r].replay.value.from].req;
    ResponseIsWhatWasWritten(cfg, s0, steps, q);
  }

  // ---------------------------------------------------------------------------------------
  // Withdrawals
  // ---------------------------------------------------------------------------------------

  /** What each request asks to withdraw. */
  function Asked(steps: seq<Step>, asked: map<nat, int>): (result: map<nat, int>)
    decreases |steps|
  {
    if steps == [] then asked else
    Asked(steps[1..], if steps[0].Withdraw? then asked[steps[0].r := steps[0].amount] else asked)
  }

  function DebitedFrom(debits: seq<Debit>, who: string): (sum: int) {
    if debits == [] then 0 else
    var d := debits[|debits| - 1];
    DebitedFrom(debits[..|debits| - 1], who) + if d.account == who then d.amount else 0
  }

  /** Withdrawals under way and done are for the amounts asked, and no request asks twice. */
  ghost predicate AsAsked(s: State, asked: map<nat, int>) {
    && (forall who :: who in s.money.mutex ==>
          s.money.mutex[who].req in asked && asked[s.money.mutex[who].req] == s.money.mutex[who].amount)
    && (forall d :: 0 <= d < |s.money.debits| ==>
          s.money.debits[d].req in asked && asked[s.money.debits[d].req] == s.money.debits[d].amount)
    && (forall r :: r in asked ==> r in s.reqs && s.reqs[r].work.called)
  }

  lemma WithdrawAsAsked(s: State, r: nat, amount: int, asked: map<nat, int>)
    requires r in s.reqs && CanWithdraw(s, r, amount) && AsAsked(s, asked)
    ensures AsAsked(Withdraws(s, r, amount), asked[r := amount])
  {
    assert r !in asked;
  }

  lemma PostAsAsked(cfg: Config, s: State, step: Step, asked: map<nat, int>)
    requires step.Post? && Enabled(cfg, s, step) && AsAsked(s, asked)
    ensures AsAsked(Posts(cfg, s, step.r, step.at), asked)
  {
  }

  lemma StepAsAsked(cfg: Config, s: State, step: Step, asked: map<nat, int>)
    requires Enabled(cfg, s, step) && AsAsked(s, asked)
    ensures AsAsked(Apply(cfg, s, step), if step.Withdraw? then asked[step.r := step.amount] else asked)
  {
    if step.Withdraw? {
      WithdrawAsAsked(s, step.r, step.amount, asked);
    } else if step.Post? {
      PostAsAsked(cfg, s, step, asked);
    } else {
      MoneyUntouched(cfg, s, step);
      forall r | r in asked
        ensures r in Apply(cfg, s, step).reqs && Apply(cfg, s, step).reqs[r].work.called
      {
        StepWrites(cfg, s, step, r);
      }
    }
  }

  lemma {:induction false} RunAsAsked(cfg: Config, s: State, steps: seq<Step>, asked: map<nat, int>)
    requires Legal(cfg, s, steps) && AsAsked(s, asked)
    ensures AsAsked(Final(cfg, s, steps), Asked(steps, asked))
    decreases |steps|
  {
    if steps != [] {
      StepAsAsked(cfg, s, steps[0], asked);
      var asked' := if steps[0].Withdraw? then asked[steps[0].r := steps[0].amount] else asked;
      RunAsAsked(cfg, Apply(cfg, s, steps[0]), steps[1..], asked');
    }
  }

  /** Every withdrawal that went through is for the amount its request asked for. */
  lemma DebitsAreAsAsked(cfg: Config, s0: State, steps: seq<Step>, d: nat)
    requires Booted(s0) && Legal(cfg, s0, steps) && d < |Final(cfg, s0, steps).money.debits|
    ensures var debit := Final(cfg, s0, steps).money.debits[d];
            debit.req in Asked(steps, map[]) && Asked(steps, map[])[debit.req] == debit.amount
  {
    RunAsAsked(cfg, s0, steps, map[]);
  }

  lemma StepMovesBalance(cfg: Config, s: State, step: Step, who: string)
    requires Inv(cfg, s) && Enabled(cfg, s, step)
    ensures var s' := Apply(cfg, s, step);
            && Wallet.BalanceOf(s'.money.bank, who).total + DebitedFrom(s'.money.debits, who)
               == Wallet.BalanceOf(s.money.bank, who).total + DebitedFrom(s.money.debits, who)
            && Wallet.BalanceOf(s'.money.bank, who).seed == Wallet.BalanceOf(s.money.bank, who).seed
  {
    if step.Post? {
      PostMovesBalance(cfg, s, step, who);
    } else if !step.Withdraw? {
      MoneyUntouched(cfg, s, step);
    }
  }

  lemma PostMovesBalance(cfg: Config, s: State, step: Step, who: string)
    requires MutexLink(s.reqs, s.money) && Wallet.Balanced(s.money.bank) && step.Post? && Enabled(cfg, s, step)
    ensures var s' := Posts(cfg, s, step.r, step.at);
            && Wallet.BalanceOf(s'.money.bank, who).total + DebitedFrom(s'.money.debits, who)
               == Wallet.BalanceOf(s.money.bank, who).total + DebitedFrom(s.money.debits, who)
            && Wallet.BalanceOf(s'.money.bank, who).seed == Wallet.BalanceOf(s.money.bank, who).seed
  {
    var s' := Posts(cfg, s, step.r, step.at);
    assert MutexOk(s.reqs, s.money, s.reqs[step.r].info.account);
    assert s'.money.debits[..|s.money.debits|] == s.money.debits;
  }

  lemma {:induction false} RunMovesBalance(cfg: Config, s: State, steps: seq<Step>, who: string)
    requires Inv(cfg, s) && Legal(cfg, s, steps)
    ensures var f := Final(cfg, s, steps);
            && Wallet.BalanceOf(f.money.bank, who).total + DebitedFrom(f.money.debits, who)
               == Wallet.BalanceOf(s.money.bank, who).total + DebitedFrom(s.money.debits, who)
            && Wallet.BalanceOf(f.money.bank, who).seed == Wallet.BalanceOf(s.money.bank, who).seed
    decreases |steps|
  {
    if steps != [] {
      StepKeepsInv(cfg, s, steps[0]);
      StepMovesBalance(cfg, s, steps[0], who);
      RunMovesBalance(cfg, Apply(cfg, s, steps[0]), steps[1..], who);
    }
  }

  /** After every run every wallet holds what it held at first less the withdrawals from that very account. */
  lemma EachWalletLosesItsOwn(cfg: Config, s0: State, steps: seq<Step>, who: string)
    requires Booted(s0) && Legal(cfg, s0, steps)
    ensures var f := Final(cfg, s0, steps);
            Wallet.BalanceOf(f.money.bank, who).total
            == Wallet.BalanceOf(s0.money.bank, who).total - DebitedFrom(f.money.debits, who)
  {
    InitialInv(cfg, s0);
    RunMovesBalance(cfg, s0, steps, who);
  }

  /**
   Exactly when a handler's withdrawal goes on to the ledger: in every reachable state, if and only if the
   amount is positive, at most half of MaxInt64, and covered by the account's balance.
   */
  lemma WithdrawalGoesOnExactly(cfg: Config, s0: State, steps: seq<Step>, r: nat, amount: int)
    requires Booted(s0) && Legal(cfg, s0, steps) && Enabled(cfg, Final(cfg, s0, steps), Withdraw(r, amount))
    ensures var s := Final(cfg, s0, steps);
            Posting(Apply(cfg, s, Withdraw(r, amount)), r) <==>
            0 < amount <= MAX_INT64 / 2 && amount <= Wallet.BalanceOf(s.money.bank, s.reqs[r].info.account).total
  {
    Reached(cfg, s0, steps);
    var s := Final(cfg, s0, steps);
    var who := s.reqs[r].info.account;
    assert who in s.money.mutex ==> MutexOk(s.reqs, s.money, who);
    Wallet.OutcomeExactly(Wallet.BalanceOf(s.money.bank, who).total, Wallet.Withdraw(amount));
  }
}
