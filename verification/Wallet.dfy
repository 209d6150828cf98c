/**
 Wallet balances in int64 cents (example/wallet/), the withdraw handler's account map
 (example/app/service.go), and what they owe the ledger.
 */
module Wallet {
  import opened Common
  import opened Text
  import opened Ledger

  datatype Error = InvalidAmount | Overflow | InsufficientFunds

  datatype Op = Deposit(amount: int) | Withdraw(amount: int) | Settle(delta: int)

  /** Amounts are int64s. */
  predicate IsOp(op: Op) {
    match op
    case Deposit(amount) => IsInt64(amount)
    case Withdraw(amount) => IsInt64(amount)
    case Settle(delta) => IsInt64(delta)
  }

  function Validate(amount: int): Option<Error> {
    if amount <= 0 then Some(InvalidAmount)
    else if amount > MAX_INT64 / 2 then Some(Overflow)
    else None
  }

  /** The signed amount an operation writes to the ledger. */
  function Delta(op: Op): int
    requires IsOp(op)
  {
    match op
    case Deposit(amount) => amount
    case Withdraw(amount) => Int64(-amount)
    case Settle(delta) => delta
  }

  function Kind(op: Op): string {
    match op
    case Deposit(_) => "deposit"
    case Withdraw(_) => "withdrawal"
    case Settle(_) => "bet_settlement"
  }

  /** The new total, or why there is none, in int64 arithmetic. */
  function Outcome(total: int, op: Op): Result<int, Error>
    requires IsInt64(total) && IsOp(op)
  {
    match op
    case Deposit(amount) =>
      if Validate(amount).Some? then Failure(Validate(amount).value)
      else if total > Int64(MAX_INT64 - amount) then Failure(Overflow)
      else Success(Int64(total + amount))
    case Withdraw(amount) =>
      if Validate(amount).Some? then Failure(Validate(amount).value)
      else if total < amount then Failure(InsufficientFunds)
      else Success(Int64(total - amount))
    case Settle(delta) =>
      if delta > 0 && total > Int64(MAX_INT64 - delta) then Failure(Overflow)
      else if delta < 0 && total < Int64(-delta) then Failure(InsufficientFunds)
      else if delta > 0 then Success(Int64(total + delta))
      else if delta < 0 then Success(Int64(total - Int64(-delta)))
      else Success(total)
  }

  /** Every wallet writes to this one ledger account. */
  const LEDGER_ACCOUNT := "acct"

  function TxOf(op: Op, actor: string, source: string, at: Timestamp): Tx
    requires IsOp(op)
  {
    Tx(Delta(op), Kind(op), actor, source, at)
  }

  class Account {
    var totalCents: int
    var pendingWithdraw: int

    constructor (initialCents: int)
      ensures totalCents == initialCents && pendingWithdraw == 0
    {
      totalCents, pendingWithdraw := initialCents, 0;
    }

    /** Between operations nothing is pending. */
    predicate Valid()
      reads this
    {
      IsInt64(totalCents) && pendingWithdraw == 0
    }

    method AvailableCents() returns (r: int)
      requires Valid()
      ensures r == totalCents
    {
      r := Int64(totalCents - pendingWithdraw);
    }

    method Deposit(lg: Ledger, amount: int, actor: string, source: string, at: Timestamp) returns (r: Result<(), Error>)
      requires Valid() && IsInt64(amount)
      modifies this, lg
      ensures Valid() && Applies(r, old(totalCents), old(lg.records), lg, Op.Deposit(amount), actor, source, at)
      ensures r == Failure(InvalidAmount) <==> amount <= 0
      ensures r == Failure(Overflow) <==> amount > MAX_INT64 / 2 || (amount > 0 && old(totalCents) + amount > MAX_INT64)
      ensures r.Success? <==> 0 < amount <= MAX_INT64 / 2 && old(totalCents) + amount <= MAX_INT64
      ensures r.Success? ==> totalCents == old(totalCents) + amount
      ensures r.Success? ==>
                Wrote(lg.h, old(lg.records), lg.records, "acct", Tx(amount, "deposit", actor, source, at))
      ensures r.Failure? ==> totalCents == old(totalCents) && lg.records == old(lg.records)
    {
      var invalid := Validate(amount);
      if invalid.Some? {
        return Failure(invalid.value);
      }
      if totalCents > Int64(MAX_INT64 - amount) {
        return Failure(Overflow);
      }
      var _ := lg.RecordTransaction(LEDGER_ACCOUNT, Tx(amount, "deposit", actor, source, at));
      totalCents := Int64(totalCents + amount);
      return Success(());
    }

    method Withdraw(lg: Ledger, amount: int, actor: string, source: string, at: Timestamp)
      returns (r: Result<(), Error>)
      requires Valid() && IsInt64(amount)
      modifies this, lg
      ensures Valid() && Applies(r, old(totalCents), old(lg.records), lg, Op.Withdraw(amount), actor, source, at)
      ensures r == Failure(InvalidAmount) <==> amount <= 0
      ensures r == Failure(Overflow) <==> amount > MAX_INT64 / 2
      ensures r == Failure(InsufficientFunds) <==> 0 < amount <= MAX_INT64 / 2 && old(totalCents) < amount
      ensures r.Success? <==> 0 < amount <= MAX_INT64 / 2 && amount <= old(totalCents)
      ensures r.Success? ==> totalCents == old(totalCents) - amount
      ensures r.Success? ==>
                Wrote(lg.h, old(lg.records), lg.records, "acct", Tx(-amount, "withdrawal", actor, source, at))
      ensures r.Failure? ==> totalCents == old(totalCents) && lg.records == old(lg.records)
    {
      var invalid := Validate(amount);
      if invalid.Some? {
        return Failure(invalid.value);
      }
      var available := Int64(totalCents - pendingWithdraw);
      if available < amount || totalCents < amount {
        return Failure(InsufficientFunds);
      }
      Take(lg, amount, actor, source, at);
      return Success(());
    }

    /** The reservation, the ledger entry and the new total of a withdrawal that the balance covers. */
    method Take(lg: Ledger, amount: int, actor: string, source: string, at: Timestamp)
      requires Valid() && 0 < amount <= MAX_INT64 / 2 && amount <= totalCents
      modifies this, lg
      ensures Valid() && totalCents == old(totalCents) - amount
      ensures Wrote(lg.h, old(lg.records), lg.records, "acct", Tx(-amount, "withdrawal", actor, source, at))
      ensures lg.records ==
              Posted(lg.h, old(lg.records), LEDGER_ACCOUNT, TxOf(Op.Withdraw(amount), actor, source, at))
    {
      pendingWithdraw := Int64(pendingWithdraw + amount);
      assert pendingWithdraw == amount;
      var tx := Tx(Int64(-amount), "withdrawal", actor, source, at);
      assert tx == TxOf(Op.Withdraw(amount), actor, source, at) && tx.amount == -amount;
      var _ := lg.RecordTransaction(LEDGER_ACCOUNT, tx);
      totalCents := Int64(totalCents - amount);
      pendingWithdraw := Int64(pendingWithdraw - amount);
    }

    method SettleBet(lg: Ledger, delta: int, actor: string, source: string, at: Timestamp)
      returns (r: Result<(), Error>)
      requires Valid() && IsInt64(delta)
      modifies this, lg
      ensures Valid() && Applies(r, old(totalCents), old(lg.records), lg, Op.Settle(delta), actor, source, at)
      ensures r == Failure(Overflow) <==> delta > 0 && old(totalCents) + delta > MAX_INT64
      ensures r == Failure(InsufficientFunds) <==> MIN_INT64 < delta < 0 && old(totalCents) + delta < 0
      ensures InRange(old(totalCents)) ==>
                (r.Success? <==> InRange(old(totalCents) + delta) || delta == MIN_INT64)
                && (r.Success? ==> totalCents == old(totalCents) + delta)
      ensures r.Success? ==>
                Wrote(lg.h, old(lg.records), lg.records, "acct", Tx(delta, "bet_settlement", actor, source, at))
      ensures r.Failure? ==> totalCents == old(totalCents) && lg.records == old(lg.records)
    {
      ghost var outcome := Outcome(totalCents, Op.Settle(delta));
      if delta > 0 {
        if totalCents > Int64(MAX_INT64 - delta) {
          assert outcome == Failure(Overflow);
          return Failure(Overflow);
        }
      } else if delta < 0 {
        var loss := Int64(-delta);
        if totalCents < loss {
          assert outcome == Failure(InsufficientFunds);
          return Failure(InsufficientFunds);
        }
      }
      ghost var settled := outcome.value;
      var _ := lg.RecordTransaction(LEDGER_ACCOUNT, Tx(delta, "bet_settlement", actor, source, at));
      if delta > 0 {
        totalCents := Int64(totalCents + delta);
      } else if delta < 0 {
        totalCents := Int64(totalCents - Int64(-delta));
      }
      assert totalCents == settled;
      return Success(());
    }

    /** The operation took effect on the total and the ledger together, or on neither. */
    ghost predicate Applies(r: Result<(), Error>, total: int, book: Book, lg: Ledger, op: Op, actor: string,
                            source: string, at: Timestamp)
      requires IsInt64(total) && IsOp(op)
      reads this, lg
    {
      match Outcome(total, op)
      case Failure(e) => r == Failure(e) && totalCents == total && lg.records == book
      case Success(t) =>
        && r == Success(()) && totalCents == t
        && lg.records == Posted(lg.h, book, LEDGER_ACCOUNT, TxOf(op, actor, source, at))
    }
  }

  // ---------------------------------------------------------------------------------------
  // One operation
  // ---------------------------------------------------------------------------------------

  predicate InRange(total: int) {
    0 <= total <= MAX_INT64
  }

  /**
   From a balance in [0, MaxInt64], an operation that succeeds moves it by exactly what it writes to
   the ledger; and the balance stays in range exactly when it is not a settlement of MinInt64, whose
   negation wraps.
   */
  lemma OutcomeMovesByDelta(total: int, op: Op)
    requires InRange(total) && IsOp(op)
    ensures var r := Outcome(total, op);
            r.Success? ==> r.value == total + Delta(op) && (InRange(r.value) <==> op != Settle(MIN_INT64))
  {
  }

  /** From a balance in range: exactly when an operation goes through, and why not otherwise. */
  lemma OutcomeExactly(total: int, op: Op)
    requires InRange(total) && IsOp(op)
    ensures var r := Outcome(total, op);
            match op
            case Deposit(amount) =>
              && (r.Success? <==> 0 < amount <= MAX_INT64 / 2 && total + amount <= MAX_INT64)
              && (r == Failure(InvalidAmount) <==> amount <= 0) && r != Failure(InsufficientFunds)
            case Withdraw(amount) =>
              && (r.Success? <==> 0 < amount <= MAX_INT64 / 2 && amount <= total)
              && (r == Failure(InvalidAmount) <==> amount <= 0) && (r == Failure(Overflow) <==> amount > MAX_INT64 / 2)
            case Settle(delta) =>
              && (r.Success? <==> InRange(total + delta) || delta == MIN_INT64)
              && (r == Failure(Overflow) <==> total + delta > MAX_INT64) && r != Failure(InvalidAmount)
  {
  }

  /** That settlement always goes through, and leaves the wallet overdrawn. */
  lemma SettleMinOverdraws(total: int)
    requires InRange(total)
    ensures Outcome(total, Settle(MIN_INT64)) == Success(total + MIN_INT64) && total + MIN_INT64 < 0
  {
  }

  // ---------------------------------------------------------------------------------------
  // Any number of wallets sharing one ledger
  // ---------------------------------------------------------------------------------------

  datatype Balance = Balance(seed: int, total: int)

  type Wallets = map<string, Balance>

  datatype Bank = Bank(wallets: Wallets, book: Book)

  predicate Cents(b: Bank) {
    forall who :: who in b.wallets ==> IsInt64(b.wallets[who].total)
  }

  function BalanceOf(b: Bank, who: string): Balance {
    if who in b.wallets then b.wallets[who] else Balance(0, 0)
  }

  /** The account map after looking up who. */
  function Opened(b: Bank, who: string): Bank {
    b.(wallets := b.wallets[who := BalanceOf(b, who)])
  }

  /** One operation; as in the withdraw handler, an unknown account starts at zero. */
  function Applied(h: Hash, b: Bank, who: string, op: Op, source: string, at: Timestamp): (r: (Bank, Result<(), Error>))
    requires Cents(b) && IsOp(op)
    ensures Cents(r.0)
  {
    var w := BalanceOf(b, who);
    match Outcome(w.total, op)
    case Failure(e) => (Opened(b, who), Failure(e))
    case Success(t) =>
      var book := Posted(h, b.book, LEDGER_ACCOUNT, TxOf(op, who, source, at));
      (Bank(b.wallets[who := w.(total := t)], book), Success(()))
  }

  /** The sum over all wallets of what they gained since they were seeded. */
  ghost function Gain(wallets: Wallets): (g: int)
    decreases |wallets|
  {
    if wallets == map[] then 0 else
      var who :| who in wallets;
      wallets[who].total - wallets[who].seed + Gain(wallets - {who})
  }

  lemma {:induction false} GainWithout(wallets: Wallets, who: string)
    requires who in wallets
    ensures Gain(wallets) == wallets[who].total - wallets[who].seed + Gain(wallets - {who})
    decreases |wallets|
  {
    var other :|
      other in wallets && Gain(wallets) == wallets[other].total - wallets[other].seed + Gain(wallets - {other});
    if other != who {
      GainWithout(wallets - {other}, who);
      GainWithout(wallets - {who}, other);
      assert wallets - {other} - {who} == wallets - {who} - {other};
    }
  }

  lemma GainUpdate(wallets: Wallets, who: string, w: Balance)
    ensures Gain(wallets[who := w]) == Gain(wallets - {who}) + w.total - w.seed
  {
    GainWithout(wallets[who := w], who);
    assert wallets[who := w] - {who} == wallets - {who};
  }

  /** The gain moves by what one wallet does; a wallet not yet opened has gained nothing. */
  lemma GainMoves(b: Bank, who: string, total: int)
    ensures var w := BalanceOf(b, who); Gain(b.wallets[who := w.(total := total)]) == Gain(b.wallets) + total - w.total
  {
    if who in b.wallets {
      GainWithout(b.wallets, who);
    } else {
      assert b.wallets - {who} == b.wallets;
    }
    GainUpdate(b.wallets, who, BalanceOf(b, who).(total := total));
  }

  /** Every balance is in range, and the ledger sums to what the wallets gained. */
  ghost predicate Balanced(b: Bank) {
    && (forall who :: who in b.wallets ==> InRange(b.wallets[who].total) && InRange(b.wallets[who].seed))
    && Total(ListOf(b.book, LEDGER_ACCOUNT)) == Gain(b.wallets)
  }

  /** What every bank that serial operations can reach satisfies. */
  ghost predicate Conserved(h: Hash, b: Bank) {
    Balanced(b) && ValidBook(h, b.book)
  }

  lemma TotalAppended(recs: seq<Record>, r: Record)
    ensures Total(recs + [r]) == Total(recs) + r.amount
  {
    assert (recs + [r])[..|recs|] == recs;
  }

  /** A wallet's total and the ledger move by the same amount. */
  lemma MoveBalances(b: Bank, b': Bank, who: string, total: int, r: Record)
    requires Balanced(b) && InRange(total) && r.amount == total - BalanceOf(b, who).total
    requires b'.wallets == b.wallets[who := BalanceOf(b, who).(total := total)]
    requires ListOf(b'.book, LEDGER_ACCOUNT) == ListOf(b.book, LEDGER_ACCOUNT) + [r]
    ensures Balanced(b')
  {
    TotalAppended(ListOf(b.book, LEDGER_ACCOUNT), r);
    GainMoves(b, who, total);
  }

  lemma OpenedBalances(b: Bank, who: string)
    requires Balanced(b)
    ensures Balanced(Opened(b, who))
  {
    GainMoves(b, who, BalanceOf(b, who).total);
  }

  lemma AppliedConserves(h: Hash, b: Bank, who: string, op: Op, source: string, at: Timestamp)
    requires Conserved(h, b) && IsOp(op) && op != Settle(MIN_INT64)
    ensures Conserved(h, Applied(h, b, who, op, source, at).0)
  {
    var w := BalanceOf(b, who);
    OutcomeMovesByDelta(w.total, op);
    match Outcome(w.total, op)
    case Failure(_) =>
      OpenedBalances(b, who);
    case Success(t) =>
      var tx, recs := TxOf(op, who, source, at), ListOf(b.book, LEDGER_ACCOUNT);
      MoveBalances(b, Applied(h, b, who, op, source, at).0, who, t, NewRecord(h, recs, LEDGER_ACCOUNT, tx));
      PostKeepsBook(h, b.book, LEDGER_ACCOUNT, tx);
  }

  // ---------------------------------------------------------------------------------------
  // A withdrawal in two steps: under the wallet's mutex, but with the ledger free in between
  // ---------------------------------------------------------------------------------------

  /** The record written and the total lowered, by a call that had read the list seen. */
  function Landed(h: Hash, b: Bank, who: string, amount: int, seen: seq<Record>, source: string, at: Timestamp): Bank
    requires Cents(b) && IsInt64(amount)
  {
    var w, recs := BalanceOf(b, who), ListOf(b.book, LEDGER_ACCOUNT);
    var tx := TxOf(Op.Withdraw(amount), who, source, at);
    Bank(b.wallets[who := w.(total := Int64(w.total - amount))],
         b.book[LEDGER_ACCOUNT := recs + [NewRecord(h, seen, LEDGER_ACCOUNT, tx)]])
  }

  lemma LandedMoves(h: Hash, b: Bank, who: string, amount: int, seen: seq<Record>, source: string, at: Timestamp)
    returns (r: Record)
    requires Cents(b) && 0 < amount <= BalanceOf(b, who).total <= MAX_INT64
    ensures r.amount == -amount
    ensures var b', w := Landed(h, b, who, amount, seen, source, at), BalanceOf(b, who);
            && b'.wallets == b.wallets[who := w.(total := w.total - amount)]
            && ListOf(b'.book, LEDGER_ACCOUNT) == ListOf(b.book, LEDGER_ACCOUNT) + [r]
  {
    r := NewRecord(h, seen, LEDGER_ACCOUNT, TxOf(Op.Withdraw(amount), who, source, at));
  }

  /** Whatever the call had read, what it writes is what the wallet loses. */
  lemma LandedBalances(h: Hash, b: Bank, who: string, amount: int, seen: seq<Record>, source: string, at: Timestamp)
    requires Balanced(b) && 0 < amount <= BalanceOf(b, who).total
    ensures Balanced(Landed(h, b, who, amount, seen, source, at))
  {
    var r := LandedMoves(h, b, who, amount, seen, source, at);
    MoveBalances(b, Landed(h, b, who, amount, seen, source, at), who, BalanceOf(b, who).total - amount, r);
  }

  /** Undisturbed, the two steps are the operation. */
  lemma LandedIsApplied(h: Hash, b: Bank, who: string, amount: int, source: string, at: Timestamp)
    requires Cents(b) && IsInt64(amount) && Outcome(BalanceOf(b, who).total, Op.Withdraw(amount)).Success?
    ensures Cents(Opened(b, who))
    ensures Landed(h, Opened(b, who), who, amount, ListOf(b.book, LEDGER_ACCOUNT), source, at)
            == Applied(h, b, who, Op.Withdraw(amount), source, at).0
  {
    var w, t := BalanceOf(b, who), Int64(BalanceOf(b, who).total - amount);
    assert Outcome(w.total, Op.Withdraw(amount)) == Success(t);
    assert b.wallets[who := w][who := w.(total := t)] == b.wallets[who := w.(total := t)];
  }

  /** A request to the bank. */
  datatype Order = Order(who: string, op: Op, source: string, at: Timestamp)

  function Run(h: Hash, b: Bank, orders: seq<Order>): (r: Bank)
    requires Cents(b) && forall i :: 0 <= i < |orders| ==> IsOp(orders[i].op)
    decreases |orders|
  {
    if orders == [] then b else
      var o := orders[0];
      Run(h, Applied(h, b, o.who, o.op, o.source, o.at).0, orders[1..])
  }

  predicate Orderly(orders: seq<Order>) {
    forall i :: 0 <= i < |orders| ==> IsOp(orders[i].op) && orders[i].op != Settle(MIN_INT64)
  }

  /**
   Conservation: over every sequence of deposits, withdrawals and settlements (of anything but
   MinInt64) on any number of wallets sharing one ledger, every balance stays in [0, MaxInt64], the
   ledger sums to what the wallets gained, and the chain keeps verifying.
   */
  lemma {:induction false} RunsConserve(h: Hash, b: Bank, orders: seq<Order>)
    requires Conserved(h, b) && Orderly(orders)
    ensures Conserved(h, Run(h, b, orders))
    decreases |orders|
  {
    if orders != [] {
      var o := orders[0];
      AppliedConserves(h, b, o.who, o.op, o.source, o.at);
      RunsConserve(h, Applied(h, b, o.who, o.op, o.source, o.at).0, orders[1..]);
    }
  }

  // ---------------------------------------------------------------------------------------
  // A single wallet: the int64 balance is the exact one
  // ---------------------------------------------------------------------------------------

  /** No prefix of the ledger sums to more than a wallet seeded with seed could gain or lose. */
  ghost predicate PrefixesInRange(recs: seq<Record>, seed: int) {
    forall n :: 0 <= n <= |recs| ==> -seed <= Total(recs[..n]) <= MAX_INT64 - seed
  }

  lemma PostedPrefixes(recs: seq<Record>, r: Record, seed: int)
    requires PrefixesInRange(recs, seed) && -seed <= Total(recs) + r.amount <= MAX_INT64 - seed
    ensures PrefixesInRange(recs + [r], seed)
  {
    forall n | 0 <= n <= |recs + [r]|
      ensures -seed <= Total((recs + [r])[..n]) <= MAX_INT64 - seed
    {
      if n <= |recs| {
        assert (recs + [r])[..n] == recs[..n];
      } else {
        assert (recs + [r])[..n] == recs + [r] && (recs + [r])[..|recs|] == recs;
      }
    }
  }

  /**
   With a single wallet no partial sum of Balance's loop leaves int64, so Balance is exactly what
   the wallet holds beyond its seed.
   */
  lemma {:induction false} SingleWalletBalance(h: Hash, b: Bank, who: string, orders: seq<Order>)
    requires Conserved(h, b) && Orderly(orders) && b.wallets.Keys == {who}
    requires forall i :: 0 <= i < |orders| ==> orders[i].who == who
    requires PrefixesInRange(ListOf(b.book, LEDGER_ACCOUNT), b.wallets[who].seed)
    ensures var b' := Run(h, b, orders);
            var recs := ListOf(b'.book, LEDGER_ACCOUNT);
            && who in b'.wallets && b'.wallets[who].seed == b.wallets[who].seed
            && PrefixesInRange(recs, b.wallets[who].seed)
            && (forall n :: 0 <= n <= |recs| ==> Wrap64(Total(recs[..n])) == Total(recs[..n]))
            && Wrap64(Total(recs)) == b'.wallets[who].total - b'.wallets[who].seed
    decreases |orders|
  {
    var recs := ListOf(b.book, LEDGER_ACCOUNT);
    if orders == [] {
      GainWithout(b.wallets, who);
      assert b.wallets - {who} == map[];
      assert recs[..|recs|] == recs;
    } else {
      var o := orders[0];
      var b' := Applied(h, b, who, o.op, o.source, o.at).0;
      AppliedConserves(h, b, who, o.op, o.source, o.at);
      assert b'.wallets.Keys == {who};
      if Outcome(b.wallets[who].total, o.op).Success? {
        GainWithout(b.wallets, who);
        assert b.wallets - {who} == map[];
        OutcomeMovesByDelta(b.wallets[who].total, o.op);
        PostedPrefixes(recs, NewRecord(h, recs, LEDGER_ACCOUNT, TxOf(o.op, who, o.source, o.at)), b.wallets[who].seed);
      }
      SingleWalletBalance(h, b', who, orders[1..]);
    }
  }
}
