/**
 The withdraw handler's account map (example/app/service.go) and the middleware's response recorder
 (middleware/http.go), as objects whose fields change.
 */
module Service {
  import opened Common
  import opened Text
  import Ledger
  import Wallet
  import Idem = Idempotency
  import Pipeline

  const OK := 200
  const BAD_REQUEST := 400
  const PAYMENT_REQUIRED := 402

  function StatusOf(r: Result<(), Wallet.Error>): int {
    match r
    case Success(_) => OK
    case Failure(InsufficientFunds) => PAYMENT_REQUIRED
    case Failure(_) => BAD_REQUEST
  }

  class Service {
    var accounts: map<string, Wallet.Account>
    const ledger: Ledger.Ledger

    /** Every seeded account gets its own wallet. */
    constructor (ledger: Ledger.Ledger, seed: map<string, int>)
      requires forall who :: who in seed ==> IsInt64(seed[who])
      ensures this.ledger == ledger && fresh(Wallets())
      ensures Holds(Wallet.Bank(map who | who in seed :: Wallet.Balance(seed[who], seed[who]), ledger.records))
    {
      this.ledger, accounts := ledger, map[];
      new;
      var left := seed.Keys;
      while left != {}
        invariant left <= seed.Keys && ledger.records == old(ledger.records)
        invariant forall who :: who in accounts ==> fresh(accounts[who])
        invariant forall who :: who in accounts <==> who in seed && who !in left
        invariant forall who :: who in accounts ==> accounts[who].Valid() && accounts[who].totalCents == seed[who]
        invariant Distinct()
      {
        var who :| who in left;
        var account := new Wallet.Account(seed[who]);
        accounts := accounts[who := account];
        left := left - {who};
      }
    }

    ghost function Wallets(): set<Wallet.Account>
      reads this
    {
      set who | who in accounts :: accounts[who]
    }

    predicate Distinct()
      reads this
    {
      forall who, other :: who in accounts && other in accounts && who != other ==>
        accounts[who] != accounts[other]
    }

    /** Every wallet is at rest, no two accounts share one, and balances and ledger are those of the bank. */
    ghost predicate Holds(b: Wallet.Bank)
      reads this, Wallets(), ledger
    {
      && ledger.records == b.book
      && (forall who :: who in accounts <==> who in b.wallets)
      && (forall who :: who in accounts ==> accounts[who].Valid() && accounts[who].totalCents == b.wallets[who].total)
      && Distinct()
    }

    /**
     An undecodable body (None) changes nothing; otherwise the account is opened at need, and the
     withdrawal applied to it.
     */
    method Withdraw(who: string, amount: Option<int>, at: Timestamp, ghost b: Wallet.Bank) returns (status: int)
      requires Holds(b) && Wallet.Cents(b) && (amount.Some? ==> IsInt64(amount.value))
      modifies this, Wallets(), ledger
      ensures amount.None? ==> status == BAD_REQUEST && Holds(b)
      ensures amount.Some? ==>
                var (after, result) := Wallet.Applied(ledger.h, b, who, Wallet.Withdraw(amount.value), "api", at);
                status == StatusOf(result) && Holds(after)
      ensures amount.Some? ==>
                var had := if who in old(accounts) then old(accounts[who].totalCents) else 0;
                && (status == 200 <==> 0 < amount.value <= MAX_INT64 / 2 && amount.value <= had)
                && (status == 400 <==> amount.value <= 0 || amount.value > MAX_INT64 / 2)
                && (status == 402 <==> 0 < amount.value <= MAX_INT64 / 2 && amount.value > had)
                && who in accounts && accounts[who].totalCents == (if status == 200 then had - amount.value else had)
                && forall other :: other in old(accounts) && other != who ==>
                     other in accounts && accounts[other].totalCents == old(accounts[other].totalCents)
    {
      if amount.None? {
        return BAD_REQUEST;
      }
      if who !in accounts {
        var account := new Wallet.Account(0);
        accounts := accounts[who := account];
      }
      var r := accounts[who].Withdraw(ledger, amount.value, who, "api", at);
      status := StatusOf(r);
    }
  }

  /** Keeps the status and the body while passing both on. */
  class ResponseRecorder {
    var status: int
    var body: Bytes
    ghost var chunks: seq<Bytes>

    constructor ()
      ensures Valid() && status == OK && chunks == []
    {
      status, body, chunks := OK, [], [];
    }

    /** The body is everything written so far, in order. */
    ghost predicate Valid()
      reads this
    {
      body == Pipeline.Body(chunks)
    }

    method WriteHeader(status: int)
      requires Valid()
      modifies this
      ensures Valid() && this.status == status && chunks == old(chunks)
    {
      this.status := status;
    }

    method Write(chunk: Bytes)
      requires Valid()
      modifies this
      ensures Valid() && status == old(status) && chunks == old(chunks) + [chunk]
    {
      chunks := chunks + [chunk];
      body := body + chunk;
    }

    /** After the handler: the store is changed exactly when the machine's request would store, and to the same. */
    method StoreResponse(idem: Idem.Manager, p: Pipeline.Proc, now: int)
      requires Valid() && p.work.status == status && p.work.chunks == chunks && p.info.idemKey != ""
      modifies idem.store
      ensures var before, body := old(idem.store.entries), Pipeline.Body(chunks);
              idem.store.entries ==
              if Pipeline.Cacheable(p) then Idem.MemoryComplete(before, p.info.idemKey, body, now, idem.ttl) else before
      ensures var before, body := old(idem.store.entries), Pipeline.Body(chunks);
              idem.store.entries ==
              if 200 <= status < 300 && body != []
              then before[p.info.idemKey := Idem.Entry(false, body, now + idem.ttl)] else before
    {
      if 200 <= status < 300 && |body| > 0 {
        var _ := idem.Complete(p.info.idemKey, body, now);
      }
    }
  }

  /** Splitting a response differently into chunks does not matter, only their concatenation does. */
  lemma {:induction false} BodyConcat(a: seq<Bytes>, b: seq<Bytes>)
    ensures Pipeline.Body(a + b) == Pipeline.Body(a) + Pipeline.Body(b)
    decreases |b|
  {
    if b == [] {
      assert a + b == a;
    } else {
      var n := |b| - 1;
      assert (a + b)[..|a + b| - 1] == a + b[..n];
      BodyConcat(a, b[..n]);
    }
  }
}
