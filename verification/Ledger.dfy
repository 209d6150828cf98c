/**
 The append-only, hash-chained ledger (ledger/). SHA-256 with hex encoding is a parameter h: nothing
 is assumed of it except, where a lemma says so, that it does not collide on the payloads at hand.
 */
module Ledger {
  import opened Common
  import opened Text

  datatype Record = Record(
    id: int,
    account: string,
    amount: int,
    txType: string,
    actor: string,
    source: string,
    prevHash: string,
    recordHash: string,
    createdAt: Timestamp)

  type Hash = string -> string

  const GENESIS := "floodguard-ledger-genesis"

  function HashedParts(r: Record): (parts: seq<string>)
    ensures |parts| == 7
  {
    [r.prevHash, r.account, FormatInt(r.amount), r.txType, r.actor, r.source, FormatTime(r.createdAt)]
  }

  function Payload(r: Record): string {
    Join(HashedParts(r), '|')
  }

  /** The hashed text, written out. */
  lemma PayloadText(r: Record)
    ensures Payload(r) ==
            r.prevHash + "|" + r.account + "|" + FormatInt(r.amount) + "|" + r.txType + "|" + r.actor + "|" + r.source
            + "|" + FormatTime(r.createdAt)
  {
    var p := HashedParts(r);
    assert p[6..] == [p[6]] && p[5..][1..] == p[6..] && p[4..][1..] == p[5..] && p[3..][1..] == p[4..];
    assert p[2..][1..] == p[3..] && p[1..][1..] == p[2..];
    assert Join(p[5..], '|') == p[5] + "|" + p[6];
    assert Join(p[4..], '|') == p[4] + "|" + Join(p[5..], '|');
    assert Join(p[3..], '|') == p[3] + "|" + Join(p[4..], '|');
    assert Join(p[2..], '|') == p[2] + "|" + Join(p[3..], '|');
    assert Join(p[1..], '|') == p[1] + "|" + Join(p[2..], '|');
  }

  /** The hash the next record has to link to. */
  function Tip(h: Hash, recs: seq<Record>): string {
    if recs == [] then h(GENESIS) else recs[|recs| - 1].recordHash
  }

  /** Record i links to its predecessor and carries its own hash. */
  predicate Sound(h: Hash, recs: seq<Record>, i: nat)
    requires i < |recs|
  {
    recs[i].prevHash == Tip(h, recs[..i]) && recs[i].recordHash == h(Payload(recs[i]))
  }

  predicate ValidChain(h: Hash, recs: seq<Record>) {
    forall i :: 0 <= i < |recs| ==> Sound(h, recs, i)
  }

  /** What a caller asks to record. */
  datatype Tx = Tx(amount: int, txType: string, actor: string, source: string, at: Timestamp)

  /** The record RecordTransaction builds from the list it has read. */
  function NewRecord(h: Hash, seen: seq<Record>, account: string, tx: Tx): (r: Record)
    ensures r.prevHash == Tip(h, seen) && r.recordHash == h(Payload(r))
  {
    var r := Record(|seen| + 1, account, tx.amount, tx.txType, tx.actor, tx.source, Tip(h, seen), "", tx.at);
    assert HashedParts(r) == HashedParts(r.(recordHash := h(Payload(r))));
    r.(recordHash := h(Payload(r)))
  }

  function Total(recs: seq<Record>): (t: int) {
    if recs == [] then 0 else Total(recs[..|recs| - 1]) + recs[|recs| - 1].amount
  }

  type Book = map<string, seq<Record>>

  function ListOf(b: Book, account: string): seq<Record> {
    if account in b then b[account] else []
  }

  function Posted(h: Hash, b: Book, account: string, tx: Tx): Book {
    b[account := ListOf(b, account) + [NewRecord(h, ListOf(b, account), account, tx)]]
  }

  ghost predicate Numbered(recs: seq<Record>, account: string) {
    forall i :: 0 <= i < |recs| ==> recs[i].id == i + 1 && recs[i].account == account
  }

  ghost predicate ValidBook(h: Hash, b: Book) {
    forall a :: a in b ==> ValidChain(h, b[a]) && Numbered(b[a], a)
  }

  /**
   One record more on this account: numbered after the last, linked to it, carrying its own hash and
   exactly what was asked for. Nothing else has changed.
   */
  ghost predicate Wrote(h: Hash, b: Book, b': Book, account: string, tx: Tx) {
    var before, after := ListOf(b, account), ListOf(b', account);
    && (forall a: string :: a != account ==> (a in b' <==> a in b) && ListOf(b', a) == ListOf(b, a))
    && |after| == |before| + 1 && after[..|before|] == before
    && var r := after[|before|];
       && r.id == |before| + 1 && r.account == account && r.amount == tx.amount && r.txType == tx.txType
       && r.actor == tx.actor && r.source == tx.source && r.createdAt == tx.at
       && r.prevHash == (if before == [] then h(GENESIS) else before[|before| - 1].recordHash)
       && r.recordHash == h(Payload(r))
  }

  datatype Error = AccountRequired

  /** The ledger over the in-process store. */
  class Ledger {
    const h: Hash
    var records: Book

    constructor (h: Hash)
      ensures this.h == h && records == map[]
    {
      this.h := h;
      records := map[];
    }

    /** One serialised call: the list is read, the record appended, and nothing else moves. */
    method RecordTransaction(account: string, tx: Tx) returns (r: Result<Record, Error>)
      modifies this
      ensures account == "" ==> r == Failure(AccountRequired) && records == old(records)
      ensures account != "" ==> records == Posted(h, old(records), account, tx)
      ensures account != "" ==>
                && Wrote(h, old(records), records, account, tx)
                && r == Success(ListOf(records, account)[|ListOf(old(records), account)|])
      ensures ValidBook(h, old(records)) ==> ValidBook(h, records)
    {
      if account == "" {
        return Failure(AccountRequired);
      }
      var existing := ListOf(records, account);
      var prev := h(GENESIS);
      if |existing| > 0 {
        prev := existing[|existing| - 1].recordHash;
      }
      var rec := Record(|existing| + 1, account, tx.amount, tx.txType, tx.actor, tx.source, prev, "", tx.at);
      rec := rec.(recordHash := h(Payload(rec)));
      records := records[account := ListOf(records, account) + [rec]];
      if ValidBook(h, old(records)) {
        PostKeepsBook(h, old(records), account, tx);
      }
      return Success(rec);
    }

    /** Accepts exactly the chains all of whose records are sound, else reports the first that is not. */
    method VerifyChainIntegrity(account: string) returns (ok: bool, brokenAt: nat)
      ensures ok <==> ValidChain(h, ListOf(records, account))
      ensures ok ==> brokenAt == 0
      ensures !ok ==> 1 <= brokenAt <= |ListOf(records, account)|
                      && !Sound(h, ListOf(records, account), brokenAt - 1)
                      && forall j :: 0 <= j < brokenAt - 1 ==> Sound(h, ListOf(records, account), j)
    {
      var recs := ListOf(records, account);
      if |recs| == 0 {
        return true, 0;
      }
      var expectedPrev := h(GENESIS);
      for i := 0 to |recs|
        invariant expectedPrev == Tip(h, recs[..i])
        invariant forall j :: 0 <= j < i ==> Sound(h, recs, j)
      {
        assert Sound(h, recs, i) <==> recs[i].prevHash == expectedPrev && recs[i].recordHash == h(Payload(recs[i]));
        if recs[i].prevHash != expectedPrev {
          return false, i + 1;
        }
        if recs[i].recordHash != h(Payload(recs[i])) {
          return false, i + 1;
        }
        expectedPrev := recs[i].recordHash;
        assert Tip(h, recs[..i + 1]) == expectedPrev;
      }
      return true, 0;
    }

    /** The int64 sum, wrapping as Go's does. */
    method Balance(account: string) returns (sum: int)
      requires forall i :: 0 <= i < |ListOf(records, account)| ==> IsInt64(ListOf(records, account)[i].amount)
      ensures sum == Wrap64(Total(ListOf(records, account)))
    {
      var recs := ListOf(records, account);
      sum := 0;
      for i := 0 to |recs|
        invariant sum == Wrap64(Total(recs[..i]))
      {
        WrapAdd(Total(recs[..i]), recs[i].amount);
        assert recs[..i + 1][..i] == recs[..i];
        sum := Int64(sum + recs[i].amount);
      }
      assert recs[..|recs|] == recs;
    }
  }

  // ---------------------------------------------------------------------------------------
  // Serialised writing
  // ---------------------------------------------------------------------------------------

  /** Extending a list leaves the soundness of its records alone. */
  lemma SoundPrefix(h: Hash, recs: seq<Record>, more: seq<Record>, i: nat)
    requires i < |recs|
    ensures Sound(h, recs + more, i) == Sound(h, recs, i)
  {
    assert (recs + more)[..i] == recs[..i];
  }

  lemma ExtendChain(h: Hash, recs: seq<Record>, r: Record)
    ensures ValidChain(h, recs + [r]) <==>
            ValidChain(h, recs) && r.prevHash == Tip(h, recs) && r.recordHash == h(Payload(r))
  {
    assert (recs + [r])[..|recs|] == recs;
    assert Sound(h, recs + [r], |recs|) <==> r.prevHash == Tip(h, recs) && r.recordHash == h(Payload(r));
    forall i | 0 <= i < |recs|
      ensures Sound(h, recs + [r], i) == Sound(h, recs, i)
    {
      SoundPrefix(h, recs, [r], i);
    }
  }

  lemma PostKeepsBook(h: Hash, b: Book, account: string, tx: Tx)
    requires ValidBook(h, b)
    ensures ValidBook(h, Posted(h, b, account, tx))
  {
    var recs := ListOf(b, account);
    ExtendChain(h, recs, NewRecord(h, recs, account, tx));
  }

  function PostAll(h: Hash, b: Book, posts: seq<(string, Tx)>): (r: Book)
    decreases |posts|
  {
    if posts == [] then b else PostAll(h, Posted(h, b, posts[0].0, posts[0].1), posts[1..])
  }

  /**
   After any run of serialised transactions over any accounts, every chain verifies, its records are
   numbered 1..n, and the records that were there before are still there, unchanged and in place.
   */
  lemma {:induction false} SerialRunsVerify(h: Hash, b: Book, posts: seq<(string, Tx)>)
    requires ValidBook(h, b)
    ensures ValidBook(h, PostAll(h, b, posts))
    ensures forall a :: ListOf(b, a) <= ListOf(PostAll(h, b, posts), a)
    decreases |posts|
  {
    if posts != [] {
      PostKeepsBook(h, b, posts[0].0, posts[0].1);
      var b' := Posted(h, b, posts[0].0, posts[0].1);
      SerialRunsVerify(h, b', posts[1..]);
      forall a: string
        ensures ListOf(b, a) <= ListOf(PostAll(h, b, posts), a)
      {
        assert ListOf(b, a) <= ListOf(b', a) <= ListOf(PostAll(h, b', posts[1..]), a);
      }
    }
  }

  // ---------------------------------------------------------------------------------------
  // What the last hash pins down
  // ---------------------------------------------------------------------------------------

  /** Text fields that do not contain the separator. */
  predicate PipeFree(r: Record) {
    && Free(r.prevHash, '|') && Free(r.account, '|') && Free(r.txType, '|')
    && Free(r.actor, '|') && Free(r.source, '|')
  }

  predicate AllPipeFree(recs: seq<Record>) {
    forall i :: 0 <= i < |recs| ==> PipeFree(recs[i])
  }

  ghost function Payloads(recs: seq<Record>): set<string> {
    set i | 0 <= i < |recs| :: Payload(recs[i])
  }

  ghost predicate CollisionFree(h: Hash, texts: set<string>) {
    forall p, q :: p in texts && q in texts && h(p) == h(q) ==> p == q
  }

  /** Every field that goes into the hash, and the hash itself. */
  predicate SameHashed(a: Record, b: Record) {
    && a.prevHash == b.prevHash && a.account == b.account && a.amount == b.amount
    && a.txType == b.txType && a.actor == b.actor && a.source == b.source
    && a.createdAt == b.createdAt && a.recordHash == b.recordHash
  }

  lemma IntIsPipeFree(x: int)
    ensures Free(FormatInt(x), '|')
  {
  }

  lemma PayloadInjective(a: Record, b: Record)
    requires PipeFree(a) && PipeFree(b) && Payload(a) == Payload(b)
    ensures HashedParts(a) == HashedParts(b)
    ensures a.amount == b.amount && a.createdAt == b.createdAt
  {
    IntIsPipeFree(a.amount);
    IntIsPipeFree(b.amount);
    JoinInjective(HashedParts(a), HashedParts(b), '|');
    assert HashedParts(a)[2] == HashedParts(b)[2] && HashedParts(a)[6] == HashedParts(b)[6];
    FormatIntInjective(a.amount, b.amount);
    FormatTimeInjective(a.createdAt, b.createdAt);
  }

  lemma SamePayloadSameFields(h: Hash, a: Record, b: Record)
    requires PipeFree(a) && PipeFree(b) && Payload(a) == Payload(b)
    requires a.recordHash == h(Payload(a)) && b.recordHash == h(Payload(b))
    ensures SameHashed(a, b)
  {
    PayloadInjective(a, b);
    var p, q := HashedParts(a), HashedParts(b);
    assert p[0] == q[0] && p[1] == q[1] && p[3] == q[3] && p[4] == q[4] && p[5] == q[5];
  }

  lemma PayloadIsNotGenesis(r: Record)
    ensures Payload(r) != GENESIS
  {
    var parts := HashedParts(r);
    assert Payload(r)[|parts[0]|] == '|';
    assert '|' in Payload(r) && '|' !in GENESIS;
  }

  /** No record's hash is the genesis hash. */
  lemma TipIsNotGenesis(h: Hash, recs: seq<Record>)
    requires recs != [] && ValidChain(h, recs) && CollisionFree(h, Payloads(recs) + {GENESIS})
    ensures Tip(h, recs) != h(GENESIS)
  {
    var last := |recs| - 1;
    assert Sound(h, recs, last);
    PayloadIsNotGenesis(recs[last]);
    assert Payload(recs[last]) in Payloads(recs);
  }

  lemma InitChain(h: Hash, recs: seq<Record>)
    requires recs != [] && ValidChain(h, recs)
    ensures var init := recs[..|recs| - 1];
            ValidChain(h, init) && recs[|recs| - 1].prevHash == Tip(h, init) && Payloads(init) <= Payloads(recs)
  {
    var init := recs[..|recs| - 1];
    assert recs == init + [recs[|recs| - 1]];
    ExtendChain(h, init, recs[|recs| - 1]);
    forall p | p in Payloads(init)
      ensures p in Payloads(recs)
    {
      var i :| 0 <= i < |init| && p == Payload(init[i]);
      assert recs[i] == init[i];
    }
  }

  /** Equal tips force equal last records, and equal tips before them. */
  lemma LastRecordsAgree(h: Hash, a: seq<Record>, b: seq<Record>)
    requires a != [] && b != [] && ValidChain(h, a) && ValidChain(h, b) && AllPipeFree(a) && AllPipeFree(b)
    requires CollisionFree(h, Payloads(a) + Payloads(b) + {GENESIS}) && Tip(h, a) == Tip(h, b)
    ensures SameHashed(a[|a| - 1], b[|b| - 1]) && Tip(h, a[..|a| - 1]) == Tip(h, b[..|b| - 1])
  {
    var x, y := a[|a| - 1], b[|b| - 1];
    assert Sound(h, a, |a| - 1) && Sound(h, b, |b| - 1);
    assert Payload(x) in Payloads(a) && Payload(y) in Payloads(b);
    SamePayloadSameFields(h, x, y);
  }

  ghost predicate AllSame(a: seq<Record>, b: seq<Record>) {
    |a| == |b| && forall i :: 0 <= i < |a| ==> SameHashed(a[i], b[i])
  }

  lemma AllSameGrows(a: seq<Record>, b: seq<Record>)
    requires a != [] && b != [] && AllSame(a[..|a| - 1], b[..|b| - 1]) && SameHashed(a[|a| - 1], b[|b| - 1])
    ensures AllSame(a, b)
  {
    var a', b' := a[..|a| - 1], b[..|b| - 1];
    forall i | 0 <= i < |a|
      ensures SameHashed(a[i], b[i])
    {
      if i < |a| - 1 {
        assert SameHashed(a'[i], b'[i]);
      }
    }
  }

  /** What chains with equal tips hand down to the chains without their last records. */
  lemma InitsAgree(h: Hash, a: seq<Record>, b: seq<Record>)
    requires a != [] && b != [] && ValidChain(h, a) && ValidChain(h, b) && AllPipeFree(a) && AllPipeFree(b)
    requires CollisionFree(h, Payloads(a) + Payloads(b) + {GENESIS}) && Tip(h, a) == Tip(h, b)
    ensures var a', b' := a[..|a| - 1], b[..|b| - 1];
            && ValidChain(h, a') && ValidChain(h, b') && AllPipeFree(a') && AllPipeFree(b') && Tip(h, a') == Tip(h, b')
            && CollisionFree(h, Payloads(a') + Payloads(b') + {GENESIS}) && SameHashed(a[|a| - 1], b[|b| - 1])
  {
    LastRecordsAgree(h, a, b);
    InitChain(h, a);
    InitChain(h, b);
  }

  /**
   Tamper evidence: two chains that verify and end in the same hash have the same length and agree
   on every hashed field of every record, given that h does not collide on their payloads and the
   genesis text, and that text fields are free of the separator.
   */
  lemma {:induction false} TipDeterminesChain(h: Hash, a: seq<Record>, b: seq<Record>)
    requires ValidChain(h, a) && ValidChain(h, b) && AllPipeFree(a) && AllPipeFree(b)
    requires CollisionFree(h, Payloads(a) + Payloads(b) + {GENESIS})
    requires Tip(h, a) == Tip(h, b)
    ensures |a| == |b| && forall i :: 0 <= i < |a| ==> SameHashed(a[i], b[i])
    decreases |a|
  {
    if a == [] && b != [] {
      TipIsNotGenesis(h, b);
    } else if a != [] && b == [] {
      TipIsNotGenesis(h, a);
    } else if a != [] {
      InitsAgree(h, a, b);
      TipDeterminesChain(h, a[..|a| - 1], b[..|b| - 1]);
      AllSameGrows(a, b);
    }
  }

  // ---------------------------------------------------------------------------------------
  // Overlapping writers
  // ---------------------------------------------------------------------------------------

  /**
   RecordTransaction reads the list and appends later, holding no lock in between. Appending a record
   built from an earlier read keeps the chain valid exactly when nothing was appended meanwhile.
   */
  lemma StaleAppendBreaksChain(h: Hash, seen: seq<Record>, chain: seq<Record>, account: string, tx: Tx)
    requires seen <= chain && ValidChain(h, chain) && AllPipeFree(chain)
    requires CollisionFree(h, Payloads(chain) + {GENESIS})
    ensures ValidChain(h, chain + [NewRecord(h, seen, account, tx)]) <==> seen == chain
  {
    ExtendChain(h, chain, NewRecord(h, seen, account, tx));
    if Tip(h, seen) == Tip(h, chain) {
      assert forall i :: 0 <= i < |seen| ==> seen[i] == chain[i];
      assert chain == seen + chain[|seen|..];
      forall i | 0 <= i < |seen|
        ensures Sound(h, seen, i)
      {
        SoundPrefix(h, seen, chain[|seen|..], i);
      }
      assert Payloads(seen) + Payloads(chain) + {GENESIS} == Payloads(chain) + {GENESIS};
      TipDeterminesChain(h, seen, chain);
    }
  }

  /** Steps of writers of one account: reading the list, or appending from what was read. */
  datatype Op = Read(writer: nat) | Write(writer: nat, tx: Tx)

  predicate CanRun(snaps: set<nat>, ops: seq<Op>)
    decreases |ops|
  {
    ops == [] ||
    match ops[0]
    case Read(w) => CanRun(snaps + {w}, ops[1..])
    case Write(w, _) => w in snaps && CanRun(snaps - {w}, ops[1..])
  }

  function Interleave(h: Hash, account: string, chain: seq<Record>, snaps: map<nat, seq<Record>>,
                      ops: seq<Op>): (r: seq<Record>)
    requires CanRun(snaps.Keys, ops)
    decreases |ops|
  {
    if ops == [] then chain else
    match ops[0]
    case Read(w) =>
      assert snaps[w := chain].Keys == snaps.Keys + {w};
      Interleave(h, account, chain, snaps[w := chain], ops[1..])
    case Write(w, tx) => Interleave(h, account, chain + [NewRecord(h, snaps[w], account, tx)], snaps - {w}, ops[1..])
  }

  /** Every write appends to the very list its writer read: no two calls overlap in a conflicting way. */
  predicate NoneStale(h: Hash, account: string, chain: seq<Record>, snaps: map<nat, seq<Record>>, ops: seq<Op>)
    requires CanRun(snaps.Keys, ops)
    decreases |ops|
  {
    ops == [] ||
    match ops[0]
    case Read(w) =>
      assert snaps[w := chain].Keys == snaps.Keys + {w};
      NoneStale(h, account, chain, snaps[w := chain], ops[1..])
    case Write(w, tx) =>
      && snaps[w] == chain
      && NoneStale(h, account, chain + [NewRecord(h, snaps[w], account, tx)], snaps - {w}, ops[1..])
  }

  /** What at most one operation makes of the list and the snapshots. */
  ghost predicate Follows(h: Hash, account: string, chain: seq<Record>, snaps: map<nat, seq<Record>>, ops: seq<Op>,
                          chain': seq<Record>, snaps': map<nat, seq<Record>>)
  {
    |ops| <= 1 &&
    if ops == [] then chain' == chain && snaps' == snaps else
    match ops[0]
    case Read(w) => chain' == chain && snaps' == snaps[w := chain]
    case Write(w, tx) => w in snaps && chain' == chain + [NewRecord(h, snaps[w], account, tx)] && snaps' == snaps - {w}
  }

  predicate Stale(chain: seq<Record>, snaps: map<nat, seq<Record>>, ops: seq<Op>) {
    |ops| == 1 && ops[0].Write? && ops[0].writer in snaps && snaps[ops[0].writer] != chain
  }

  lemma InterleaveStep(h: Hash, account: string, chain: seq<Record>, snaps: map<nat, seq<Record>>, ops: seq<Op>,
                       chain': seq<Record>, snaps': map<nat, seq<Record>>, rest: seq<Op>)
    requires Follows(h, account, chain, snaps, ops, chain', snaps') && CanRun(snaps'.Keys, rest)
    ensures CanRun(snaps.Keys, ops + rest)
    ensures Interleave(h, account, chain, snaps, ops + rest) == Interleave(h, account, chain', snaps', rest)
    ensures NoneStale(h, account, chain, snaps, ops + rest) <==>
            !Stale(chain, snaps, ops) && NoneStale(h, account, chain', snaps', rest)
  {
    if ops == [] {
      assert ops + rest == rest;
    } else {
      assert (ops + rest)[0] == ops[0] && (ops + rest)[1..] == rest;
      assert ops[0].Read? ==> snaps'.Keys == snaps.Keys + {ops[0].writer};
      assert ops[0].Write? ==> snaps'.Keys == snaps.Keys - {ops[0].writer};
    }
  }

  lemma {:induction false} InterleaveExtends(h: Hash, account: string, chain: seq<Record>, snaps: map<nat,
                                             seq<Record>>, ops: seq<Op>)
    requires CanRun(snaps.Keys, ops)
    ensures chain <= Interleave(h, account, chain, snaps, ops)
    decreases |ops|
  {
    if ops != [] {
      match ops[0]
      case Read(w) =>
        assert snaps[w := chain].Keys == snaps.Keys + {w};
        InterleaveExtends(h, account, chain, snaps[w := chain], ops[1..]);
      case Write(w, tx) =>
        InterleaveExtends(h, account, chain + [NewRecord(h, snaps[w], account, tx)], snaps - {w}, ops[1..]);
    }
  }

  /** Facts about a list that hold of its prefixes. */
  lemma PrefixFacts(h: Hash, a: seq<Record>, b: seq<Record>)
    requires a <= b
    ensures AllPipeFree(b) ==> AllPipeFree(a)
    ensures CollisionFree(h, Payloads(b) + {GENESIS}) ==> CollisionFree(h, Payloads(a) + {GENESIS})
    ensures ValidChain(h, b) ==> ValidChain(h, a)
  {
    assert forall i :: 0 <= i < |a| ==> a[i] == b[i];
    assert b == a + b[|a|..];
    forall i | 0 <= i < |a|
      ensures Sound(h, a, i) == Sound(h, b, i)
    {
      SoundPrefix(h, a, b[|a|..], i);
    }
  }

  /**
   Any interleaving of writers of one account leaves a chain that verifies exactly when no write was
   based on a list that had changed since it was read.
   */
  lemma {:induction false} ChainValidIffNoneStale(h: Hash, account: string, chain: seq<Record>, snaps: map<nat,
                                                  seq<Record>>, ops: seq<Op>)
    requires CanRun(snaps.Keys, ops) && ValidChain(h, chain)
    requires forall w :: w in snaps ==> snaps[w] <= chain
    requires AllPipeFree(Interleave(h, account, chain, snaps, ops))
    requires CollisionFree(h, Payloads(Interleave(h, account, chain, snaps, ops)) + {GENESIS})
    ensures ValidChain(h, Interleave(h, account, chain, snaps, ops)) <==> NoneStale(h, account, chain, snaps, ops)
    decreases |ops|
  {
    if ops != [] {
      var final := Interleave(h, account, chain, snaps, ops);
      match ops[0]
      case Read(w) =>
        assert snaps[w := chain].Keys == snaps.Keys + {w};
        ChainValidIffNoneStale(h, account, chain, snaps[w := chain], ops[1..]);
      case Write(w, tx) =>
        var chain' := chain + [NewRecord(h, snaps[w], account, tx)];
        InterleaveExtends(h, account, chain', snaps - {w}, ops[1..]);
        PrefixFacts(h, chain', final);
        PrefixFacts(h, chain, chain');
        StaleAppendBreaksChain(h, snaps[w], chain, account, tx);
        if ValidChain(h, chain') {
          ChainValidIffNoneStale(h, account, chain', snaps - {w}, ops[1..]);
        }
    }
  }

  /** A stale write also repeats a number: whatever the hash, numbers are 1..n exactly when no write was stale. */
  lemma {:induction false} NumberedIffNoneStale(
      h: Hash, account: string, chain: seq<Record>, snaps: map<nat, seq<Record>>, ops: seq<Op>)
    requires CanRun(snaps.Keys, ops) && Numbered(chain, account)
    requires forall w :: w in snaps ==> snaps[w] <= chain
    ensures Numbered(Interleave(h, account, chain, snaps, ops), account) <==> NoneStale(h, account, chain, snaps, ops)
    decreases |ops|
  {
    if ops != [] {
      match ops[0]
      case Read(w) =>
        assert snaps[w := chain].Keys == snaps.Keys + {w};
        NumberedIffNoneStale(h, account, chain, snaps[w := chain], ops[1..]);
      case Write(w, tx) =>
        var chain' := chain + [NewRecord(h, snaps[w], account, tx)];
        if snaps[w] == chain {
          NumberedIffNoneStale(h, account, chain', snaps - {w}, ops[1..]);
        } else {
          InterleaveExtends(h, account, chain', snaps - {w}, ops[1..]);
          assert Interleave(h, account, chain', snaps - {w}, ops[1..])[|chain|] == chain'[|chain|];
        }
    }
  }
}
