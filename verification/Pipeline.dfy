/**
 The HTTP middleware (middleware/http.go) as an interleaved machine: any number of requests, each
 stepping through IP limit, account limit, idempotency claim, velocity check, lock, handler,
 completion and release, over shared stores and one non-decreasing clock.

 Every mutex-protected store operation is one step. A withdrawal is two: it reads the ledger, and later
 appends to it. It holds its own wallet's mutex throughout, but nothing keeps other wallets from reading
 and appending in between. The rate limiters are abstract: each call may allow, deny or fail. The handler
 is any code that makes at most one withdrawal and otherwise writes status codes and chunks of body.
 */
module Pipeline {
  import opened Common
  import Text
  import Ledger
  import Idem = Idempotency
  import Lock
  import Velocity
  import VR = VelocityRuns
  import Wallet

  datatype Config = Config(
    ipLimiter: bool,
    requireKey: bool,
    requireLock: bool,
    blockOnVelocity: bool,
    action: string,
    idemTtl: nat,
    lockTtl: nat,
    rules: seq<Velocity.Rule>,
    h: Ledger.Hash)

  /** What the key functions derive from the request. */
  datatype Info = Info(ip: string, account: string, lockKey: string, idemKey: string)

  datatype Outcome =
    | BadRequest
    | StoreError
    | IpLimited
    | RateLimited
    | Conflict
    | Replayed(body: Bytes)
    | VelocityRejected
    | Locked
    | Served

  datatype Stage =
    | Arrived      // before the IP limit
    | IpPassed     // before the account limit
    | RatePassed   // before the claim
    | Claimed      // before the velocity check
    | Checking     // the velocity check is under way
    | Cleared      // before the lock
    | Running      // in the handler
    | Returned     // before storing the response
    | Releasing    // before the deferred release
    | Done(outcome: Outcome)

  /** A lock held: the token drawn for it, and when. */
  datatype Tenure = Tenure(token: string, since: int)

  /** What the handler has done: the recorder's status and chunks, its withdrawal, a panic. */
  datatype Work = Work(status: int, chunks: seq<Bytes>, called: bool, debit: Option<nat>, panicked: bool)

  const NO_WORK := Work(200, [], false, None, false)

  /**
   A cached reply: its body, the store it came from, the last grant of the key at that moment, and
   how many grants there had been.
   */
  datatype Replay = Replay(body: Bytes, from: nat, epoch: nat, seen: nat)

  /** A request in progress: its place, and what it has been given and done so far. */
  datatype Proc = Proc(
    info: Info,
    stage: Stage,
    grant: Option<nat>,
    stored: Option<nat>,
    replay: Option<Replay>,
    tenure: Option<Tenure>,
    work: Work)

  datatype Grant = Grant(key: string, req: nat, at: int)
  /** inTurn: nobody else had been granted the key since the storing request was. */
  datatype Store = Store(key: string, req: nat, grant: nat, body: Bytes, at: int, inTurn: bool)
  datatype Debit = Debit(key: string, req: nat, account: string, amount: int)

  /**
   The idempotency store with its history: who was granted, and what was stored.
   holder and writer are the last grant and the last store of each key.
   */
  datatype Keys = Keys(
    entries: Idem.Entries,
    grants: seq<Grant>,
    stores: seq<Store>,
    holder: map<string, nat>,
    writer: map<string, nat>)

  /** The lock store, and which request drew each token. */
  datatype Locks = Locks(leases: Lock.Leases, owner: map<string, nat>)

  /** A withdrawal inside RecordTransaction: the ledger's list read, nothing written yet. */
  datatype Writing = Writing(req: nat, amount: int, seen: seq<Ledger.Record>)

  /** Wallets and ledger, the wallet mutexes held (one per account), and which withdrawals went through. */
  datatype Money = Money(bank: Wallet.Bank, mutex: map<string, Writing>, debits: seq<Debit>)

  datatype State = State(
    start: int,
    now: int,
    reqs: map<nat, Proc>,
    keys: Keys,
    vel: map<string, VR.Key>,
    locks: Locks,
    money: Money)

  predicate Initial(s: State) {
    && s.start == s.now && s.reqs == map[] && s.vel == map[]
    && s.keys == Keys(map[], [], [], map[], map[])
    && s.locks == Locks(map[], map[]) && s.money.debits == [] && s.money.mutex == map[] && s.money.bank.book == map[]
  }

  // ---------------------------------------------------------------------------------------
  // Steps
  // ---------------------------------------------------------------------------------------

  datatype Verdict = Allow | Deny | Fault

  datatype Step =
    | Tick(delta: nat)
    | Arrive(r: nat, info: Info)
    | IpLimit(r: nat, verdict: Verdict)
    | RateLimit(r: nat, verdict: Verdict)
    | Claim(r: nat)
    | VelocityBegin(r: nat)
    | VelocityEval(r: nat)
    | VelocityLook(r: nat)
    | VelocityDecide(r: nat)
    | VelocityStamp(r: nat)
    | VelocityAppend(r: nat)
    | TryLock(r: nat, token: string)
    | Withdraw(r: nat, amount: int)
    | Post(r: nat, at: Text.Timestamp)
    | WriteHeader(r: nat, status: int)
    | Write(r: nat, chunk: Bytes)
    | Return(r: nat, panicked: bool)
    | Complete(r: nat)
    | Release(r: nat)

  predicate At(s: State, r: nat, stage: Stage) {
    r in s.reqs && s.reqs[r].stage == stage
  }

  function VelocityKey(account: string, action: string): string {
    if action != "" then account + ":" + action else account
  }

  function KeyOf(s: State, k: string): VR.Key {
    if k in s.vel then s.vel[k] else VR.EMPTY
  }

  function VelKey(cfg: Config, s: State, r: nat): string
    requires r in s.reqs
  {
    VelocityKey(s.reqs[r].info.account, cfg.action)
  }

  predicate CanCheck(cfg: Config, s: State, r: nat, a: VR.Action) {
    r in s.reqs && VR.Enabled(cfg.rules, KeyOf(s, VelKey(cfg, s, r)), a)
  }

  /** The handler of request r is inside RecordTransaction. */
  predicate Posting(s: State, r: nat) {
    && r in s.reqs && s.reqs[r].info.account in s.money.mutex
    && s.money.mutex[s.reqs[r].info.account].req == r
  }

  /** A withdrawal waits for its wallet's mutex, unless the amount is refused before. */
  predicate CanWithdraw(s: State, r: nat, amount: int)
    requires r in s.reqs
  {
    && !s.reqs[r].work.called && IsInt64(amount) && Wallet.Cents(s.money.bank)
    && (Wallet.Validate(amount).Some? || s.reqs[r].info.account !in s.money.mutex)
  }

  predicate CanPost(s: State, r: nat) {
    Posting(s, r) && IsInt64(s.money.mutex[s.reqs[r].info.account].amount) && Wallet.Cents(s.money.bank)
  }

  predicate Enabled(cfg: Config, s: State, step: Step) {
    match step
    case Tick(_) => true
    case Arrive(r, _) => r !in s.reqs
    case IpLimit(r, _) => At(s, r, Arrived)
    case RateLimit(r, _) => At(s, r, IpPassed)
    case Claim(r) => At(s, r, RatePassed)
    case VelocityBegin(r) => At(s, r, Claimed) && CanCheck(cfg, s, r, VR.Begin(r))
    case VelocityEval(r) => At(s, r, Checking) && CanCheck(cfg, s, r, VR.Eval(r))
    case VelocityLook(r) => At(s, r, Checking) && CanCheck(cfg, s, r, VR.Look(r))
    case VelocityDecide(r) => At(s, r, Checking) && CanCheck(cfg, s, r, VR.Decide(r))
    case VelocityStamp(r) => At(s, r, Checking) && CanCheck(cfg, s, r, VR.Stamp(r))
    case VelocityAppend(r) => At(s, r, Checking) && CanCheck(cfg, s, r, VR.Append(r))
    case TryLock(r, token) => At(s, r, Cleared) && token !in s.locks.owner
    case Withdraw(r, amount) => At(s, r, Running) && CanWithdraw(s, r, amount)
    case Post(r, _) => At(s, r, Running) && CanPost(s, r)
    case WriteHeader(r, _) => At(s, r, Running) && !Posting(s, r)
    case Write(r, _) => At(s, r, Running) && !Posting(s, r)
    case Return(r, _) => At(s, r, Running) && !Posting(s, r)
    case Complete(r) => At(s, r, Returned)
    case Release(r) => At(s, r, Releasing)
  }

  function Put(s: State, r: nat, p: Proc): State {
    s.(reqs := s.reqs[r := p])
  }

  function To(s: State, r: nat, stage: Stage): State
    requires r in s.reqs
  {
    Put(s, r, s.reqs[r].(stage := stage))
  }

  function Arrives(cfg: Config, s: State, r: nat, info: Info): State {
    var stage := if cfg.requireKey && info.idemKey == "" then Done(BadRequest) else Arrived;
    Put(s, r, Proc(info, stage, None, None, None, None, NO_WORK))
  }

  /** What a claim gives the request. */
  datatype ClaimReply = Granted(grant: nat) | Answered(replay: Replay) | Refused

  function ClaimKey(k: Keys, key: string, r: nat, now: int, ttl: int): (res: (Keys, ClaimReply)) {
    var (entries, c) := Idem.MemoryClaim(k.entries, key, now, ttl);
    match Idem.Decode(c)
    case Failure(_) => (k.(entries := entries), Refused)
    case Success(b) =>
      if b.cached != [] then
        var from := if key in k.writer then k.writer[key] else 0;
        var epoch := if key in k.holder then k.holder[key] else 0;
        (k.(entries := entries), Answered(Replay(b.cached, from, epoch, |k.grants|)))
      else if !b.process then (k.(entries := entries), Refused)
      else
        var n := |k.grants|;
        (k.(entries := entries, grants := k.grants + [Grant(key, r, now)], holder := k.holder[key := n]), Granted(n))
  }

  function AfterClaim(p: Proc, c: ClaimReply): Proc {
    match c
    case Granted(n) => p.(stage := Claimed, grant := Some(n))
    case Answered(rp) => p.(stage := Done(Replayed(rp.body)), replay := Some(rp))
    case Refused => p.(stage := Done(Conflict))
  }

  function Claims(cfg: Config, s: State, r: nat): State
    requires r in s.reqs
  {
    var p := s.reqs[r];
    if p.info.idemKey == "" then To(s, r, Claimed) else
    var (keys, c) := ClaimKey(s.keys, p.info.idemKey, r, s.now, cfg.idemTtl);
    Put(s.(keys := keys), r, AfterClaim(p, c))
  }

  /** One step of the velocity check of request r on its own key. */
  function Checked(cfg: Config, s: State, r: nat, a: VR.Action): State
    requires CanCheck(cfg, s, r, a)
  {
    var k := VelKey(cfg, s, r);
    s.(vel := s.vel[k := VR.Next(cfg.rules, KeyOf(s, k), a, s.now)])
  }

  /** Where a request goes when its velocity check leaves the key's list of checks. */
  function AfterVerdict(cfg: Config, v: Velocity.Verdict): Stage {
    match v
    case Pass => Checking
    case Flagged => if cfg.blockOnVelocity then Done(VelocityRejected) else Cleared
    case Invalid => Done(StoreError)
  }

  function Evaluates(cfg: Config, s: State, r: nat): State
    requires CanCheck(cfg, s, r, VR.Eval(r))
  {
    var k := KeyOf(s, VelKey(cfg, s, r));
    var rule := cfg.rules[k.checks[r].next];
    To(Checked(cfg, s, r, VR.Eval(r)), r, AfterVerdict(cfg, Velocity.Judge(rule, k.list, s.now)))
  }

  function TakesLock(cfg: Config, s: State, r: nat, token: string): State
    requires r in s.reqs
  {
    var p := s.reqs[r];
    if !cfg.requireLock then To(s, r, Running)
    else if p.info.lockKey == "" then To(s, r, Done(StoreError))
    else if Lock.Held(s.locks.leases, p.info.lockKey, s.now) then To(s, r, Done(Locked))
    else
      var leases := Lock.Acquired(s.locks.leases, p.info.lockKey, token, s.now, cfg.lockTtl);
      Put(s.(locks := Locks(leases, s.locks.owner[token := r])), r,
          p.(stage := Running, tenure := Some(Tenure(token, s.now))))
  }

  /** The deciding half of a MinInterval rule that has already read the last action. */
  function Decides(cfg: Config, s: State, r: nat): State
    requires CanCheck(cfg, s, r, VR.Decide(r))
  {
    var phase := KeyOf(s, VelKey(cfg, s, r)).checks[r];
    var v := VR.JudgeGap(cfg.rules[phase.next], phase.last, s.now);
    To(Checked(cfg, s, r, VR.Decide(r)), r, AfterVerdict(cfg, v))
  }

  /** The handler's withdrawal up to the reading of the ledger: refused, or now holding the wallet's mutex. */
  function Withdraws(s: State, r: nat, amount: int): State
    requires r in s.reqs && CanWithdraw(s, r, amount)
  {
    var p, m, who := s.reqs[r], s.money, s.reqs[r].info.account;
    var writing := Writing(r, amount, Ledger.ListOf(m.bank.book, Wallet.LEDGER_ACCOUNT));
    var mutex :=
      if Wallet.Outcome(Wallet.BalanceOf(m.bank, who).total, Wallet.Withdraw(amount)).Failure? then m.mutex
      else m.mutex[who := writing];
    Put(s.(money := Money(Wallet.Opened(m.bank, who), mutex, m.debits)), r, p.(work := p.work.(called := true)))
  }

  /** The record is appended, the total lowered and the mutex given back. */
  function Posts(cfg: Config, s: State, r: nat, at: Text.Timestamp): State
    requires CanPost(s, r)
  {
    var p, m, who := s.reqs[r], s.money, s.reqs[r].info.account;
    var Writing(_, amount, seen) := m.mutex[who];
    var bank := Wallet.Landed(cfg.h, m.bank, who, amount, seen, "api", at);
    Put(s.(money := Money(bank, m.mutex - {who}, m.debits + [Debit(p.info.idemKey, r, who, amount)])), r,
        p.(work := p.work.(debit := Some(|m.debits|))))
  }

  function Body(chunks: seq<Bytes>): (b: Bytes) {
    if chunks == [] then [] else Body(chunks[..|chunks| - 1]) + chunks[|chunks| - 1]
  }

  /** The response is kept only for a 2xx status and a non-empty body. */
  predicate Cacheable(p: Proc) {
    p.info.idemKey != "" && 200 <= p.work.status < 300 && Body(p.work.chunks) != []
  }

  function AfterHandler(cfg: Config): Stage {
    if cfg.requireLock then Releasing else Done(Served)
  }

  /** A panic skips the storing of the response, but not the deferred release. */
  function Returns(cfg: Config, s: State, r: nat, panicked: bool): State
    requires r in s.reqs
  {
    var p := s.reqs[r];
    Put(s, r, p.(stage := if panicked then AfterHandler(cfg) else Returned, work := p.work.(panicked := panicked)))
  }

  function Stored(k: Keys, st: Store, ttl: int): Keys {
    k.(entries := Idem.MemoryComplete(k.entries, st.key, st.body, st.at, ttl),
       stores := k.stores + [st],
       writer := k.writer[st.key := |k.stores|])
  }

  function Completes(cfg: Config, s: State, r: nat): State
    requires r in s.reqs
  {
    var p := s.reqs[r];
    if !Cacheable(p) then To(s, r, AfterHandler(cfg)) else
    var grant := if p.grant.Some? then p.grant.value else 0;
    var inTurn := p.info.idemKey in s.keys.holder && s.keys.holder[p.info.idemKey] == grant;
    var st := Store(p.info.idemKey, r, grant, Body(p.work.chunks), s.now, inTurn);
    Put(s.(keys := Stored(s.keys, st, cfg.idemTtl)), r, p.(stage := AfterHandler(cfg), stored := Some(|s.keys.stores|)))
  }

  function Releases(s: State, r: nat): State
    requires r in s.reqs
  {
    var p := s.reqs[r];
    var leases :=
      if p.tenure.None? then s.locks.leases
      else Lock.Released(s.locks.leases, p.info.lockKey, p.tenure.value.token);
    To(s.(locks := s.locks.(leases := leases)), r, Done(Served))
  }

  function Apply(cfg: Config, s: State, step: Step): (s': State)
    requires Enabled(cfg, s, step)
  {
    match step
    case Tick(delta) => s.(now := s.now + delta)
    case Arrive(r, info) => Arrives(cfg, s, r, info)
    case IpLimit(r, v) =>
      if !cfg.ipLimiter || s.reqs[r].info.ip == "" || v.Allow? then To(s, r, IpPassed)
      else To(s, r, Done(if v.Deny? then IpLimited else StoreError))
    case RateLimit(r, v) => To(s, r, if v.Allow? then RatePassed else Done(if v.Deny? then RateLimited else StoreError))
    case Claim(r) => Claims(cfg, s, r)
    case VelocityBegin(r) =>
      if VelKey(cfg, s, r) == "" then To(s, r, Done(StoreError)) else To(Checked(cfg, s, r, VR.Begin(r)), r, Checking)
    case VelocityEval(r) => Evaluates(cfg, s, r)
    case VelocityLook(r) => Checked(cfg, s, r, VR.Look(r))
    case VelocityDecide(r) => Decides(cfg, s, r)
    case VelocityStamp(r) => Checked(cfg, s, r, VR.Stamp(r))
    case VelocityAppend(r) => To(Checked(cfg, s, r, VR.Append(r)), r, Cleared)
    case TryLock(r, token) => TakesLock(cfg, s, r, token)
    case Withdraw(r, amount) => Withdraws(s, r, amount)
    case Post(r, at) => Posts(cfg, s, r, at)
    case WriteHeader(r, status) => Put(s, r, s.reqs[r].(work := s.reqs[r].work.(status := status)))
    case Write(r, chunk) => Put(s, r, s.reqs[r].(work := s.reqs[r].work.(chunks := s.reqs[r].work.chunks + [chunk])))
    case Return(r, panicked) => Returns(cfg, s, r, panicked)
    case Complete(r) => Completes(cfg, s, r)
    case Release(r) => Releases(s, r)
  }

  predicate Legal(cfg: Config, s: State, steps: seq<Step>)
    decreases |steps|
  {
    steps == [] || (Enabled(cfg, s, steps[0]) && Legal(cfg, Apply(cfg, s, steps[0]), steps[1..]))
  }

  /** The state after a run. */
  function Final(cfg: Config, s: State, steps: seq<Step>): (s': State)
    requires Legal(cfg, s, steps)
    decreases |steps|
  {
    if steps == [] then s else Final(cfg, Apply(cfg, s, steps[0]), steps[1..])
  }
}
