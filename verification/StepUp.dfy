/**
 Step-up tokens (stepup/): risk assessment, the in-process challenge store, the manager's check, and
 how often a token can admit when checks overlap. Random tokens and clock readings are parameters.
 */
module StepUp {
  import opened Common
  import opened Text

  datatype Risk = Low | Medium | High

  datatype Signals = Signals(account: string, action: string, knownDevice: bool, velocityFlagged: bool)

  function Assess(s: Signals): Risk {
    if !s.knownDevice && s.velocityFlagged then High
    else if !s.knownDevice then Medium
    else if s.velocityFlagged then Medium
    else Low
  }

  predicate RequiresStepUp(r: Risk) {
    r != Low
  }

  function ChallengeKey(account: string, action: string, token: string): string {
    account + "|" + action + "|" + token
  }

  datatype Challenge = Challenge(level: Risk, expiresAt: int)

  type Challenges = map<string, Challenge>

  predicate Verifies(m: Challenges, account: string, action: string, token: string, now: int) {
    var key := ChallengeKey(account, action, token);
    key in m && now <= m[key].expiresAt
  }

  /** How a check ends: admitted, or asked to verify with a newly issued token. */
  datatype Outcome = Admitted(risk: Risk) | StepUpRequired(risk: Risk, token: string)

  /** One undisturbed check on the stored challenges; drawn is the random token, should one have to be issued. */
  function Checked(m: Challenges, s: Signals, header: string, drawn: string, now: int, ttl: int): (r: (Challenges,
                   Outcome)) {
    var level := Assess(s);
    if !RequiresStepUp(level) then (m, Admitted(level))
    else if header != "" && Verifies(m, s.account, s.action, header, now) then
      (m - {ChallengeKey(s.account, s.action, header)}, Admitted(level))
    else (m[ChallengeKey(s.account, s.action, drawn) := Challenge(level, now + ttl)], StepUpRequired(level, drawn))
  }

  class ChallengeStore {
    var challenges: Challenges

    constructor ()
      ensures challenges == map[]
    {
      challenges := map[];
    }

    method Issue(account: string, action: string, level: Risk, token: string, now: int, ttl: int)
      modifies this
      ensures challenges == old(challenges)[ChallengeKey(account, action, token) := Challenge(level, now + ttl)]
    {
      challenges := challenges[ChallengeKey(account, action, token) := Challenge(level, now + ttl)];
    }

    method Verify(account: string, action: string, token: string, now: int) returns (ok: bool)
      ensures ok <==> Verifies(challenges, account, action, token, now)
    {
      var key := ChallengeKey(account, action, token);
      if key !in challenges || now > challenges[key].expiresAt {
        return false;
      }
      return true;
    }

    method Consume(account: string, action: string, token: string)
      modifies this
      ensures challenges == old(challenges) - {ChallengeKey(account, action, token)}
    {
      challenges := challenges - {ChallengeKey(account, action, token)};
    }
  }

  class Manager {
    const store: ChallengeStore
    const ttl: int

    constructor (store: ChallengeStore, ttl: int)
      ensures this.store == store && this.ttl == if ttl > 0 then ttl else 600 * NANOS_PER_SECOND
    {
      this.store := store;
      this.ttl := if ttl > 0 then ttl else 600 * NANOS_PER_SECOND;
    }

    method Check(s: Signals, headerToken: string, drawn: string, now: int) returns (r: Outcome)
      modifies store
      ensures (store.challenges, r) == Checked(old(store.challenges), s, headerToken, drawn, now, ttl)
      ensures r.risk == High <==> !s.knownDevice && s.velocityFlagged
      ensures r.risk == Low <==> s.knownDevice && !s.velocityFlagged
      ensures var key := ChallengeKey(s.account, s.action, headerToken);
              var calm := s.knownDevice && !s.velocityFlagged;
              var before := old(store.challenges);
              var valid := headerToken != "" && key in before && now <= before[key].expiresAt;
              && (r.Admitted? <==> calm || valid)
              && (calm ==> store.challenges == old(store.challenges))
              && (!calm && valid ==> store.challenges == old(store.challenges) - {key})
              && (!calm && !valid ==>
                    && r.token == drawn
                    && store.challenges ==
                       old(store.challenges)[ChallengeKey(s.account, s.action, drawn) := Challenge(r.risk, now + ttl)])
    {
      var level := Assess(s);
      if !RequiresStepUp(level) {
        return Admitted(level);
      }
      if headerToken != "" {
        var ok := store.Verify(s.account, s.action, headerToken, now);
        if ok {
          store.Consume(s.account, s.action, headerToken);
          return Admitted(level);
        }
      }
      store.Issue(s.account, s.action, level, drawn, now, ttl);
      return StepUpRequired(level, drawn);
    }
  }

  // ---------------------------------------------------------------------------------------
  // Keys
  // ---------------------------------------------------------------------------------------

  /** With names free of the separator, a key gives back account, action and token, whatever the token. */
  lemma ChallengeKeyInjective(a: string, b: string, t: string, a': string, b': string, t': string)
    requires Free(a, '|') && Free(b, '|') && Free(a', '|') && Free(b', '|')
    requires ChallengeKey(a, b, t) == ChallengeKey(a', b', t')
    ensures a == a' && b == b' && t == t'
  {
    assert ChallengeKey(a, b, t) == a + ['|'] + (b + ['|'] + t);
    assert ChallengeKey(a', b', t') == a' + ['|'] + (b' + ['|'] + t');
    SplitAtSep(a, a', '|', b + ['|'] + t, b' + ['|'] + t');
    SplitAtSep(b, b', '|', t, t');
  }

  /**
   Without that, two account and action pairs share the key of a token exactly when their joined
   names coincide, as those of ("a|b", "c") and ("a", "b|c") do.
   */
  lemma KeysCollideExactly(a: string, b: string, a': string, b': string, t: string)
    ensures ChallengeKey(a, b, t) == ChallengeKey(a', b', t) <==> a + "|" + b == a' + "|" + b'
    ensures ChallengeKey("a|b", "c", t) == ChallengeKey("a", "b|c", t)
  {
    var x, y := a + "|" + b, a' + "|" + b';
    assert ChallengeKey(a, b, t) == x + ("|" + t) && ChallengeKey(a', b', t) == y + ("|" + t);
    if x + ("|" + t) == y + ("|" + t) {
      assert x == (x + ("|" + t))[..|x|] && y == (y + ("|" + t))[..|y|];
    }
    assert ("a|b" + "|" + "c") == ("a" + "|" + "b|c");
  }

  // ---------------------------------------------------------------------------------------
  // Overlapping checks
  // ---------------------------------------------------------------------------------------

  datatype Issue = Issue(account: string, action: string, at: int, expiresAt: int)

  /** A token presented for an account and action, and found valid at a time. */
  datatype Use = Use(account: string, action: string, token: string, at: int)

  /**
   Checks that have verified their token are pending until they consume it. issued remembers what
   every token was issued for, and tokenOf which token each key was made from.
   */
  datatype State = State(
    now: int,
    challenges: Challenges,
    issued: map<string, Issue>,
    tokenOf: map<string, string>,
    pending: map<nat, Use>,
    passes: seq<Use>)

  predicate Initial(s: State) {
    s.challenges == map[] && s.issued == map[] && s.tokenOf == map[] && s.pending == map[] && s.passes == []
  }

  datatype Step =
    | Tick(delta: nat)
    | Verify(id: nat, account: string, action: string, token: string)
    | Consume(id: nat)
    | IssueToken(account: string, action: string, level: Risk, token: string, ttl: nat)

  /** Names are free of the separator, and a token drawn was never drawn before. */
  predicate Enabled(s: State, step: Step) {
    match step
    case Tick(_) => true
    case Verify(id, account, action, token) =>
      && id !in s.pending && Free(account, '|') && Free(action, '|')
      && Verifies(s.challenges, account, action, token, s.now)
    case Consume(id) => id in s.pending
    case IssueToken(account, action, _, token, _) => Free(account, '|') && Free(action, '|') && token !in s.issued
  }

  function Apply(s: State, step: Step): State
    requires Enabled(s, step)
  {
    match step
    case Tick(delta) => s.(now := s.now + delta)
    case Verify(id, account, action, token) => s.(pending := s.pending[id := Use(account, action, token, s.now)])
    case Consume(id) =>
      var u := s.pending[id];
      s.(challenges := s.challenges - {ChallengeKey(u.account, u.action, u.token)},
         pending := s.pending - {id}, passes := s.passes + [u])
    case IssueToken(account, action, level, token, ttl) =>
      s.(challenges := s.challenges[ChallengeKey(account, action, token) := Challenge(level, s.now + ttl)],
         issued := s.issued[token := Issue(account, action, s.now, s.now + ttl)],
         tokenOf := s.tokenOf[ChallengeKey(account, action, token) := token])
  }

  predicate Legal(s: State, steps: seq<Step>)
    decreases |steps|
  {
    steps == [] || (Enabled(s, steps[0]) && Legal(Apply(s, steps[0]), steps[1..]))
  }

  function Final(s: State, steps: seq<Step>): (r: State)
    requires Legal(s, steps)
    decreases |steps|
  {
    if steps == [] then s else Final(Apply(s, steps[0]), steps[1..])
  }

  function Presenting(s: State, token: string): (ids: set<nat>) {
    set id | id in s.pending && s.pending[id].token == token
  }

  /** At no point are more than c checks between verifying and consuming one token. */
  predicate AtMost(s: State, steps: seq<Step>, c: nat)
    requires Legal(s, steps)
    decreases |steps|
  {
    (forall id :: id in s.pending ==> |Presenting(s, s.pending[id].token)| <= c) &&
    (steps == [] || AtMost(Apply(s, steps[0]), steps[1..], c))
  }

  function Count(passes: seq<Use>, token: string): (n: nat) {
    if passes == [] then 0 else
      Count(passes[..|passes| - 1], token) + if passes[|passes| - 1].token == token then 1 else 0
  }

  /** No token has admitted more than c times. */
  ghost predicate AdmitsAtMost(s: State, c: nat) {
    forall t :: Count(s.passes, t) <= c
  }

  /** The token had been issued for exactly this account and action, and had not expired when presented. */
  predicate Earned(s: State, u: Use) {
    && u.token in s.issued && s.issued[u.token].account == u.account && s.issued[u.token].action == u.action
    && s.issued[u.token].at <= u.at <= s.issued[u.token].expiresAt
  }

  predicate IssueOk(s: State, token: string)
    requires token in s.issued
  {
    Free(s.issued[token].account, '|') && Free(s.issued[token].action, '|') && s.issued[token].at <= s.now
  }

  function KeyOf(s: State, token: string): string
    requires token in s.issued
  {
    ChallengeKey(s.issued[token].account, s.issued[token].action, token)
  }

  /** A stored key was made from an issued token, with its expiry, and has admitted nobody yet. */
  predicate KeyOk(s: State, key: string)
    requires key in s.challenges
  {
    && key in s.tokenOf && s.tokenOf[key] in s.issued && key == KeyOf(s, s.tokenOf[key])
    && s.challenges[key].expiresAt == s.issued[s.tokenOf[key]].expiresAt
    && Count(s.passes, s.tokenOf[key]) == 0
  }

  lemma CountPush(passes: seq<Use>, u: Use, t: string)
    ensures Count(passes + [u], t) == Count(passes, t) + if u.token == t then 1 else 0
  {
    assert (passes + [u])[..|passes|] == passes;
  }

  /** Passes and pending checks of a token, together. */
  function Bound(s: State, t: string): nat {
    Count(s.passes, t) + |Presenting(s, t)|
  }

  lemma VerifyAddsToBound(s: State, id: nat, u: Use, t: string)
    requires id !in s.pending
    ensures Bound(s, t) <= Bound(s.(pending := s.pending[id := u]), t)
  {
    var s' := s.(pending := s.pending[id := u]);
    if t == u.token {
      assert Presenting(s', t) == Presenting(s, t) + {id};
    } else {
      assert Presenting(s', t) == Presenting(s, t);
    }
  }

  lemma ConsumeKeepsBound(s: State, s': State, id: nat, t: string)
    requires id in s.pending && s'.passes == s.passes + [s.pending[id]] && s'.pending == s.pending - {id}
    ensures Bound(s', t) == Bound(s, t)
  {
    CountPush(s.passes, s.pending[id], t);
    if t == s.pending[id].token {
      assert Presenting(s, t) == Presenting(s', t) + {id};
    } else {
      assert Presenting(s', t) == Presenting(s, t);
    }
  }

  ghost predicate Inv(s: State, c: nat) {
    && (forall t {:trigger IssueOk(s, t)} :: t in s.issued ==> IssueOk(s, t))
    && (forall key {:trigger KeyOk(s, key)} :: key in s.challenges ==> KeyOk(s, key))
    && (forall id :: id in s.pending ==> Earned(s, s.pending[id]))
    && (forall i :: 0 <= i < |s.passes| ==> Earned(s, s.passes[i]))
    && (forall t :: Bound(s, t) <= c)
  }

  lemma {:induction false} NotCounted(s: State, passes: seq<Use>, t: string)
    requires t !in s.issued && forall i :: 0 <= i < |passes| ==> Earned(s, passes[i])
    ensures Count(passes, t) == 0
  {
    if passes != [] {
      assert Earned(s, passes[|passes| - 1]);
      NotCounted(s, passes[..|passes| - 1], t);
    }
  }

  lemma VerifyKeeps(s: State, step: Step, c: nat)
    requires Inv(s, c) && step.Verify? && Enabled(s, step)
    requires |Presenting(Apply(s, step), step.token)| <= c
    ensures Inv(Apply(s, step), c)
  {
    var s' := Apply(s, step);
    var key := ChallengeKey(step.account, step.action, step.token);
    assert KeyOk(s, key);
    var t := s.tokenOf[key];
    assert IssueOk(s, t);
    ChallengeKeyInjective(step.account, step.action, step.token, s.issued[t].account, s.issued[t].action, t);
    forall u | u in s'.issued
      ensures IssueOk(s', u)
    {
      assert IssueOk(s, u);
    }
    forall k | k in s'.challenges
      ensures KeyOk(s', k)
    {
      assert KeyOk(s, k);
    }
    forall u: string
      ensures Bound(s', u) <= c
    {
      if u != step.token {
        assert Presenting(s', u) == Presenting(s, u) && Bound(s, u) <= c;
      }
    }
  }

  lemma ConsumeKeeps(s: State, id: nat, c: nat)
    requires Inv(s, c) && id in s.pending
    ensures Inv(Apply(s, Consume(id)), c)
  {
    var s', u := Apply(s, Consume(id)), s.pending[id];
    assert Earned(s, u);
    assert s'.passes[..|s.passes|] == s.passes;
    forall t | t in s'.issued
      ensures IssueOk(s', t)
    {
      assert IssueOk(s, t);
    }
    forall k | k in s'.challenges
      ensures KeyOk(s', k)
    {
      assert KeyOk(s, k);
    }
    forall t: string
      ensures Bound(s', t) <= c
    {
      ConsumeKeepsBound(s, s', id, t);
    }
  }

  lemma IssueKeeps(s: State, step: Step, c: nat)
    requires Inv(s, c) && step.IssueToken? && Enabled(s, step)
    ensures Inv(Apply(s, step), c)
  {
    var s', key := Apply(s, step), ChallengeKey(step.account, step.action, step.token);
    NotCounted(s, s.passes, step.token);
    forall t | t in s'.issued
      ensures IssueOk(s', t)
    {
      assert t != step.token ==> IssueOk(s, t);
    }
    forall k | k in s'.challenges
      ensures KeyOk(s', k)
    {
      assert k != key ==> KeyOk(s, k);
    }
    forall t: string
      ensures Bound(s', t) <= c
    {
      assert Presenting(s', t) == Presenting(s, t) && Bound(s, t) <= c;
    }
  }

  lemma TickKeeps(s: State, delta: nat, c: nat)
    requires Inv(s, c)
    ensures Inv(Apply(s, Tick(delta)), c)
  {
    var s' := Apply(s, Tick(delta));
    forall t | t in s'.issued
      ensures IssueOk(s', t)
    {
      assert IssueOk(s, t);
    }
    forall k | k in s'.challenges
      ensures KeyOk(s', k)
    {
      assert KeyOk(s, k);
    }
    forall t: string
      ensures Bound(s', t) <= c
    {
      assert Presenting(s', t) == Presenting(s, t) && Bound(s, t) <= c;
    }
  }

  lemma {:induction false} RunKeepsInv(s: State, steps: seq<Step>, c: nat)
    requires Inv(s, c) && Legal(s, steps) && AtMost(s, steps, c)
    ensures Inv(Final(s, steps), c)
    decreases |steps|
  {
    if steps != [] {
      var s' := Apply(s, steps[0]);
      match steps[0] {
        case Tick(delta) => TickKeeps(s, delta, c);
        case Verify(id, _, _, token) =>
          assert AtMost(s', steps[1..], c) && s'.pending[id].token == token;
          VerifyKeeps(s, steps[0], c);
        case Consume(id) => ConsumeKeeps(s, id, c);
        case IssueToken(_, _, _, _, _) => IssueKeeps(s, steps[0], c);
      }
      RunKeepsInv(s', steps[1..], c);
    }
  }

  /**
   Every admission at medium or high risk matches a token issued earlier for the same account and
   action and not yet expired; and if at most c checks are ever between verifying and consuming one
   token, that token admits at most c times: once, when checks are serial.
   */
  lemma TokenAdmitsAtMost(s: State, steps: seq<Step>, c: nat)
    requires Initial(s) && Legal(s, steps) && AtMost(s, steps, c)
    ensures var f := Final(s, steps);
            (forall i :: 0 <= i < |f.passes| ==> Earned(f, f.passes[i])) && AdmitsAtMost(f, c)
  {
    forall t: string
      ensures Bound(s, t) <= c
    {
      assert Presenting(s, t) == {};
    }
    RunKeepsInv(s, steps, c);
    var f := Final(s, steps);
    forall t: string
      ensures Count(f.passes, t) <= c
    {
      assert Bound(f, t) <= c;
    }
  }

  // ---------------------------------------------------------------------------------------
  // The converse: overlap is what admits twice
  // ---------------------------------------------------------------------------------------

  /** A check that has verified a token is bound to pass: the two together never get fewer. */
  lemma StepNeverTakesBack(s: State, step: Step, t: string)
    requires Enabled(s, step)
    ensures Bound(s, t) <= Bound(Apply(s, step), t)
  {
    match step
    case Verify(id, account, action, token) => VerifyAddsToBound(s, id, Use(account, action, token, s.now), t);
    case Consume(id) => ConsumeKeepsBound(s, Apply(s, step), id, t);
    case _ => assert Presenting(Apply(s, step), t) == Presenting(s, t);
  }

  lemma {:induction false} RunNeverTakesBack(s: State, steps: seq<Step>, t: string)
    requires Legal(s, steps)
    ensures Bound(s, t) <= Bound(Final(s, steps), t)
    decreases |steps|
  {
    if steps != [] {
      StepNeverTakesBack(s, steps[0], t);
      RunNeverTakesBack(Apply(s, steps[0]), steps[1..], t);
    }
  }

  lemma {:induction false} FewAdmissionsMeanLittleOverlap(s: State, steps: seq<Step>, c: nat)
    requires Legal(s, steps) && Final(s, steps).pending == map[] && AdmitsAtMost(Final(s, steps), c)
    ensures AtMost(s, steps, c)
    decreases |steps|
  {
    forall id | id in s.pending
      ensures |Presenting(s, s.pending[id].token)| <= c
    {
      var t := s.pending[id].token;
      RunNeverTakesBack(s, steps, t);
      assert Presenting(Final(s, steps), t) == {} && Count(Final(s, steps).passes, t) <= c;
    }
    if steps != [] {
      FewAdmissionsMeanLittleOverlap(Apply(s, steps[0]), steps[1..], c);
    }
  }

  /**
   How often a token admits is how far its checks overlapped: over every run in which all checks have
   finished, no token admitted more than c times exactly when at no point more than c checks were between
   verifying and consuming one token. So a token admits twice exactly when two checks overlapped on it.
   */
  lemma AdmissionsExactly(s: State, steps: seq<Step>, c: nat)
    requires Initial(s) && Legal(s, steps) && Final(s, steps).pending == map[]
    ensures AtMost(s, steps, c) <==> AdmitsAtMost(Final(s, steps), c)
  {
    if AtMost(s, steps, c) {
      TokenAdmitsAtMost(s, steps, c);
    }
    if AdmitsAtMost(Final(s, steps), c) {
      FewAdmissionsMeanLittleOverlap(s, steps, c);
    }
  }

  /** The serial reading is needed: two checks that verify a token before either consumes it both pass. */
  lemma OverlapAdmitsTwice(s: State, account: string, action: string, token: string)
    requires Free(account, '|') && Free(action, '|') && Verifies(s.challenges, account, action, token, s.now)
    requires 1 !in s.pending && 2 !in s.pending
    ensures var steps := [Verify(1, account, action, token), Verify(2, account, action, token), Consume(1), Consume(2)];
            Legal(s, steps) && Count(Final(s, steps).passes, token) == Count(s.passes, token) + 2
  {
    var m0 := [Verify(1, account, action, token), Verify(2, account, action, token), Consume(1), Consume(2)];
    var s1, m1 := Apply(s, m0[0]), m0[1..];
    var s2, m2 := Apply(s1, m1[0]), m1[1..];
    var s3, m3 := Apply(s2, m2[0]), m2[1..];
    var s4, m4 := Apply(s3, m3[0]), m3[1..];
    assert m3 == [Consume(2)] && m4 == [];
    assert Legal(s4, m4);
    assert Legal(s3, m3) && Final(s3, m3) == s4;
    assert Legal(s2, m2) && Final(s2, m2) == s4;
    assert Legal(s1, m1) && Final(s1, m1) == s4;
    assert Legal(s, m0) && Final(s, m0) == s4;
    CountPush(s.passes, s2.pending[1], token);
    CountPush(s3.passes, s3.pending[2], token);
  }

  // ---------------------------------------------------------------------------------------
  // Serial calls of Manager.Check
  // ---------------------------------------------------------------------------------------

  /** A call, with the token it would draw and its clock reading. */
  datatype Call = Call(signals: Signals, header: string, drawn: string, at: int)

  predicate UsesToken(m: Challenges, c: Call) {
    && RequiresStepUp(Assess(c.signals)) && c.header != ""
    && Verifies(m, c.signals.account, c.signals.action, c.header, c.at)
  }

  /** How often the call is admitted by this token. */
  function Admits(m: Challenges, c: Call, t: string): nat {
    if UsesToken(m, c) && t == c.header then 1 else 0
  }

  /** The steps a call takes when nothing disturbs it. */
  function StepsOf(m: Challenges, c: Call, now: int, ttl: nat): (steps: seq<Step>)
    requires now <= c.at
  {
    var level := Assess(c.signals);
    [Tick(c.at - now)] +
    if !RequiresStepUp(level) then []
    else if UsesToken(m, c) then [Verify(0, c.signals.account, c.signals.action, c.header), Consume(0)]
    else [IssueToken(c.signals.account, c.signals.action, level, c.drawn, ttl)]
  }

  predicate NamesFree(c: Call) {
    Free(c.signals.account, '|') && Free(c.signals.action, '|')
  }

  /** One call is a run: the store ends as Manager.Check leaves it, and a token passes exactly when the call uses it. */
  lemma CallIsRun(s: State, c: Call, ttl: nat)
    requires s.pending == map[] && s.now <= c.at && NamesFree(c) && c.drawn !in s.issued
    ensures var steps := StepsOf(s.challenges, c, s.now, ttl);
            && Legal(s, steps) && AtMost(s, steps, 1)
            && var s' := Final(s, steps);
               && s'.pending == map[] && s'.now == c.at
               && s'.challenges == Checked(s.challenges, c.signals, c.header, c.drawn, c.at, ttl).0
               && (s'.issued == s.issued || s'.issued.Keys == s.issued.Keys + {c.drawn})
               && forall t :: Count(s'.passes, t) == Count(s.passes, t) + Admits(s.challenges, c, t)
  {
    var steps := StepsOf(s.challenges, c, s.now, ttl);
    var s1, m1 := Apply(s, steps[0]), steps[1..];
    assert s1 == s.(now := c.at);
    if !RequiresStepUp(Assess(c.signals)) {
      assert m1 == [];
    } else if UsesToken(s.challenges, c) {
      assert m1 == [Verify(0, c.signals.account, c.signals.action, c.header), Consume(0)];
      UseIsRun(s1, c);
    } else {
      assert m1 == [IssueToken(c.signals.account, c.signals.action, Assess(c.signals), c.drawn, ttl)];
      var s2 := Apply(s1, m1[0]);
      assert m1[1..] == [] && Legal(s2, []) && AtMost(s2, [], 1);
      assert Legal(s1, m1) && AtMost(s1, m1, 1) && Final(s1, m1) == s2;
    }
  }

  lemma UseIsRun(s: State, c: Call)
    requires s.pending == map[] && s.now == c.at && NamesFree(c) && UsesToken(s.challenges, c)
    ensures var steps := [Verify(0, c.signals.account, c.signals.action, c.header), Consume(0)];
            && Legal(s, steps) && AtMost(s, steps, 1)
            && var s' := Final(s, steps);
               && s'.pending == map[] && s'.now == s.now && s'.issued == s.issued
               && s'.challenges == s.challenges - {ChallengeKey(c.signals.account, c.signals.action, c.header)}
               && forall t :: Count(s'.passes, t) == Count(s.passes, t) + if t == c.header then 1 else 0
  {
    var steps := [Verify(0, c.signals.account, c.signals.action, c.header), Consume(0)];
    var s1, m1 := Apply(s, steps[0]), steps[1..];
    assert m1 == [Consume(0)] && s1.pending.Keys == {0};
    var s2 := Apply(s1, m1[0]);
    assert m1[1..] == [] && s2.pending == map[] && Legal(s2, []) && AtMost(s2, [], 1);
    assert Presenting(s1, c.header) == {0};
    assert Legal(s1, m1) && AtMost(s1, m1, 1) && Final(s1, m1) == s2;
    assert s2.passes[..|s.passes|] == s.passes;
  }

  lemma {:induction false} RunsConcat(s: State, a: seq<Step>, b: seq<Step>, c: nat)
    requires Legal(s, a) && Legal(Final(s, a), b) && AtMost(s, a, c) && AtMost(Final(s, a), b, c)
    ensures Legal(s, a + b) && Final(s, a + b) == Final(Final(s, a), b) && AtMost(s, a + b, c)
    decreases |a|
  {
    if a == [] {
      assert a + b == b;
    } else {
      RunsConcat(Apply(s, a[0]), a[1..], b, c);
      assert (a + b)[0] == a[0] && (a + b)[1..] == a[1..] + b;
    }
  }

  /** The store after a sequence of calls. */
  function AfterCalls(m: Challenges, calls: seq<Call>, ttl: nat): (r: Challenges)
    decreases |calls|
  {
    if calls == [] then m else
    var c := calls[0];
    AfterCalls(Checked(m, c.signals, c.header, c.drawn, c.at, ttl).0, calls[1..], ttl)
  }

  /** How many of the calls a token admits. */
  function Admissions(m: Challenges, calls: seq<Call>, ttl: nat, t: string): (n: nat)
    decreases |calls|
  {
    if calls == [] then 0 else
    var c := calls[0];
    Admits(m, c, t) + Admissions(Checked(m, c.signals, c.header, c.drawn, c.at, ttl).0, calls[1..], ttl, t)
  }

  /** The clock never runs back, names are free of the separator, and tokens are drawn once. */
  predicate Orderly(calls: seq<Call>, now: int) {
    && (forall i :: 0 <= i < |calls| ==> now <= calls[i].at && NamesFree(calls[i]))
    && (forall i, j :: 0 <= i < j < |calls| ==> calls[i].at <= calls[j].at && calls[i].drawn != calls[j].drawn)
  }

  lemma {:induction false} CallsAreRun(s: State, calls: seq<Call>, ttl: nat) returns (steps: seq<Step>)
    requires s.pending == map[] && Orderly(calls, s.now)
    requires forall i :: 0 <= i < |calls| ==> calls[i].drawn !in s.issued
    ensures Legal(s, steps) && AtMost(s, steps, 1)
    ensures var f := Final(s, steps);
            && f.pending == map[] && f.challenges == AfterCalls(s.challenges, calls, ttl)
            && forall t :: Count(f.passes, t) == Count(s.passes, t) + Admissions(s.challenges, calls, ttl, t)
    decreases |calls|
  {
    if calls == [] {
      steps := [];
    } else {
      var first := StepsOf(s.challenges, calls[0], s.now, ttl);
      CallIsRun(s, calls[0], ttl);
      var rest := CallsAreRun(Final(s, first), calls[1..], ttl);
      RunsConcat(s, first, rest, 1);
      steps := first + rest;
    }
  }

  /** For every sequence of calls of Manager.Check on a fresh store, no token admits twice. */
  lemma SerialTokenAdmitsOnce(calls: seq<Call>, now: int, ttl: nat, t: string)
    requires Orderly(calls, now)
    ensures Admissions(map[], calls, ttl, t) <= 1
  {
    var s := State(now, map[], map[], map[], map[], []);
    var steps := CallsAreRun(s, calls, ttl);
    TokenAdmitsAtMost(s, steps, 1);
  }

  // ---------------------------------------------------------------------------------------
  // Every admission that needs a token had one
  // ---------------------------------------------------------------------------------------

  /** The store before call i of a sequence on a fresh store. */
  function StoreAt(calls: seq<Call>, ttl: nat, i: nat): (m: Challenges)
    requires i <= |calls|
  {
    if i == 0 then map[] else
    var c := calls[i - 1];
    Checked(StoreAt(calls, ttl, i - 1), c.signals, c.header, c.drawn, c.at, ttl).0
  }

  /** What Manager.Check answers to call i. */
  function Answer(calls: seq<Call>, ttl: nat, i: nat): Outcome
    requires i < |calls|
  {
    var c := calls[i];
    Checked(StoreAt(calls, ttl, i), c.signals, c.header, c.drawn, c.at, ttl).1
  }

  predicate SamePair(a: Call, b: Call) {
    a.signals.account == b.signals.account && a.signals.action == b.signals.action
  }

  /** Call k asks for the account and action of call j and presents the token drawn there. */
  predicate Presents(k: Call, j: Call) {
    SamePair(k, j) && k.header == j.drawn
  }

  /** Call j drew a token that by call n nobody has been admitted with. */
  ghost predicate StillOpen(calls: seq<Call>, ttl: nat, j: nat, n: nat)
    requires n <= |calls|
  {
    && j < n && Answer(calls, ttl, j) == StepUpRequired(Assess(calls[j].signals), calls[j].drawn)
    && forall k :: j < k < n && Presents(calls[k], calls[j]) && RequiresStepUp(Assess(calls[k].signals)) ==>
         !Answer(calls, ttl, k).Admitted?
  }

  function KeyDrawn(c: Call): string {
    ChallengeKey(c.signals.account, c.signals.action, c.drawn)
  }

  /** Every stored challenge was drawn by an earlier call and is still open. */
  lemma {:induction false} ChallengeWasDrawn(calls: seq<Call>, ttl: nat, n: nat, key: string) returns (j: nat)
    requires n <= |calls| && key in StoreAt(calls, ttl, n)
    ensures StillOpen(calls, ttl, j, n) && key == KeyDrawn(calls[j])
    ensures StoreAt(calls, ttl, n)[key].expiresAt == calls[j].at + ttl
    decreases n
  {
    var m, c := StoreAt(calls, ttl, n - 1), calls[n - 1];
    if Answer(calls, ttl, n - 1).StepUpRequired? && key == KeyDrawn(c) {
      j := n - 1;
    } else {
      j := ChallengeWasDrawn(calls, ttl, n - 1, key);
      assert Presents(c, calls[j]) ==> ChallengeKey(c.signals.account, c.signals.action, c.header) == key;
    }
  }

  /**
   Over every sequence of calls: a call from an unknown device, or one that velocity has flagged, is
   admitted only with the token that an earlier call for the same account and action had been given,
   that has not expired, and that has admitted nobody since.
   */
  lemma AdmissionNeedsToken(calls: seq<Call>, ttl: nat, i: nat) returns (j: nat)
    requires i < |calls| && (forall k :: 0 <= k < |calls| ==> NamesFree(calls[k]))
    requires Answer(calls, ttl, i).Admitted?
    requires !calls[i].signals.knownDevice || calls[i].signals.velocityFlagged
    ensures StillOpen(calls, ttl, j, i) && SamePair(calls[i], calls[j]) && calls[i].header == calls[j].drawn
    ensures calls[i].at <= calls[j].at + ttl
  {
    var c := calls[i];
    j := ChallengeWasDrawn(calls, ttl, i, ChallengeKey(c.signals.account, c.signals.action, c.header));
    var d := calls[j];
    ChallengeKeyInjective(c.signals.account, c.signals.action, c.header, d.signals.account, d.signals.action, d.drawn);
  }

  /** A call that presents no such token is admitted exactly when the device is known and velocity is not flagged. */
  lemma AdmittedWithoutToken(calls: seq<Call>, ttl: nat, i: nat)
    requires i < |calls| && !UsesToken(StoreAt(calls, ttl, i), calls[i])
    ensures Answer(calls, ttl, i).Admitted? <==> calls[i].signals.knownDevice && !calls[i].signals.velocityFlagged
  {
  }
}
