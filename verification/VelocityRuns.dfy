/**
 Any number of velocity checks on one key, interleaved: what the recorded actions can look like.

 A check evaluates the rules one step at a time, then reads the clock, then appends; between any
 two of its steps other checks may move and time may pass. The key's state carries, besides the
 list the store keeps, the log of everything recorded and of everything trimmed.
 */
module VelocityRuns {
  import opened Common
  import opened Velocity

  /**
   Where a check stands: about to evaluate a rule, holding the last action a MinInterval rule has read,
   or about to append.
   */
  datatype Phase = Evaluating(next: nat) | Looked(next: nat, last: Option<int>) | Stamped(at: int)

  datatype Key = Key(list: seq<int>, dropped: seq<int>, log: seq<int>, checks: map<nat, Phase>)

  const EMPTY := Key([], [], [], map[])

  /**
   Eval evaluates a rule at one instant. A MinInterval rule may instead Look at the last action, and
   Decide by a clock reading it takes later.
   */
  datatype Action = Begin(id: nat) | Eval(id: nat) | Look(id: nat) | Decide(id: nat) | Stamp(id: nat) | Append(id: nat)

  predicate Enabled(rules: seq<Rule>, k: Key, a: Action) {
    match a
    case Begin(id) => id !in k.checks
    case Eval(id) => id in k.checks && k.checks[id].Evaluating? && k.checks[id].next < |rules|
    case Look(id) =>
      && id in k.checks && k.checks[id].Evaluating? && k.checks[id].next < |rules|
      && rules[k.checks[id].next].MinInterval?
    case Decide(id) =>
      && id in k.checks && k.checks[id].Looked? && k.checks[id].next < |rules|
      && rules[k.checks[id].next].MinInterval?
    case Stamp(id) => id in k.checks && k.checks[id].Evaluating? && k.checks[id].next == |rules|
    case Append(id) => id in k.checks && k.checks[id].Stamped?
  }

  /** A MinInterval rule's verdict on the last action it has read. */
  function JudgeGap(r: Rule, last: Option<int>, now: int): Verdict
    requires r.MinInterval?
  {
    if !WellFormed(r) then Invalid else if last.Some? && now - last.value < r.min then Flagged else Pass
  }

  /** Reading and deciding at one instant is evaluating. */
  lemma LookThenDecide(r: Rule, list: seq<int>, now: int)
    requires r.MinInterval?
    ensures JudgeGap(r, LastOf(list), now) == Judge(r, list, now) && ListAfter(r, list, now) == list
  {
  }

  function Next(rules: seq<Rule>, k: Key, a: Action, now: int): Key
    requires Enabled(rules, k, a)
  {
    match a
    case Begin(id) => k.(checks := k.checks[id := Evaluating(0)])
    case Eval(id) =>
      var i := k.checks[id].next;
      k.(list := ListAfter(rules[i], k.list, now),
         dropped := k.dropped + DroppedBy(rules[i], k.list, now),
         checks := if Judge(rules[i], k.list, now).Pass? then k.checks[id := Evaluating(i + 1)] else k.checks - {id})
    case Look(id) => k.(checks := k.checks[id := Looked(k.checks[id].next, LastOf(k.list))])
    case Decide(id) =>
      var Looked(i, last) := k.checks[id];
      k.(checks := if JudgeGap(rules[i], last, now).Pass? then k.checks[id := Evaluating(i + 1)] else k.checks - {id})
    case Stamp(id) => k.(checks := k.checks[id := Stamped(now)])
    case Append(id) =>
      k.(list := k.list + [k.checks[id].at], log := k.log + [k.checks[id].at], checks := k.checks - {id})
  }

  /** A step of the world: time passes, or one check moves. */
  datatype Move = Tick(delta: nat) | Act(action: Action)

  datatype World = World(now: int, key: Key)

  predicate CanMove(rules: seq<Rule>, w: World, m: Move) {
    m.Act? ==> Enabled(rules, w.key, m.action)
  }

  function Moved(rules: seq<Rule>, w: World, m: Move): World
    requires CanMove(rules, w, m)
  {
    match m
    case Tick(delta) => w.(now := w.now + delta)
    case Act(a) => w.(key := Next(rules, w.key, a, w.now))
  }

  predicate Legal(rules: seq<Rule>, w: World, moves: seq<Move>)
    decreases |moves|
  {
    moves == [] || (CanMove(rules, w, moves[0]) && Legal(rules, Moved(rules, w, moves[0]), moves[1..]))
  }

  /** The world after the moves. */
  function Final(rules: seq<Rule>, w: World, moves: seq<Move>): (r: World)
    requires Legal(rules, w, moves)
    decreases |moves|
  {
    if moves == [] then w else Final(rules, Moved(rules, w, moves[0]), moves[1..])
  }

  // ---------------------------------------------------------------------------------------
  // The kept list against the log
  // ---------------------------------------------------------------------------------------

  /** Above every level, the log is what the list still holds plus what trimming took away. */
  ghost predicate Accounted(k: Key) {
    forall level :: |After(k.list, level)| + |After(k.dropped, level)| == |After(k.log, level)|
  }

  lemma NextAccounted(rules: seq<Rule>, k: Key, a: Action, now: int)
    requires Enabled(rules, k, a) && Accounted(k)
    ensures Accounted(Next(rules, k, a, now))
  {
    match a
    case Eval(id) => TrimAccounted(rules[k.checks[id].next], k, Next(rules, k, a, now), now);
    case Append(id) => AppendAccounted(k, Next(rules, k, a, now), k.checks[id].at);
    case _ =>
  }

  lemma TrimAccounted(r: Rule, k: Key, k': Key, now: int)
    requires Accounted(k) && k'.log == k.log
    requires k'.list == ListAfter(r, k.list, now) && k'.dropped == k.dropped + DroppedBy(r, k.list, now)
    ensures Accounted(k')
  {
    forall level
      ensures |After(k'.list, level)| + |After(k'.dropped, level)| == |After(k'.log, level)|
    {
      RuleSplitsCount(r, k.list, now, level);
      AfterConcat(k.dropped, DroppedBy(r, k.list, now), level);
    }
  }

  lemma RuleSplitsCount(r: Rule, list: seq<int>, now: int, level: int)
    ensures |After(ListAfter(r, list, now), level)| + |After(DroppedBy(r, list, now), level)| == |After(list, level)|
  {
    if r.RateOverWindow? && WellFormed(r) {
      TrimSplitsCount(list, now - r.window, level);
    }
  }

  lemma AppendAccounted(k: Key, k': Key, at: int)
    requires Accounted(k) && k'.list == k.list + [at] && k'.log == k.log + [at] && k'.dropped == k.dropped
    ensures Accounted(k')
  {
    forall level
      ensures |After(k'.list, level)| + |After(k'.dropped, level)| == |After(k'.log, level)|
    {
      AfterConcat(k.list, [at], level);
      AfterConcat(k.log, [at], level);
    }
  }

  /**
   The exact count: for any mix of rules and any interleaving, counting over a window finds the
   recorded actions of the window less those an earlier trim has already taken from it. So a count
   never exceeds the truth, and is exact precisely when no such action was taken.
   */
  lemma {:induction false} CountLaw(rules: seq<Rule>, w: World, moves: seq<Move>, window: int)
    requires Legal(rules, w, moves) && Accounted(w.key)
    ensures var w' := Final(rules, w, moves);
            && Accounted(w'.key)
            && |After(w'.key.list, w'.now - window)|
               == |After(w'.key.log, w'.now - window)| - |After(w'.key.dropped, w'.now - window)|
    decreases |moves|
  {
    if moves != [] {
      if moves[0].Act? {
        NextAccounted(rules, w.key, moves[0].action, w.now);
      }
      CountLaw(rules, Moved(rules, w, moves[0]), moves[1..], window);
    }
  }

  /** Every rate rule looks back at least as far as span. */
  predicate LooksBack(rules: seq<Rule>, span: int) {
    forall i :: 0 <= i < |rules| && rules[i].RateOverWindow? && WellFormed(rules[i]) ==> span <= rules[i].window
  }

  /** Nothing stamped lies in the future, and nothing dropped is younger than span. */
  ghost predicate Dated(k: Key, now: int, span: int) {
    && (forall id :: id in k.checks && k.checks[id].Stamped? ==> k.checks[id].at <= now)
    && (forall i :: 0 <= i < |k.log| ==> k.log[i] <= now)
    && (forall i :: 0 <= i < |k.dropped| ==> k.dropped[i] <= now - span)
  }

  lemma NextDated(rules: seq<Rule>, k: Key, a: Action, now: int, span: int)
    requires Enabled(rules, k, a) && Dated(k, now, span) && LooksBack(rules, span)
    ensures Dated(Next(rules, k, a, now), now, span)
  {
    if a.Eval? {
      var r := rules[k.checks[a.id].next];
      var d := DroppedBy(r, k.list, now);
      forall i | 0 <= i < |d|
        ensures d[i] <= now - span
      {
        UpToBounded(k.list, now - r.window, d[i]);
      }
    }
  }

  lemma {:induction false} RunDated(rules: seq<Rule>, w: World, moves: seq<Move>, span: int)
    requires LooksBack(rules, span) && Legal(rules, w, moves) && Dated(w.key, w.now, span)
    ensures var w' := Final(rules, w, moves); Dated(w'.key, w'.now, span)
    decreases |moves|
  {
    if moves != [] {
      if moves[0].Act? {
        NextDated(rules, w.key, moves[0].action, w.now, span);
      }
      RunDated(rules, Moved(rules, w, moves[0]), moves[1..], span);
    }
  }

  /** When every rate rule looks back at least as far, counting over a window is exact, in every run. */
  lemma CountIsExact(rules: seq<Rule>, w: World, moves: seq<Move>, window: int)
    requires LooksBack(rules, window) && Legal(rules, w, moves) && Accounted(w.key) && Dated(w.key, w.now, window)
    ensures var w' := Final(rules, w, moves);
            |After(w'.key.list, w'.now - window)| == |After(w'.key.log, w'.now - window)|
  {
    var w' := Final(rules, w, moves);
    RunDated(rules, w, moves, window);
    NoneAfter(w'.key.dropped, w'.now - window);
    CountLaw(rules, w, moves, window);
  }

  // ---------------------------------------------------------------------------------------
  // The rate bound under concurrency
  // ---------------------------------------------------------------------------------------

  /** The check has passed rule j and has not yet recorded. */
  predicate Past(p: Phase, j: nat) {
    p.Stamped? || p.next > j
  }

  function PastRule(k: Key, j: nat): (ids: set<nat>) {
    set id | id in k.checks && Past(k.checks[id], j)
  }

  /** The checks past rule j whose record can still fall in [from, from + width). */
  function MayLand(k: Key, j: nat, now: int, from: int, width: int): (ids: set<nat>) {
    set id | id in k.checks && Past(k.checks[id], j) &&
      if k.checks[id].Stamped? then from <= k.checks[id].at < from + width else now < from + width
  }

  /** At no point of the run are more than c checks past rule j at once. */
  predicate AtMostPast(rules: seq<Rule>, w: World, moves: seq<Move>, j: nat, c: nat)
    requires Legal(rules, w, moves)
    decreases |moves|
  {
    |PastRule(w.key, j)| <= c &&
    (moves == [] || AtMostPast(rules, Moved(rules, w, moves[0]), moves[1..], j, c))
  }

  /** Recorded actions of any window, together with those that may still land there, stay in bounds. */
  ghost predicate Capped(k: Key, j: nat, now: int, n: int, width: int, c: nat) {
    forall from :: CountIn(k.log, from, width) + |MayLand(k, j, now, from, width)| <= n + c - 1
  }

  /** Letting checks go, or letting time pass, only shrinks what may land. */
  lemma ShrinkCapped(k: Key, k': Key, j: nat, now: int, now': int, n: int, width: int, c: nat)
    requires Capped(k, j, now, n, width, c) && k'.log == k.log && now <= now'
    requires forall id :: id in k'.checks && Past(k'.checks[id], j) ==>
               && id in k.checks && Past(k.checks[id], j)
               && (k.checks[id].Stamped? ==> k'.checks[id] == k.checks[id])
               && (k'.checks[id].Stamped? && !k.checks[id].Stamped? ==> k'.checks[id].at >= now)
    ensures Capped(k', j, now', n, width, c)
  {
    forall from
      ensures CountIn(k'.log, from, width) + |MayLand(k', j, now', from, width)| <= n + c - 1
    {
      assert MayLand(k', j, now', from, width) <= MayLand(k, j, now, from, width);
      SubsetSize(MayLand(k', j, now', from, width), MayLand(k, j, now, from, width));
    }
  }

  lemma AppendCapped(rules: seq<Rule>, k: Key, id: nat, j: nat, now: int, n: int, width: int, c: nat)
    requires Enabled(rules, k, Append(id)) && Capped(k, j, now, n, width, c)
    ensures Capped(Next(rules, k, Append(id), now), j, now, n, width, c)
  {
    var k' := Next(rules, k, Append(id), now);
    forall from
      ensures CountIn(k'.log, from, width) + |MayLand(k', j, now, from, width)| <= n + c - 1
    {
      assert k'.log[..|k'.log| - 1] == k.log;
      assert MayLand(k', j, now, from, width) == MayLand(k, j, now, from, width) - {id};
    }
  }

  /** A check passing rule j itself: fewer than n recent records, and at most c checks past it. */
  lemma PassCapped(rules: seq<Rule>, k: Key, id: nat, j: nat, now: int, c: nat)
    requires Enabled(rules, k, Eval(id)) && k.checks[id].next == j
    requires rules[j].RateOverWindow? && Judge(rules[j], k.list, now).Pass?
    requires Accounted(k) && Dated(k, now, rules[j].window)
    requires Capped(k, j, now, rules[j].n, rules[j].window, c)
    requires |PastRule(Next(rules, k, Eval(id), now), j)| <= c
    ensures Capped(Next(rules, k, Eval(id), now), j, now, rules[j].n, rules[j].window, c)
  {
    var k', n, width := Next(rules, k, Eval(id), now), rules[j].n, rules[j].window;
    assert |After(k.log, now - width)| < n by {
      NoneAfter(k.dropped, now - width);
    }
    forall from
      ensures CountIn(k'.log, from, width) + |MayLand(k', j, now, from, width)| <= n + c - 1
    {
      if now < from + width {
        CountInAtMostAfter(k.log, from, width, now - width);
        SubsetSize(MayLand(k', j, now, from, width), PastRule(k', j));
      } else {
        assert MayLand(k', j, now, from, width) == MayLand(k, j, now, from, width);
      }
    }
  }

  lemma NextCapped(rules: seq<Rule>, k: Key, a: Action, j: nat, now: int, c: nat)
    requires j < |rules| && rules[j].RateOverWindow? && WellFormed(rules[j])
    requires Enabled(rules, k, a) && Accounted(k) && Dated(k, now, rules[j].window)
    requires Capped(k, j, now, rules[j].n, rules[j].window, c)
    requires |PastRule(Next(rules, k, a, now), j)| <= c
    ensures Capped(Next(rules, k, a, now), j, now, rules[j].n, rules[j].window, c)
  {
    if a.Append? {
      AppendCapped(rules, k, a.id, j, now, rules[j].n, rules[j].window, c);
    } else if a.Eval? && k.checks[a.id].next == j && Judge(rules[j], k.list, now).Pass? {
      PassCapped(rules, k, a.id, j, now, c);
    } else {
      ShrinkCapped(k, Next(rules, k, a, now), j, now, now, rules[j].n, rules[j].window, c);
    }
  }

  /**
   The rate rule under concurrency. Let rule j allow n actions per window, its window the smallest
   of all rate windows. In every run in which at most c checks are ever between passing rule j and
   recording, every interval of length window holds at most n + c - 1 recorded actions.
   */
  lemma {:induction false} RateBound(rules: seq<Rule>, w: World, moves: seq<Move>, j: nat, c: nat, from: int)
    requires j < |rules| && rules[j].RateOverWindow? && WellFormed(rules[j])
    requires LooksBack(rules, rules[j].window)
    requires Legal(rules, w, moves) && AtMostPast(rules, w, moves, j, c)
    requires Accounted(w.key) && Dated(w.key, w.now, rules[j].window)
    requires Capped(w.key, j, w.now, rules[j].n, rules[j].window, c)
    ensures CountIn(Final(rules, w, moves).key.log, from, rules[j].window) <= rules[j].n + c - 1
    decreases |moves|
  {
    if moves == [] {
      assert CountIn(w.key.log, from, rules[j].window)
             + |MayLand(w.key, j, w.now, from, rules[j].window)| <= rules[j].n + c - 1;
    } else {
      var w' := Moved(rules, w, moves[0]);
      match moves[0] {
        case Tick(_) =>
          ShrinkCapped(w.key, w.key, j, w.now, w'.now, rules[j].n, rules[j].window, c);
        case Act(a) =>
          NextAccounted(rules, w.key, a, w.now);
          NextDated(rules, w.key, a, w.now, rules[j].window);
          NextCapped(rules, w.key, a, j, w.now, c);
      }
      RateBound(rules, w', moves[1..], j, c, from);
    }
  }

  /** From an unused key; with serial checks (c == 1) the bound is the configured n. */
  lemma RateBoundFromEmpty(rules: seq<Rule>, now: int, moves: seq<Move>, j: nat, c: nat, from: int)
    requires j < |rules| && rules[j].RateOverWindow? && WellFormed(rules[j])
    requires LooksBack(rules, rules[j].window)
    requires Legal(rules, World(now, EMPTY), moves) && AtMostPast(rules, World(now, EMPTY), moves, j, c)
    ensures var count := CountIn(Final(rules, World(now, EMPTY), moves).key.log, from, rules[j].window);
            count <= rules[j].n + c - 1 && (c == 1 ==> count <= rules[j].n)
  {
    forall f
      ensures CountIn(EMPTY.log, f, rules[j].window)
              + |MayLand(EMPTY, j, now, f, rules[j].window)| <= rules[j].n + c - 1
    {
      assert MayLand(EMPTY, j, now, f, rules[j].window) == {};
    }
    RateBound(rules, World(now, EMPTY), moves, j, c, from);
  }

  // ---------------------------------------------------------------------------------------
  // The minimum interval, for serial checks
  // ---------------------------------------------------------------------------------------

  /** No check begins while another is under way. */
  predicate Serial(rules: seq<Rule>, w: World, moves: seq<Move>)
    requires Legal(rules, w, moves)
    decreases |moves|
  {
    moves == [] ||
    (&& (moves[0].Act? && moves[0].action.Begin? ==> w.key.checks == map[])
     && Serial(rules, Moved(rules, w, moves[0]), moves[1..]))
  }

  /** Every rate rule placed before rule m looks back at least min. */
  predicate LooksBackBefore(rules: seq<Rule>, m: nat, min: int)
    requires m <= |rules|
  {
    forall i :: 0 <= i < m && rules[i].RateOverWindow? && WellFormed(rules[i]) ==> min <= rules[i].window
  }

  /** The last record is at least min before t. */
  predicate Rested(log: seq<int>, t: int, min: int) {
    log == [] || t - log[|log| - 1] >= min
  }

  predicate Apart(log: seq<int>, min: int) {
    forall i, j :: 0 <= i < j < |log| ==> log[j] - log[i] >= min
  }

  ghost predicate Spaced(k: Key, now: int, m: nat, min: int) {
    && Apart(k.log, min)
    && (Rested(k.log, now, min) || (k.list != [] && k.list[|k.list| - 1] == k.log[|k.log| - 1]))
    && (forall id :: id in k.checks ==>
          match k.checks[id]
          case Evaluating(next) => next > m ==> Rested(k.log, now, min)
          case Looked(next, last) =>
            (next > m ==> Rested(k.log, now, min)) && (next == m ==> last == LastOf(k.list))
          case Stamped(at) => at <= now && Rested(k.log, at, min))
    && (forall id, id' :: id in k.checks && id' in k.checks ==> id == id')
  }

  lemma {:induction false} LastKept(s: seq<int>, cutoff: int)
    requires s != [] && s[|s| - 1] > cutoff
    ensures After(s, cutoff) != [] && After(s, cutoff)[|After(s, cutoff)| - 1] == s[|s| - 1]
  {
  }

  lemma NextSpaced(rules: seq<Rule>, k: Key, a: Action, now: int, m: nat)
    requires m < |rules| && rules[m].MinInterval? && WellFormed(rules[m])
    requires LooksBackBefore(rules, m, rules[m].min)
    requires Enabled(rules, k, a) && Spaced(k, now, m, rules[m].min)
    requires a.Begin? ==> k.checks == map[]
    ensures Spaced(Next(rules, k, a, now), now, m, rules[m].min)
  {
    var min, k' := rules[m].min, Next(rules, k, a, now);
    match a {
      case Eval(id) =>
        var i := k.checks[id].next;
        if rules[i].RateOverWindow? && WellFormed(rules[i]) && k.list != [] {
          if k.list[|k.list| - 1] > now - rules[i].window {
            LastKept(k.list, now - rules[i].window);
          }
        }
      case Append(id) =>
        assert forall i :: 0 <= i < |k.log| ==> k.log[i] <= k.log[|k.log| - 1];
      case _ =>
    }
  }

  /**
   The minimum interval: with serial checks, and every rate rule ahead of the MinInterval rule
   looking back at least min, any two recorded actions are at least min apart over the whole run,
   even where trimming has removed the previous action from the list.
   */
  lemma {:induction false} MinIntervalHolds(rules: seq<Rule>, w: World, moves: seq<Move>, m: nat)
    requires m < |rules| && rules[m].MinInterval? && WellFormed(rules[m])
    requires LooksBackBefore(rules, m, rules[m].min)
    requires Legal(rules, w, moves) && Serial(rules, w, moves) && Spaced(w.key, w.now, m, rules[m].min)
    ensures Apart(Final(rules, w, moves).key.log, rules[m].min)
    decreases |moves|
  {
    if moves != [] {
      if moves[0].Act? {
        NextSpaced(rules, w.key, moves[0].action, w.now, m);
      }
      MinIntervalHolds(rules, Moved(rules, w, moves[0]), moves[1..], m);
    }
  }

  // ---------------------------------------------------------------------------------------
  // Mixed windows: where the minimum interval stops
  // ---------------------------------------------------------------------------------------

  /** One undisturbed check through two rules. */
  function CheckBy(id: nat): seq<Move> {
    [Act(Begin(id)), Act(Eval(id)), Act(Eval(id)), Act(Stamp(id)), Act(Append(id))]
  }

  /** Both rules let a check through at now, leaving this list. */
  predicate LetsThrough(rules: seq<Rule>, k: Key, now: int, kept: seq<int>) {
    && |rules| == 2 && k.checks == map[] && Judge(rules[0], k.list, now).Pass?
    && var first := ListAfter(rules[0], k.list, now);
       Judge(rules[1], first, now).Pass? && ListAfter(rules[1], first, now) == kept
  }

  lemma CheckRecords(rules: seq<Rule>, k: Key, id: nat, now: int, kept: seq<int>, rest: seq<Move>) returns (w': World)
    requires LetsThrough(rules, k, now, kept)
    ensures w'.now == now && w'.key.list == kept + [now] && w'.key.log == k.log + [now] && w'.key.checks == map[]
    ensures w'.key.dropped == k.dropped + DroppedBy(rules[0], k.list, now)
                              + DroppedBy(rules[1], ListAfter(rules[0], k.list, now), now)
    ensures Legal(rules, World(now, k), CheckBy(id) + rest) == Legal(rules, w', rest)
    ensures Legal(rules, w', rest) ==> Final(rules, World(now, k), CheckBy(id) + rest) == Final(rules, w', rest)
    ensures Legal(rules, w', rest) ==> Serial(rules, World(now, k), CheckBy(id) + rest) == Serial(rules, w', rest)
  {
    var w0, m0 := World(now, k), CheckBy(id) + rest;
    var w1, m1 := Moved(rules, w0, Act(Begin(id))), m0[1..];
    var w2, m2 := Moved(rules, w1, Act(Eval(id))), m1[1..];
    var w3, m3 := Moved(rules, w2, Act(Eval(id))), m2[1..];
    var w4, m4 := Moved(rules, w3, Act(Stamp(id))), m3[1..];
    w' := Moved(rules, w4, Act(Append(id)));
    assert m4[1..] == rest;
    assert w'.key.checks == map[];
    assert Legal(rules, w4, m4) == Legal(rules, w', rest);
    assert Legal(rules, w3, m3) == Legal(rules, w4, m4);
    assert Legal(rules, w2, m2) == Legal(rules, w3, m3);
    assert Legal(rules, w1, m1) == Legal(rules, w2, m2);
    if Legal(rules, w', rest) {
      assert Final(rules, w4, m4) == Final(rules, w', rest) && Serial(rules, w4, m4) == Serial(rules, w', rest);
      assert Final(rules, w3, m3) == Final(rules, w4, m4) && Serial(rules, w3, m3) == Serial(rules, w4, m4);
      assert Final(rules, w2, m2) == Final(rules, w3, m3) && Serial(rules, w2, m2) == Serial(rules, w3, m3);
      assert Final(rules, w1, m1) == Final(rules, w2, m2) && Serial(rules, w1, m1) == Serial(rules, w2, m2);
    }
  }

  /** With nothing recorded later than gap ago, both rules let a check through. */
  lemma NothingRecent(n: int, gap: int, second: Rule, k: Key, now: int)
    requires n > 0 && gap > 0 && WellFormed(second) && k.checks == map[]
    requires forall i :: 0 <= i < |k.list| ==> k.list[i] <= now - gap
    ensures LetsThrough([RateOverWindow(n, gap), second], k, now, [])
  {
    NoneAfter(k.list, now - gap);
  }

  /** A first rule with a window of gap lets a second action in gap later, whatever the second rule. */
  lemma TwoRecords(n: int, gap: int, second: Rule) returns (moves: seq<Move>)
    requires n > 0 && gap > 0 && WellFormed(second)
    ensures var rules := [RateOverWindow(n, gap), second];
            && Legal(rules, World(0, EMPTY), moves) && Serial(rules, World(0, EMPTY), moves)
            && Final(rules, World(0, EMPTY), moves).key.log == [0, gap]
  {
    var rules := [RateOverWindow(n, gap), second];
    var tail := [Tick(gap)] + (CheckBy(1) + []);
    moves := CheckBy(0) + tail;
    NothingRecent(n, gap, second, EMPTY, 0);
    var w1 := CheckRecords(rules, EMPTY, 0, 0, [], tail);
    var w2 := Moved(rules, w1, tail[0]);
    assert tail[1..] == CheckBy(1) + [];
    NothingRecent(n, gap, second, w2.key, gap);
    var w3 := CheckRecords(rules, w2.key, 1, gap, [], []);
    assert Legal(rules, w3, []);
  }

  /** A serial run never has two checks past a rule. */
  lemma {:induction false} SerialIsOneAtATime(rules: seq<Rule>, w: World, moves: seq<Move>, j: nat)
    requires Legal(rules, w, moves) && Serial(rules, w, moves)
    requires forall id, id' :: id in w.key.checks && id' in w.key.checks ==> id == id'
    ensures AtMostPast(rules, w, moves, j, 1)
    decreases |moves|
  {
    var past := PastRule(w.key, j);
    if id :| id in past {
      assert past == {id};
    }
    if moves != [] {
      SerialIsOneAtATime(rules, Moved(rules, w, moves[0]), moves[1..], j);
    }
  }

  /**
   Where the minimum interval stops: behind a rate rule, it holds in every serial run exactly when
   the rate window is at least the interval. A shorter window trims away the action to compare with.
   */
  lemma MinIntervalExactly(n: int, window: int, min: int)
    requires n > 0 && window > 0 && min > 0
    ensures var rules := [RateOverWindow(n, window), MinInterval(min)];
            window >= min <==>
            forall now, moves :: Legal(rules, World(now, EMPTY), moves) && Serial(rules, World(now, EMPTY), moves)
                                 ==> Apart(Final(rules, World(now, EMPTY), moves).key.log, min)
  {
    var rules := [RateOverWindow(n, window), MinInterval(min)];
    if window >= min {
      forall now, moves | Legal(rules, World(now, EMPTY), moves) && Serial(rules, World(now, EMPTY), moves)
        ensures Apart(Final(rules, World(now, EMPTY), moves).key.log, min)
      {
        MinIntervalHolds(rules, World(now, EMPTY), moves, 1);
      }
    } else {
      var moves := TwoRecords(n, window, MinInterval(min));
      var log := Final(rules, World(0, EMPTY), moves).key.log;
      assert log[1] - log[0] < min;
    }
  }

  // ---------------------------------------------------------------------------------------
  // The engine's serial check is a run of this machine
  // ---------------------------------------------------------------------------------------

  /** The moves of check id from rule i on, reading the clock as the engine does. */
  function MovesFrom(rules: seq<Rule>, i: nat, id: nat, list: seq<int>, now: int, clock: seq<int>): (r: seq<Move>)
    requires i <= |rules| < |clock| && now <= clock[i]
    requires forall a, b :: 0 <= a < b < |clock| ==> clock[a] <= clock[b]
    decreases |rules| - i
  {
    [Tick(clock[i] - now)] +
    if i == |rules| then [Act(Stamp(id)), Act(Append(id))] else
    [Act(Eval(id))] +
    if Judge(rules[i], list, clock[i]).Pass?
    then MovesFrom(rules, i + 1, id, ListAfter(rules[i], list, clock[i]), clock[i], clock) else []
  }

  /**
   Engine.Check on an idle key, with non-decreasing clock readings, is such a run: the store's list
   ends as the machine's, and the log grows exactly when the check is allowed.
   */
  lemma {:induction false} CheckIsRun(rules: seq<Rule>, i: nat, id: nat, w: World, clock: seq<int>)
    requires i <= |rules| < |clock| && w.now <= clock[i]
    requires forall a, b :: 0 <= a < b < |clock| ==> clock[a] <= clock[b]
    requires w.key.checks == map[id := Evaluating(i)]
    ensures var moves := MovesFrom(rules, i, id, w.key.list, w.now, clock);
            var (list, outcome) := CheckFrom(rules, i, w.key.list, clock);
            && Legal(rules, w, moves) && Serial(rules, w, moves)
            && Final(rules, w, moves).key.list == list && Final(rules, w, moves).key.checks == map[]
            && Final(rules, w, moves).key.log == w.key.log + if outcome.Allowed? then [clock[|rules|]] else []
    decreases |rules| - i
  {
    var moves := MovesFrom(rules, i, id, w.key.list, w.now, clock);
    var w1 := Moved(rules, w, moves[0]);
    assert w1.now == clock[i];
    var rest := moves[1..];
    if i == |rules| {
      assert rest == [Act(Stamp(id)), Act(Append(id))];
      var w2 := Moved(rules, w1, rest[0]);
      assert rest[1..] == [Act(Append(id))];
      var w3 := Moved(rules, w2, rest[1]);
      assert rest[1..][1..] == [] && w3.key.checks == map[];
      assert Legal(rules, w3, []) && Legal(rules, w2, rest[1..]) && Legal(rules, w1, rest);
      assert Serial(rules, w3, []) && Serial(rules, w2, rest[1..]) && Serial(rules, w1, rest);
      assert Final(rules, w2, rest[1..]) == w3;
    } else {
      var w2 := Moved(rules, w1, rest[0]);
      if Judge(rules[i], w.key.list, clock[i]).Pass? {
        assert rest[1..] == MovesFrom(rules, i + 1, id, w2.key.list, w2.now, clock);
        assert w2.key.checks == map[id := Evaluating(i + 1)];
        CheckIsRun(rules, i + 1, id, w2, clock);
      } else {
        assert rest[1..] == [] && w2.key.checks == map[];
      }
      assert Legal(rules, w2, rest[1..]) && Legal(rules, w1, rest);
      assert Final(rules, w1, rest) == Final(rules, w2, rest[1..]);
    }
  }
}
