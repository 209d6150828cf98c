/**
 Two rate rules with different windows: a check that counts over the shorter window deletes actions
 the longer one needs. Exactly when the longer rule still bounds what is recorded.
 */
module VelocityMixed {
  import opened Common
  import opened Velocity
  import opened VelocityRuns

  // ---------------------------------------------------------------------------------------
  // Counting over an interval cut into pieces
  // ---------------------------------------------------------------------------------------

  lemma {:induction false} CountInSplit(s: seq<int>, from: int, a: nat, b: nat)
    ensures CountIn(s, from, a + b) == CountIn(s, from, a) + CountIn(s, from + a, b)
  {
    if s != [] {
      CountInSplit(s[..|s| - 1], from, a, b);
    }
  }

  /** At most m in every interval of length piece: at most k * m in k of them. */
  lemma {:induction false} CountInPieces(s: seq<int>, from: int, piece: nat, k: nat, m: nat)
    requires forall f :: CountIn(s, f, piece) <= m
    ensures CountIn(s, from, k * piece) <= k * m
  {
    if k == 0 {
      NoneIn(s, from);
    } else {
      CountInPieces(s, from, piece, k - 1, m);
      CountInSplit(s, from, (k - 1) * piece, piece);
      assert k * piece == (k - 1) * piece + piece && k * m == (k - 1) * m + m;
      assert CountIn(s, from + (k - 1) * piece, piece) <= m;
    }
  }

  lemma {:induction false} NoneIn(s: seq<int>, from: int)
    ensures CountIn(s, from, 0) == 0
  {
    if s != [] {
      NoneIn(s[..|s| - 1], from);
    }
  }

  /** How many pieces of length b cover a. */
  function Ceil(a: nat, b: nat): (k: nat)
    requires a > 0 && b > 0
  {
    (a + b - 1) / b
  }

  lemma CeilCovers(a: nat, b: nat)
    requires a > 0 && b > 0
    ensures var k := Ceil(a, b); k >= 1 && (k - 1) * b < a <= k * b && (a <= b ==> k == 1)
  {
    var k, r := (a + b - 1) / b, (a + b - 1) % b;
    assert a + b - 1 == b * k + r;
    assert (k - 1) * b == b * k - b && b * k >= a;
    assert k >= 2 ==> b * k >= b * 2;
  }

  // ---------------------------------------------------------------------------------------
  // The run that fills every piece
  // ---------------------------------------------------------------------------------------

  lemma {:induction false} AllAfter(s: seq<int>, cutoff: int)
    requires forall i :: 0 <= i < |s| ==> s[i] > cutoff
    ensures After(s, cutoff) == s
  {
    if s != [] {
      AllAfter(s[..|s| - 1], cutoff);
    }
  }

  lemma {:induction false} AfterTwice(s: seq<int>, low: int, high: int)
    requires low <= high
    ensures After(After(s, low), high) == After(s, high)
  {
    if s != [] {
      var init, last := s[..|s| - 1], s[|s| - 1];
      AfterTwice(init, low, high);
      if last > low {
        AfterConcat(After(init, low), [last], high);
        AfterConcat(init, [last], high);
        assert s == init + [last];
      } else {
        assert After(s, low) == After(init, low) && After(s, high) == After(init, high);
      }
    }
  }

  predicate TwoRates(rules: seq<Rule>) {
    && |rules| == 2 && rules[0].RateOverWindow? && rules[1].RateOverWindow?
    && WellFormed(rules[0]) && WellFormed(rules[1]) && rules[0].window <= rules[1].window
  }

  predicate AllAt(s: seq<int>, t: int) {
    forall i :: 0 <= i < |s| ==> s[i] == t
  }

  /** The first rule's window holds these actions, all recorded at this instant. */
  ghost predicate Filling(rules: seq<Rule>, w: World, kept: seq<int>) {
    && TwoRates(rules) && w.key.checks == map[] && AllAt(kept, w.now)
    && After(w.key.list, w.now - rules[0].window) == kept
  }

  lemma RoomForOne(rules: seq<Rule>, w: World, kept: seq<int>)
    requires Filling(rules, w, kept) && |kept| < rules[0].n && |kept| < rules[1].n
    ensures LetsThrough(rules, w.key, w.now, kept)
  {
    AllAfter(kept, w.now - rules[1].window);
  }

  ghost predicate Ends(rules: seq<Rule>, w: World, moves: seq<Move>, count: nat)
    requires TwoRates(rules)
  {
    && Legal(rules, w, moves) && Serial(rules, w, moves)
    && CountIn(Final(rules, w, moves).key.log, 0, rules[1].window) == count
  }

  /** One more undisturbed check, put before the rest of a run. */
  lemma OneMore(rules: seq<Rule>, w: World, kept: seq<int>, rest: seq<Move>, count: nat) returns (moves: seq<Move>)
    requires Filling(rules, w, kept) && |kept| < rules[0].n && |kept| < rules[1].n
    requires Ends(rules, Recorded(rules, w, kept), rest, count)
    ensures Ends(rules, w, moves, count)
  {
    RoomForOne(rules, w, kept);
    var w' := CheckRecords(rules, w.key, 0, w.now, kept, rest);
    assert w' == Recorded(rules, w, kept) && w == World(w.now, w.key);
    moves := CheckBy(0) + rest;
  }

  /** The world after one more undisturbed check. */
  function Recorded(rules: seq<Rule>, w: World, kept: seq<int>): World
    requires TwoRates(rules)
  {
    var first := ListAfter(rules[0], w.key.list, w.now);
    var dropped := w.key.dropped + DroppedBy(rules[0], w.key.list, w.now) + DroppedBy(rules[1], first, w.now);
    World(w.now, Key(kept + [w.now], dropped, w.key.log + [w.now], map[]))
  }

  lemma RecordedFills(rules: seq<Rule>, w: World, kept: seq<int>)
    requires Filling(rules, w, kept) && 0 <= w.now < rules[1].window
    ensures var w' := Recorded(rules, w, kept);
            && Filling(rules, w', kept + [w.now])
            && CountIn(w'.key.log, 0, rules[1].window) == CountIn(w.key.log, 0, rules[1].window) + 1
  {
    ListFills(rules, Recorded(rules, w, kept), kept + [w.now]);
    CountInAppend(w.key.log, w.now, rules[1].window);
  }

  lemma ListFills(rules: seq<Rule>, w: World, kept: seq<int>)
    requires TwoRates(rules) && w.key.checks == map[] && w.key.list == kept && AllAt(kept, w.now)
    ensures Filling(rules, w, kept)
  {
    AllAfter(kept, w.now - rules[0].window);
  }

  lemma CountInAppend(log: seq<int>, t: int, width: int)
    requires 0 <= t < width
    ensures CountIn(log + [t], 0, width) == CountIn(log, 0, width) + 1
  {
    assert (log + [t])[..|log|] == log;
  }

  /** One window later nothing is left to count. */
  lemma NextPiece(rules: seq<Rule>, w: World, kept: seq<int>)
    requires Filling(rules, w, kept)
    ensures Filling(rules, w.(now := w.now + rules[0].window), [])
  {
    AfterTwice(w.key.list, w.now - rules[0].window, w.now);
    NoneAfter(kept, w.now);
  }

  lemma PrependTick(rules: seq<Rule>, w: World, delta: nat, rest: seq<Move>, count: nat) returns (moves: seq<Move>)
    requires TwoRates(rules) && Ends(rules, w.(now := w.now + delta), rest, count)
    ensures Ends(rules, w, moves, count)
  {
    moves := [Tick(delta)] + rest;
    assert moves[1..] == rest;
  }

  /** d more pieces to come after this one: p actions in each. */
  lemma {:induction false} Fill(rules: seq<Rule>, w: World, kept: seq<int>, d: nat, p: nat) returns (moves: seq<Move>)
    requires Filling(rules, w, kept) && |kept| <= p <= rules[0].n && p <= rules[1].n
    requires 0 <= w.now && w.now + d * rules[0].window < rules[1].window
    ensures Ends(rules, w, moves, CountIn(w.key.log, 0, rules[1].window) + (p - |kept|) + d * p)
    decreases d, p - |kept|
  {
    var piece := rules[0].window;
    assert 0 <= d * piece;
    if |kept| < p {
      RecordedFills(rules, w, kept);
      var rest := Fill(rules, Recorded(rules, w, kept), kept + [w.now], d, p);
      moves := OneMore(rules, w, kept, rest, CountIn(w.key.log, 0, rules[1].window) + (p - |kept|) + d * p);
    } else if d == 0 {
      moves := [];
      assert d * p == 0;
    } else {
      NextPiece(rules, w, kept);
      assert d * piece == (d - 1) * piece + piece && d * p == (d - 1) * p + p;
      var rest := Fill(rules, w.(now := w.now + piece), [], d - 1, p);
      moves := PrependTick(rules, w, piece, rest, CountIn(w.key.log, 0, rules[1].window) + d * p);
    }
  }

  // ---------------------------------------------------------------------------------------
  // The exact condition
  // ---------------------------------------------------------------------------------------

  /** In every serial run every interval of length window holds at most n recorded actions. */
  ghost predicate Bounds(rules: seq<Rule>, n: int, window: int) {
    forall now, moves, from :: Legal(rules, World(now, EMPTY), moves) && Serial(rules, World(now, EMPTY), moves) ==>
      CountIn(Final(rules, World(now, EMPTY), moves).key.log, from, window) <= n
  }

  lemma CountInCovered(log: seq<int>, from: int, piece: nat, window: nat, m: nat)
    requires 0 < piece && 0 < window && forall f :: CountIn(log, f, piece) <= m
    ensures CountIn(log, from, window) <= m * Ceil(window, piece)
  {
    var k := Ceil(window, piece);
    CountInPieces(log, from, piece, k, m);
    CeilCovers(window, piece);
    CountInSplit(log, from, window, k * piece - window);
  }

  /** Every piece is bounded by the first rule, and the pieces cover the window. */
  lemma BoundedByPieces(m: nat, other: nat, n: nat, window: nat)
    requires m > 0 && n > 0 && 0 < other < window && m * Ceil(window, other) <= n
    ensures Bounds([RateOverWindow(m, other), RateOverWindow(n, window)], n, window)
  {
    var rules, k := [RateOverWindow(m, other), RateOverWindow(n, window)], Ceil(window, other);
    forall now, moves, from | Legal(rules, World(now, EMPTY), moves) && Serial(rules, World(now, EMPTY), moves)
      ensures CountIn(Final(rules, World(now, EMPTY), moves).key.log, from, window) <= n
    {
      var log := Final(rules, World(now, EMPTY), moves).key.log;
      SerialIsOneAtATime(rules, World(now, EMPTY), moves, 0);
      forall f
        ensures CountIn(log, f, other) <= m
      {
        RateBoundFromEmpty(rules, now, moves, 0, 1, f);
      }
      CountInCovered(log, from, other, window, m);
    }
  }

  /** The second rule's own window is the shorter one. */
  lemma BoundedByItself(m: nat, other: nat, n: nat, window: nat)
    requires m > 0 && n > 0 && 0 < window <= other
    ensures Bounds([RateOverWindow(m, other), RateOverWindow(n, window)], n, window)
  {
    var rules := [RateOverWindow(m, other), RateOverWindow(n, window)];
    forall now, moves, from | Legal(rules, World(now, EMPTY), moves) && Serial(rules, World(now, EMPTY), moves)
      ensures CountIn(Final(rules, World(now, EMPTY), moves).key.log, from, window) <= n
    {
      SerialIsOneAtATime(rules, World(now, EMPTY), moves, 1);
      RateBoundFromEmpty(rules, now, moves, 1, 1, from);
    }
  }

  function Min(a: nat, b: nat): nat {
    if a <= b then a else b
  }

  /** Filling every piece gives the most there can be. */
  lemma FilledPieces(m: nat, other: nat, n: nat, window: nat) returns (moves: seq<Move>)
    requires m > 0 && n > 0 && 0 < other < window
    ensures var rules := [RateOverWindow(m, other), RateOverWindow(n, window)];
            TwoRates(rules) && Ends(rules, World(0, EMPTY), moves, Min(m, n) * Ceil(window, other))
  {
    var rules, k, p := [RateOverWindow(m, other), RateOverWindow(n, window)], Ceil(window, other), Min(m, n);
    CeilCovers(window, other);
    moves := Fill(rules, World(0, EMPTY), [], k - 1, p);
    assert p + (k - 1) * p == p * k;
  }

  /**
   Where the rate bound stops: behind a rate rule of m per other, "at most n per window" holds in every
   serial run exactly when filling every stretch of length other within the window stays within n. For
   n = 1 this says that the other window is at least as long.
   */
  lemma RateBehindRateExactly(m: nat, other: nat, n: nat, window: nat)
    requires m > 0 && other > 0 && n > 0 && window > 0
    ensures Bounds([RateOverWindow(m, other), RateOverWindow(n, window)], n, window)
            <==> Min(m, n) * Ceil(window, other) <= n
  {
    var rules, k := [RateOverWindow(m, other), RateOverWindow(n, window)], Ceil(window, other);
    CeilCovers(window, other);
    if window <= other {
      BoundedByItself(m, other, n, window);
    } else if Min(m, n) * k <= n {
      assert k >= 2;
      assert m < n by {
        assert n * k >= n * 2;
      }
      BoundedByPieces(m, other, n, window);
    } else {
      var moves := FilledPieces(m, other, n, window);
      assert CountIn(Final(rules, World(0, EMPTY), moves).key.log, 0, window) > n;
    }
  }
}
