/**
 The rate bound for overlapping velocity checks is attained: with c checks between evaluation and
 recording, a rule of n actions per window really can let n + c - 1 actions into one instant.
 */
module VelocityTight {
  import opened Common
  import opened Velocity
  import opened VelocityRuns

  function Zeros(m: nat): (s: seq<int>)
    ensures |s| == m
  {
    if m == 0 then [] else Zeros(m - 1) + [0]
  }

  lemma {:induction false} ZerosKept(m: nat, cutoff: int, width: int)
    requires cutoff < 0 < width
    ensures After(Zeros(m), cutoff) == Zeros(m) && CountIn(Zeros(m), 0, width) == m
  {
    if m > 0 {
      ZerosKept(m - 1, cutoff, width);
      assert Zeros(m)[..m - 1] == Zeros(m - 1);
      AfterConcat(Zeros(m - 1), [0], cutoff);
      assert After([0], cutoff) == [0] by {
        assert [0][..0] == [];
      }
    }
  }

  lemma {:induction false} SizeWithin(s: set<nat>, lo: nat, hi: nat)
    requires lo <= hi && forall i :: i in s ==> lo <= i < hi
    ensures |s| <= hi - lo
    decreases hi
  {
    if lo == hi {
      assert s == {};
    } else {
      SizeWithin(s - {hi - 1}, lo, hi - 1);
      SubsetSize(s, (s - {hi - 1}) + {hi - 1});
    }
  }

  /** The moves are possible, never have more than c checks past the rule, and end with total actions at time 0. */
  ghost predicate Reaches(rules: seq<Rule>, w: World, moves: seq<Move>, c: nat, total: nat) {
    Legal(rules, w, moves) && AtMostPast(rules, w, moves, 0, c) && Final(rules, w, moves).key.log == Zeros(total)
  }

  lemma Lead(rules: seq<Rule>, w: World, a: Action, rest: seq<Move>, c: nat, total: nat) returns (moves: seq<Move>)
    requires Enabled(rules, w.key, a) && |PastRule(w.key, 0)| <= c
    requires Reaches(rules, Moved(rules, w, Act(a)), rest, c, total)
    ensures Reaches(rules, w, moves, c, total)
  {
    moves := [Act(a)] + rest;
    assert moves[1..] == rest;
  }

  /** m actions at time 0, and exactly the checks lo to hi - 1 past the one rule. */
  ghost predicate Standing(w: World, m: nat, lo: nat, hi: nat) {
    && w.now == 0 && w.key.list == Zeros(m) && w.key.log == Zeros(m) && lo <= hi
    && (forall id :: id in w.key.checks <==> lo <= id < hi)
    && (forall id :: id in w.key.checks ==> w.key.checks[id] == Evaluating(1))
  }

  lemma PastWithin(k: Key, lo: nat, hi: nat)
    requires lo <= hi && forall id :: id in k.checks && Past(k.checks[id], 0) ==> lo <= id < hi
    ensures |PastRule(k, 0)| <= hi - lo
  {
    SizeWithin(PastRule(k, 0), lo, hi);
  }

  /** The rule passes while fewer than n actions are recorded, and drops none of them. */
  lemma RulePasses(rule: Rule, m: nat)
    requires rule.RateOverWindow? && WellFormed(rule) && m < rule.n
    ensures Judge(rule, Zeros(m), 0).Pass? && ListAfter(rule, Zeros(m), 0) == Zeros(m)
  {
    ZerosKept(m, 0 - rule.window, rule.window);
  }

  /** One more check passes the rule. */
  lemma Admit(rules: seq<Rule>, w: World, m: nat, lo: nat, hi: nat) returns (w1: World, w2: World)
    requires |rules| == 1 && rules[0].RateOverWindow? && WellFormed(rules[0]) && m < rules[0].n
    requires Standing(w, m, lo, hi)
    ensures Enabled(rules, w.key, Begin(hi)) && w1 == Moved(rules, w, Act(Begin(hi)))
    ensures Enabled(rules, w1.key, Eval(hi)) && w2 == Moved(rules, w1, Act(Eval(hi)))
    ensures |PastRule(w.key, 0)| <= hi - lo && |PastRule(w1.key, 0)| <= hi - lo && Standing(w2, m, lo, hi + 1)
  {
    w1 := World(0, w.key.(checks := w.key.checks[hi := Evaluating(0)]));
    PastWithin(w.key, lo, hi);
    PastWithin(w1.key, lo, hi);
    w2 := PassRule(rules, w1, m, hi);
    assert w2.key.checks == w.key.checks[hi := Evaluating(1)];
  }

  lemma PassRule(rules: seq<Rule>, w: World, m: nat, id: nat) returns (w': World)
    requires |rules| == 1 && rules[0].RateOverWindow? && WellFormed(rules[0]) && m < rules[0].n
    requires w.now == 0 && w.key.list == Zeros(m) && id in w.key.checks && w.key.checks[id] == Evaluating(0)
    ensures w' == Moved(rules, w, Act(Eval(id)))
    ensures w'.now == 0 && w'.key == w.key.(dropped := w'.key.dropped, checks := w.key.checks[id := Evaluating(1)])
  {
    RulePasses(rules[0], m);
    w' := Moved(rules, w, Act(Eval(id)));
  }

  /** The first of the standing checks records. */
  lemma Settle(rules: seq<Rule>, w: World, m: nat, lo: nat, hi: nat) returns (w1: World, w2: World)
    requires |rules| == 1 && Standing(w, m, lo, hi) && lo < hi
    ensures Enabled(rules, w.key, Stamp(lo)) && w1 == Moved(rules, w, Act(Stamp(lo)))
    ensures Enabled(rules, w1.key, Append(lo)) && w2 == Moved(rules, w1, Act(Append(lo)))
    ensures |PastRule(w.key, 0)| <= hi - lo && |PastRule(w1.key, 0)| <= hi - lo && Standing(w2, m + 1, lo + 1, hi)
  {
    w1 := Moved(rules, w, Act(Stamp(lo)));
    w2 := Moved(rules, w1, Act(Append(lo)));
    PastWithin(w.key, lo, hi);
    PastWithin(w1.key, lo, hi);
  }

  lemma {:induction false} RecordAll(rules: seq<Rule>, w: World, m: nat, lo: nat, hi: nat, c: nat)
    returns (moves: seq<Move>)
    requires |rules| == 1 && Standing(w, m, lo, hi) && hi - lo <= c
    ensures Reaches(rules, w, moves, c, m + hi - lo)
    decreases hi - lo
  {
    if lo == hi {
      PastWithin(w.key, lo, hi);
      moves := [];
    } else {
      var w1, w2 := Settle(rules, w, m, lo, hi);
      moves := RecordAll(rules, w2, m + 1, lo + 1, hi, c);
      moves := Lead(rules, w1, Append(lo), moves, c, m + hi - lo);
      moves := Lead(rules, w, Stamp(lo), moves, c, m + hi - lo);
    }
  }

  lemma {:induction false} AdmitAll(rules: seq<Rule>, w: World, m: nat, lo: nat, hi: nat, c: nat)
    returns (moves: seq<Move>)
    requires |rules| == 1 && rules[0].RateOverWindow? && WellFormed(rules[0]) && m < rules[0].n
    requires Standing(w, m, lo, hi) && hi - lo <= c
    ensures Reaches(rules, w, moves, c, m + c)
    decreases c - (hi - lo)
  {
    if hi - lo == c {
      moves := RecordAll(rules, w, m, lo, hi, c);
    } else {
      var w1, w2 := Admit(rules, w, m, lo, hi);
      moves := AdmitAll(rules, w2, m, lo, hi + 1, c);
      moves := Lead(rules, w1, Eval(hi), moves, c, m + c);
      moves := Lead(rules, w, Begin(hi), moves, c, m + c);
    }
  }

  /** One check after another up to n - 1 actions, then c of them together. */
  lemma {:induction false} FillThenOverlap(rules: seq<Rule>, w: World, m: nat, id: nat, c: nat)
    returns (moves: seq<Move>)
    requires |rules| == 1 && rules[0].RateOverWindow? && WellFormed(rules[0]) && m < rules[0].n && c > 0
    requires Standing(w, m, id, id)
    ensures Reaches(rules, w, moves, c, rules[0].n - 1 + c)
    decreases rules[0].n - m
  {
    if m == rules[0].n - 1 {
      moves := AdmitAll(rules, w, m, id, id, c);
    } else {
      var total := rules[0].n - 1 + c;
      var w1, w2 := Admit(rules, w, m, id, id);
      var w3, w4 := Settle(rules, w2, m, id, id + 1);
      moves := FillThenOverlap(rules, w4, m + 1, id + 1, c);
      moves := Lead(rules, w3, Append(id), moves, c, total);
      moves := Lead(rules, w2, Stamp(id), moves, c, total);
      moves := Lead(rules, w1, Eval(id), moves, c, total);
      moves := Lead(rules, w, Begin(id), moves, c, total);
    }
  }

  /** For every rule and every degree of overlap, some run has exactly n + c - 1 actions within one window. */
  lemma RateBoundIsTight(n: int, window: int, c: nat)
    requires n > 0 && window > 0 && c > 0
    ensures var rules, w := [RateOverWindow(n, window)], World(0, EMPTY);
            exists moves :: Legal(rules, w, moves) && AtMostPast(rules, w, moves, 0, c)
                         && CountIn(Final(rules, w, moves).key.log, 0, window) == n + c - 1
  {
    var rules, w := [RateOverWindow(n, window)], World(0, EMPTY);
    var moves := FillThenOverlap(rules, w, 0, 0, c);
    ZerosKept(n - 1 + c, -1, window);
  }
}
