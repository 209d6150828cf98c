/**
 The velocity engine (velocity/): the in-process store with its in-place trimming, the built-in
 rules, and the engine that evaluates rules and then records.

 The engine does not hold the store's mutex between evaluating its rules and recording, so a check
 is modelled as separate steps: one per rule, one that reads the clock, one that appends.
 */
module Velocity {
  import opened Common

  // ---------------------------------------------------------------------------------------
  // Timestamp lists
  // ---------------------------------------------------------------------------------------

  /** The timestamps strictly after the cutoff, in order. */
  function After(s: seq<int>, cutoff: int): (r: seq<int>)
    ensures |r| <= |s|
  {
    if s == [] then [] else
      After(s[..|s| - 1], cutoff) + if s[|s| - 1] > cutoff then [s[|s| - 1]] else []
  }

  /** The timestamps a trim drops. */
  function UpTo(s: seq<int>, cutoff: int): (r: seq<int>) {
    if s == [] then [] else
      UpTo(s[..|s| - 1], cutoff) + if s[|s| - 1] > cutoff then [] else [s[|s| - 1]]
  }

  /** How many timestamps lie in [from, from + width). */
  function CountIn(s: seq<int>, from: int, width: int): (n: nat) {
    if s == [] then 0 else
      CountIn(s[..|s| - 1], from, width) + if from <= s[|s| - 1] < from + width then 1 else 0
  }

  lemma {:induction false} AfterConcat(a: seq<int>, b: seq<int>, cutoff: int)
    ensures After(a + b, cutoff) == After(a, cutoff) + After(b, cutoff)
  {
    if b == [] {
      assert a + b == a;
    } else {
      assert (a + b)[..|a + b| - 1] == a + b[..|b| - 1];
      AfterConcat(a, b[..|b| - 1], cutoff);
    }
  }

  /** Trimming splits the count above any level between what it keeps and what it drops. */
  lemma {:induction false} TrimSplitsCount(s: seq<int>, cutoff: int, level: int)
    ensures |After(After(s, cutoff), level)| + |After(UpTo(s, cutoff), level)| == |After(s, level)|
  {
    if s != [] {
      var init, last := s[..|s| - 1], [s[|s| - 1]];
      TrimSplitsCount(init, cutoff, level);
      AfterConcat(After(init, cutoff), last, level);
      AfterConcat(UpTo(init, cutoff), last, level);
      AfterConcat(init, last, level);
      assert init + last == s;
      if last[0] > cutoff {
        assert After(s, cutoff) == After(init, cutoff) + last && UpTo(s, cutoff) == UpTo(init, cutoff);
      } else {
        assert After(s, cutoff) == After(init, cutoff) && UpTo(s, cutoff) == UpTo(init, cutoff) + last;
      }
    }
  }

  lemma {:induction false} UpToBounded(s: seq<int>, cutoff: int, t: int)
    requires t in UpTo(s, cutoff)
    ensures t <= cutoff
  {
    if t in UpTo(s[..|s| - 1], cutoff) {
      UpToBounded(s[..|s| - 1], cutoff, t);
    }
  }

  lemma {:induction false} NoneAfter(s: seq<int>, cutoff: int)
    requires forall i :: 0 <= i < |s| ==> s[i] <= cutoff
    ensures After(s, cutoff) == []
  {
    if s != [] {
      NoneAfter(s[..|s| - 1], cutoff);
    }
  }

  lemma {:induction false} CountInAtMostAfter(s: seq<int>, from: int, width: int, cutoff: int)
    requires cutoff < from
    ensures CountIn(s, from, width) <= |After(s, cutoff)|
  {
    if s != [] {
      CountInAtMostAfter(s[..|s| - 1], from, width, cutoff);
    }
  }

  // ---------------------------------------------------------------------------------------
  // The in-process store: slices over backing arrays, compacted in place
  // ---------------------------------------------------------------------------------------

  /** A Go slice starting at the front of its backing array. */
  datatype Slice = Slice(buf: array<int>, len: nat)

  /** The trimming loop: survivors are written over the front of the array being read. */
  method Compact(buf: array<int>, len: nat, cutoff: int) returns (n: nat)
    requires len <= buf.Length
    modifies buf
    ensures n <= len && buf[..n] == After(old(buf[..len]), cutoff)
  {
    ghost var times := buf[..len];
    n := 0;
    for i := 0 to len
      invariant n <= i
      invariant buf[..n] == After(times[..i], cutoff)
      invariant buf[i..len] == times[i..]
    {
      assert times[..i + 1][..i] == times[..i];
      assert buf[i] == buf[i..len][0] == times[i];
      assert buf[i + 1..len] == buf[i..len][1..];
      if buf[i] > cutoff {
        buf[n] := buf[i];
        n := n + 1;
      }
    }
    assert times[..len] == times;
  }

  /** A larger backing array with the same front. */
  method Grow(buf: array<int>) returns (grown: array<int>)
    ensures fresh(grown) && grown.Length > buf.Length && grown[..buf.Length] == buf[..]
  {
    grown := new int[2 * buf.Length + 1];
    for i := 0 to buf.Length
      invariant grown[..i] == buf[..i]
    {
      grown[i] := buf[i];
    }
  }

  /** Go's append: in the same backing array while it has room. */
  method Append(s: Slice, x: int) returns (r: Slice)
    requires s.len <= s.buf.Length
    modifies s.buf
    ensures r.len == s.len + 1 <= r.buf.Length && (r.buf == s.buf || fresh(r.buf))
    ensures r.buf[..r.len] == old(s.buf[..s.len]) + [x]
  {
    var buf := s.buf;
    if s.len == buf.Length {
      buf := Grow(buf);
    }
    buf[s.len] := x;
    assert buf[..s.len] == old(s.buf[..s.len]);
    r := Slice(buf, s.len + 1);
  }

  class MemoryStore {
    var actions: map<string, Slice>

    ghost function Buffers(): set<array<int>>
      reads this
    {
      set k | k in actions :: actions[k].buf
    }

    /** Slices fit their arrays, and no two keys share one. */
    ghost predicate Valid()
      reads this
    {
      && (forall k :: k in actions ==> actions[k].len <= actions[k].buf.Length)
      && (forall k, l :: k in actions && l in actions && k != l ==> actions[k].buf != actions[l].buf)
    }

    ghost function Times(key: string): seq<int>
      requires Valid()
      reads this, Buffers()
    {
      if key in actions then actions[key].buf[..actions[key].len] else []
    }

    constructor ()
      ensures Valid() && actions == map[]
    {
      actions := map[];
    }

    method Record(key: string, at: int)
      requires Valid()
      modifies this, Buffers()
      ensures Valid() && fresh(Buffers() - old(Buffers()))
      ensures Times(key) == old(Times(key)) + [at]
      ensures forall k :: k != key ==> Times(k) == old(Times(k))
    {
      if key !in actions {
        var buf := new int[1];
        buf[0] := at;
        actions := actions[key := Slice(buf, 1)];
      } else {
        var appended := Append(actions[key], at);
        actions := actions[key := appended];
      }
      forall k | k != key && k in actions
        ensures Times(k) == old(Times(k))
      {
        assert k in old(actions) && actions[k] == old(actions)[k];
        assert key in old(actions) ==> actions[k].buf != old(actions)[key].buf;
      }
    }

    /** Keeps what is after the cutoff, in the same backing array. */
    method Trim(key: string, cutoff: int) returns (n: nat)
      requires Valid()
      modifies this, Buffers()
      ensures Valid() && Buffers() == old(Buffers())
      ensures Times(key) == After(old(Times(key)), cutoff) && n == |Times(key)|
      ensures forall k :: k != key ==> Times(k) == old(Times(k))
    {
      if key !in actions {
        return 0;
      }
      var Slice(buf, len) := actions[key];
      n := Compact(buf, len, cutoff);
      actions := actions[key := Slice(buf, n)];
      assert forall k :: k in actions ==> k in old(actions) && actions[k].buf == old(actions)[k].buf;
      assert forall k :: k in old(actions) ==> k in actions;
      forall k | k != key && k in actions
        ensures Times(k) == old(Times(k))
      {
        assert actions[k] == old(actions)[k] && actions[k].buf != buf;
      }
    }

    method Last(key: string) returns (r: Option<int>)
      requires Valid()
      ensures r == LastOf(Times(key))
    {
      if key !in actions || actions[key].len == 0 {
        return None;
      }
      return Some(actions[key].buf[actions[key].len - 1]);
    }
  }

  function LastOf(s: seq<int>): Option<int> {
    if s == [] then None else Some(s[|s| - 1])
  }

  // ---------------------------------------------------------------------------------------
  // Rules
  // ---------------------------------------------------------------------------------------

  datatype Rule =
    | RateOverWindow(n: int, window: int)
    | MinInterval(min: int)

  datatype Verdict = Pass | Flagged | Invalid

  predicate WellFormed(r: Rule) {
    match r
    case RateOverWindow(n, window) => n > 0 && window > 0
    case MinInterval(min) => min > 0
  }

  /** The list a rule leaves behind: counting trims. */
  function ListAfter(r: Rule, list: seq<int>, now: int): seq<int> {
    if r.RateOverWindow? && WellFormed(r) then After(list, now - r.window) else list
  }

  function DroppedBy(r: Rule, list: seq<int>, now: int): seq<int> {
    if r.RateOverWindow? && WellFormed(r) then UpTo(list, now - r.window) else []
  }

  function Judge(r: Rule, list: seq<int>, now: int): Verdict {
    if !WellFormed(r) then Invalid else
    match r
    case RateOverWindow(n, window) => if |After(list, now - window)| >= n then Flagged else Pass
    case MinInterval(min) => if list != [] && now - list[|list| - 1] < min then Flagged else Pass
  }

  // ---------------------------------------------------------------------------------------
  // One serial check
  // ---------------------------------------------------------------------------------------

  datatype Outcome = KeyRequired | Allowed | Denied(rule: nat) | Misconfigured(rule: nat)

  /** Rules i.. evaluated in order, then the record; clock[k] is the k-th reading. */
  function CheckFrom(rules: seq<Rule>, i: nat, list: seq<int>, clock: seq<int>): (r: (seq<int>, Outcome))
    requires i <= |rules| < |clock|
    decreases |rules| - i
  {
    if i == |rules| then (list + [clock[i]], Allowed) else
    var kept := ListAfter(rules[i], list, clock[i]);
    match Judge(rules[i], list, clock[i])
    case Invalid => (kept, Misconfigured(i))
    case Flagged => (kept, Denied(i))
    case Pass => CheckFrom(rules, i + 1, kept, clock)
  }

  class Engine {
    const store: MemoryStore
    var rules: seq<Rule>

    /** With no rules, 20 actions per minute. */
    constructor (store: MemoryStore, rules: seq<Rule>)
      ensures this.store == store
      ensures this.rules == if rules == [] then [RateOverWindow(20, 60 * NANOS_PER_SECOND)] else rules
    {
      this.store := store;
      this.rules := if |rules| == 0 then [RateOverWindow(20, 60 * NANOS_PER_SECOND)] else rules;
    }

    method AddRule(rule: Rule)
      modifies this
      ensures rules == old(rules) + [rule]
    {
      rules := rules + [rule];
    }

    /** One rule's check; counting trims the list. */
    method Evaluate(rule: Rule, key: string, now: int) returns (v: Verdict)
      requires store.Valid()
      modifies store, store.Buffers()
      ensures store.Valid() && store.Buffers() == old(store.Buffers())
      ensures v == Judge(rule, old(store.Times(key)), now)
      ensures v.Invalid? <==> match rule
                              case RateOverWindow(n, window) => n <= 0 || window <= 0
                              case MinInterval(min) => min <= 0
      ensures v.Flagged? <==> match rule
                              case RateOverWindow(n, window) => 0 < n <= |store.Times(key)| && window > 0
                              case MinInterval(min) =>
                                var times := old(store.Times(key));
                                min > 0 && times != [] && now - times[|times| - 1] < min
      ensures store.Times(key) == ListAfter(rule, old(store.Times(key)), now)
      ensures forall k :: k != key ==> store.Times(k) == old(store.Times(k))
    {
      match rule
      case RateOverWindow(n, window) =>
        if n <= 0 || window <= 0 {
          return Invalid;
        }
        var count := store.Trim(key, now - window);
        return if count >= n then Flagged else Pass;
      case MinInterval(min) =>
        if min <= 0 {
          return Invalid;
        }
        var last := store.Last(key);
        return if last.Some? && now - last.value < min then Flagged else Pass;
    }

    method Check(key: string, clock: seq<int>) returns (r: Outcome)
      requires store.Valid() && |rules| < |clock|
      modifies store, store.Buffers()
      ensures store.Valid()
      ensures key == "" ==> r == KeyRequired && store.Times(key) == old(store.Times(key))
      ensures key != "" ==> (store.Times(key), r) == CheckFrom(rules, 0, old(store.Times(key)), clock)
      ensures forall k :: k != key ==> store.Times(k) == old(store.Times(k))
    {
      if key == "" {
        return KeyRequired;
      }
      for i := 0 to |rules|
        invariant store.Valid() && store.Buffers() == old(store.Buffers())
        invariant CheckFrom(rules, i, store.Times(key), clock) == CheckFrom(rules, 0, old(store.Times(key)), clock)
        invariant forall k :: k != key ==> store.Times(k) == old(store.Times(k))
      {
        var v := Evaluate(rules[i], key, clock[i]);
        if v.Invalid? {
          return Misconfigured(i);
        }
        if v.Flagged? {
          return Denied(i);
        }
      }
      store.Record(key, clock[|rules|]);
      return Allowed;
    }
  }
}
