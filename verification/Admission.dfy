/**
  How many calls the fixed window admits.  A call is admitted when its count is within the
  limit (m2m/service.go, Exchange).  All statements are about the linearized calls of an item
  that starts absent and is not swept.
 */
module Admission {
  import opened Wrappers
  import opened RateLimiter

  /** The number of calls one window can admit; a limit below zero admits none. */
  function Cap(limit: int): nat {
    if limit < 0 then 0 else limit
  }

  function AdmittedCount(ops: seq<Op>, limit: int): nat {
    if ops == [] then 0
    else AdmittedCount(ops[..|ops| - 1], limit) + if ops[|ops| - 1].count <= limit then 1 else 0
  }

  /** How many windows have been started. */
  function Rolls(ops: seq<Op>): nat {
    if ops == [] then 0
    else Rolls(ops[..|ops| - 1]) + if ops[|ops| - 1].rolled then 1 else 0
  }

  function CeilDiv(t: nat, d: nat): nat
    requires d > 0
  {
    (t + d - 1) / d
  }

  /** The least number of d seconds that cover t. */
  lemma CeilDivIsLeast(t: nat, d: nat, n: nat)
    requires d > 0
    ensures CeilDiv(t, d) <= n <==> t <= n * d
  {
    var c := CeilDiv(t, d);
    assert t <= c * d < t + d;
    if c <= n {
      assert c * d <= n * d;
    } else {
      assert (n + 1) * d <= c * d;
    }
  }

  // ---------------------------------------------------------------------------------------
  // Dense counts
  // ---------------------------------------------------------------------------------------

  lemma LinearPrefix(item: Option<Rate>, d: nat, ops: seq<Op>, n: nat)
    requires Linear(item, d, ops) && n <= |ops|
    ensures Linear(item, d, ops[..n])
  {
    forall i | 0 <= i < n ensures OpMatches(item, d, ops[..n], i) {
      assert OpMatches(item, d, ops, i);
      assert ops[..n][..i] == ops[..i];
    }
  }

  /** The last completed call, the calls before it, and the item it found and left. */
  lemma LastOp(d: nat, ops: seq<Op>) returns (before: seq<Op>, op: Op)
    requires Linear(None, d, ops) && ops != []
    ensures before == ops[..|ops| - 1] && op == ops[|ops| - 1]
    ensures Linear(None, d, before)
    ensures var item := Replay(None, d, before);
            && op.rolled == Startable(item, op.now)
            && Replay(None, d, ops) == Some(Bumped(item, op.now, d))
            && op.count == Bumped(item, op.now, d).count.value
  {
    before, op := ops[..|ops| - 1], ops[|ops| - 1];
    LinearPrefix(None, d, ops, |ops| - 1);
    assert OpMatches(None, d, ops, |ops| - 1);
  }

  /** After n > 0 calls the stored count is the last one returned, and is at least one. */
  lemma {:induction false} StoredCount(d: nat, ops: seq<Op>)
    requires Linear(None, d, ops) && ops != []
    ensures Replay(None, d, ops).Some?
    ensures var r := Replay(None, d, ops).value;
            r.windowEnd.Some? && r.count == Some(ops[|ops| - 1].count) && r.count.value >= 1
  {
    var before, op := LastOp(d, ops);
    if before == [] {
    } else {
      StoredCount(d, before);
    }
  }

  /** A call returns 1 when it starts a window and one more than the call before it otherwise. */
  lemma {:induction false} CountsStep(d: nat, ops: seq<Op>, i: nat)
    requires Linear(None, d, ops) && i < |ops|
    ensures ops[0].rolled
    ensures ops[i].count == if ops[i].rolled then 1 else if i > 0 then ops[i - 1].count + 1 else 0
  {
    assert OpMatches(None, d, ops, 0);
    assert OpMatches(None, d, ops, i);
    if i > 0 {
      LinearPrefix(None, d, ops, i);
      StoredCount(d, ops[..i]);
    }
  }

  /**
    Within one window the returned counts are exactly 1..n, late ADDs included, so exactly
    min(n, limit) of its n calls are admitted.
   */
  lemma {:induction false} DenseCounts(d: nat, ops: seq<Op>, a: nat, b: nat, limit: int)
    requires Linear(None, d, ops)
    requires a < b <= |ops| && ops[a].rolled && forall i :: a < i < b ==> !ops[i].rolled
    ensures forall i :: a <= i < b ==> ops[i].count == i - a + 1
    ensures AdmittedCount(ops[a..b], limit) == if b - a <= Cap(limit) then b - a else Cap(limit)
    decreases b
  {
    CountsStep(d, ops, b - 1);
    assert ops[a..b][..b - a - 1] == ops[a..b - 1];
    if b - 1 > a {
      DenseCounts(d, ops, a, b - 1, limit);
    } else {
      assert ops[a..b - 1] == [];
    }
  }

  // ---------------------------------------------------------------------------------------
  // Admission bound for readings in an interval
  // ---------------------------------------------------------------------------------------

  lemma MulStep(x: nat, y: int)
    ensures x * (y + 1) == x * y + x
  {
  }

  lemma MulMonotone(x: nat, y: nat, z: nat)
    requires y <= z
    ensures x * y <= x * z
  {
  }

  /** With all readings in [lo, hi], each window start moves windowEnd by at least d. */
  lemma {:induction false} WindowsSpread(d: nat, ops: seq<Op>, limit: int, lo: int, hi: int)
    requires Linear(None, d, ops) && ops != []
    requires forall i :: 0 <= i < |ops| ==> lo <= ops[i].now <= hi
    ensures Rolls(ops) >= 1 && Replay(None, d, ops).Some?
    ensures var end := Replay(None, d, ops).value.windowEnd;
            end.Some? && lo + d * Rolls(ops) <= end.value <= hi + d
    ensures AdmittedCount(ops, limit) + Cap(limit) <= Cap(limit) * Rolls(ops) + Cap(ops[|ops| - 1].count)
    ensures AdmittedCount(ops, limit) <= Cap(limit) * Rolls(ops)
  {
    var before, op := LastOp(d, ops);
    StoredCount(d, ops);
    if before != [] {
      WindowsSpread(d, before, limit, lo, hi);
      StoredCount(d, before);
      MulStep(d, Rolls(before));
      MulStep(Cap(limit), Rolls(before));
    } else {
      assert Rolls(ops) == 1;
    }
  }

  lemma QuotientBound(k: nat, t: nat, d: nat)
    requires d > 0 && d * k <= t + d - 1
    ensures k <= CeilDiv(t, d)
  {
    var q := CeilDiv(t, d);
    assert t + d - 1 == d * q + (t + d - 1) % d;
    MulStep(d, q);
    if k > q {
      MulMonotone(d, q + 1, k);
    }
  }

  /**
    If every reading lies in some interval of t >= 1 seconds, at most limit * ceil(t / d) calls
    are admitted, whatever the interleaving and however disordered the clocks.
   */
  lemma AdmissionBound(d: nat, steps: seq<Step>, limit: int, lo: int, t: nat)
    requires d > 0 && t > 0
    requires forall i :: 0 <= i < |steps| && steps[i].Try? ==> lo <= steps[i].now < lo + t
    ensures AdmittedCount(Run(Fresh(None), d, steps).ops, limit) <= Cap(limit) * CeilDiv(t, d)
  {
    var s := Run(Fresh(None), d, steps);
    Linearizable(None, d, steps);
    ReadingsKept(d, steps, lo, t);
    forall i | 0 <= i < |s.ops| ensures lo <= s.ops[i].now <= lo + t - 1 {
      var pid := s.ops[i].pid;
      assert pid in s.calls && s.calls[pid] == Counted(s.ops[i].now, s.ops[i].count);
    }
    SpreadAdmission(d, s.ops, limit, lo, t);
  }

  lemma SpreadAdmission(d: nat, ops: seq<Op>, limit: int, lo: int, t: nat)
    requires d > 0 && t > 0 && Linear(None, d, ops)
    requires forall i :: 0 <= i < |ops| ==> lo <= ops[i].now <= lo + t - 1
    ensures AdmittedCount(ops, limit) <= Cap(limit) * CeilDiv(t, d)
  {
    if ops == [] {
      MulMonotone(Cap(limit), 0, CeilDiv(t, d));
    } else {
      WindowsSpread(d, ops, limit, lo, lo + t - 1);
      QuotientBound(Rolls(ops), t, d);
      MulMonotone(Cap(limit), Rolls(ops), CeilDiv(t, d));
    }
  }

  ghost predicate ReadingsIn(calls: map<nat, Bump>, lo: int, hi: int) {
    forall pid :: pid in calls ==> lo <= calls[pid].now < hi
  }

  /** A call keeps the reading it began with. */
  lemma {:induction false} ReadingsKept(d: nat, steps: seq<Step>, lo: int, t: nat)
    requires forall i :: 0 <= i < |steps| && steps[i].Try? ==> lo <= steps[i].now < lo + t
    ensures ReadingsIn(Run(Fresh(None), d, steps).calls, lo, lo + t)
  {
    if steps == [] {
    } else {
      var before, last := steps[..|steps| - 1], steps[|steps| - 1];
      forall i | 0 <= i < |before| && before[i].Try? ensures lo <= before[i].now < lo + t {
        assert before[i] == steps[i];
      }
      ReadingsKept(d, before, lo, t);
      assert last.Try? ==> lo <= last.now < lo + t;
    }
  }

  // ---------------------------------------------------------------------------------------
  // Ordered readings
  // ---------------------------------------------------------------------------------------

  ghost predicate Ordered(ops: seq<Op>) {
    forall i, j :: 0 <= i < j < |ops| ==> ops[i].now <= ops[j].now
  }

  function AdmittedIn(ops: seq<Op>, limit: int, lo: int, hi: int): nat {
    if ops == [] then 0
    else
      var op := ops[|ops| - 1];
      AdmittedIn(ops[..|ops| - 1], limit, lo, hi) + if op.count <= limit && lo <= op.now < hi then 1 else 0
  }

  /**
    When calls take effect in the order of their readings, as in a sequential run on one clock,
    any d consecutive seconds touch at most two windows and admit at most 2 * limit calls.
   */
  lemma {:induction false} TwoWindows(d: nat, ops: seq<Op>, limit: int, lo: int)
    requires d > 0 && Linear(None, d, ops) && Ordered(ops)
    ensures AdmittedIn(ops, limit, lo, lo + d) <= 2 * Cap(limit)
  {
    if ops == [] {
    } else {
      TwoWindowsInv(d, ops, limit, lo);
    }
  }

  ghost predicate Phase(admitted: nat, limit: int, lo: int, d: nat, last: Op, end: int) {
    var inWindow := if last.count < Cap(limit) then last.count else Cap(limit);
    || (last.now < lo && admitted == 0)
    || (lo <= last.now < lo + d && admitted <= inWindow)
    || (lo <= last.now < lo + d && admitted <= Cap(limit) + inWindow && end >= lo + d)
    || (last.now >= lo + d && admitted <= 2 * Cap(limit))
  }

  lemma {:induction false} TwoWindowsInv(d: nat, ops: seq<Op>, limit: int, lo: int)
    requires d > 0 && Linear(None, d, ops) && Ordered(ops) && ops != []
    ensures Replay(None, d, ops).Some? && Replay(None, d, ops).value.windowEnd.Some?
    ensures Phase(AdmittedIn(ops, limit, lo, lo + d), limit, lo, d, ops[|ops| - 1],
                  Replay(None, d, ops).value.windowEnd.value)
  {
    var before, op := LastOp(d, ops);
    StoredCount(d, ops);
    if before == [] {
    } else {
      StoredCount(d, before);
      TwoWindowsInv(d, before, limit, lo);
      assert before[|before| - 1] == ops[|ops| - 2];
    }
  }

  // ---------------------------------------------------------------------------------------
  // No lockout
  // ---------------------------------------------------------------------------------------

  /** windowEnd never exceeds the largest reading so far plus d; a stored ttl never exceeds windowEnd. */
  lemma {:induction false} WindowEndBounded(d: nat, ops: seq<Op>, m: int)
    requires Linear(None, d, ops) && ops != []
    requires forall i :: 0 <= i < |ops| ==> ops[i].now <= m
    ensures Replay(None, d, ops).Some?
    ensures var r := Replay(None, d, ops).value;
            r.windowEnd.Some? && r.windowEnd.value <= m + d && r.ttl.Some? && r.ttl.value <= r.windowEnd.value
  {
    var before, op := LastOp(d, ops);
    if before == [] {
    } else {
      WindowEndBounded(d, before, m);
    }
  }

  /**
    From every reachable state, a new call whose reading is at least d after every reading
    counted so far completes in its first update with count 1.
   */
  lemma NoLockout(d: nat, steps: seq<Step>, m: int, pid: nat, now: int)
    requires var s := Run(Fresh(None), d, steps);
             pid !in s.calls && forall i :: 0 <= i < |s.ops| ==> s.ops[i].now <= m
    requires now >= m + d
    ensures var s := Run(Fresh(None), d, steps);
            Next(s, d, Try(pid, now)).calls[pid] == Counted(now, 1)
  {
    Linearizable(None, d, steps);
    var s := Run(Fresh(None), d, steps);
    if s.ops != [] {
      WindowEndBounded(d, s.ops, m);
    }
  }

  // ---------------------------------------------------------------------------------------
  // Callers per window
  // ---------------------------------------------------------------------------------------

  /** The calls whose count landed in the w-th window (windows are numbered from 1). */
  function CountedIn(ops: seq<Op>, w: nat): set<nat> {
    if ops == [] then {}
    else CountedIn(ops[..|ops| - 1], w) + if Rolls(ops) == w then {ops[|ops| - 1].pid} else {}
  }

  function AdmittedPids(ops: seq<Op>, w: nat, limit: int): set<nat> {
    if ops == [] then {}
    else
      AdmittedPids(ops[..|ops| - 1], w, limit) +
      if Rolls(ops) == w && ops[|ops| - 1].count <= limit then {ops[|ops| - 1].pid} else {}
  }

  /** At most `limit` calls of one window are admitted. */
  lemma {:induction false} WindowAdmits(d: nat, ops: seq<Op>, w: nat, limit: int)
    requires Linear(None, d, ops)
    ensures Rolls(ops) < w ==> AdmittedPids(ops, w, limit) == {}
    ensures |AdmittedPids(ops, w, limit)| <= Cap(limit)
    ensures ops != [] && Rolls(ops) == w ==> |AdmittedPids(ops, w, limit)| <= Cap(ops[|ops| - 1].count)
  {
    if ops == [] {
    } else {
      var before, op := LastOp(d, ops);
      StoredCount(d, ops);
      WindowAdmits(d, before, w, limit);
      if before != [] {
        StoredCount(d, before);
      }
    }
  }

  /** A counted call is admitted in its window exactly when its count is within the limit. */
  lemma {:induction false} CountedWithinLimit(ops: seq<Op>, w: nat, limit: int, i: nat)
    requires i < |ops| && forall i, j :: 0 <= i < j < |ops| ==> ops[i].pid != ops[j].pid
    ensures ops[i].pid in AdmittedPids(ops, w, limit) <==> ops[i].pid in CountedIn(ops, w) && ops[i].count <= limit
  {
    var before := ops[..|ops| - 1];
    if i < |before| {
      CountedWithinLimit(before, w, limit, i);
    } else {
      PidsFromOps(before, w, limit, ops[i].pid);
    }
  }

  lemma {:induction false} PidsFromOps(ops: seq<Op>, w: nat, limit: int, pid: nat)
    requires forall i :: 0 <= i < |ops| ==> ops[i].pid != pid
    ensures pid !in CountedIn(ops, w) && pid !in AdmittedPids(ops, w, limit)
  {
    if ops == [] {
    } else {
      PidsFromOps(ops[..|ops| - 1], w, limit, pid);
    }
  }
}
