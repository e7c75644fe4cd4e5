/**
  The fixed-window counter of one RATE# item (dynamo/m2m.go, BumpWindow).

  A call is two table updates, each atomic, with other calls free to run in between: a
  conditional start-or-rollover, and, when its condition fails, an unconditional ADD.  Every
  call carries the clock reading it took before its first update.
 */
module RateLimiter {
  import opened Wrappers

  const WINDOW_LIMIT: int := 30
  const WINDOW_SECONDS: nat := 60

  /** The counter's attributes; each may be missing from a stored item. */
  datatype Rate = Rate(count: Option<int>, windowEnd: Option<int>, ttl: Option<int>)

  /** attribute_not_exists(PK) OR attribute_not_exists(windowEnd) OR windowEnd <= :now */
  predicate Startable(item: Option<Rate>, now: int) {
    item.None? || item.value.windowEnd.None? || item.value.windowEnd.value <= now
  }

  /** SET windowCount = 1, windowEnd = end, ttl = if_not_exists(ttl, end) */
  function Started(item: Option<Rate>, end: int): Rate {
    Rate(Some(1), Some(end), Some(if item.Some? then item.value.ttl.GetOr(end) else end))
  }

  /** ADD windowCount 1 SET windowEnd = if_not_exists(windowEnd, end) */
  function Added(item: Option<Rate>, end: int): Rate {
    match item
    case None => Rate(Some(1), Some(end), None)
    case Some(r) => Rate(Some(r.count.GetOr(0) + 1), Some(r.windowEnd.GetOr(end)), r.ttl)
  }

  /** The table's sweeper may remove an item whose stored ttl lies strictly before the given second. */
  predicate TtlPast(item: Option<Rate>, at: int) {
    item.Some? && item.value.ttl.Some? && item.value.ttl.value < at
  }

  /** The intended operation, in one indivisible step: reset an ended window, else count. */
  function Bumped(item: Option<Rate>, now: int, d: nat): (r: Rate)
    ensures r.count.Some? && r.windowEnd.Some?
    ensures r.windowEnd.value > now || d == 0
  {
    if Startable(item, now) then Started(item, now + d)
    else item.value.(count := Some(item.value.count.GetOr(0) + 1))
  }

  // ---------------------------------------------------------------------------------------
  // Any number of concurrent calls
  // ---------------------------------------------------------------------------------------

  datatype Bump = Missed(now: int) | Counted(now: int, count: int)

  /** A completed call, in the order of the updates that completed it. */
  datatype Op = Op(pid: nat, now: int, count: int, rolled: bool)

  datatype Limiter = Limiter(item: Option<Rate>, calls: map<nat, Bump>, ops: seq<Op>)

  /** `Try` is a call's first update, `Add` its second; `pid` names the call. */
  datatype Step = Try(pid: nat, now: int) | Add(pid: nat)

  function Fresh(item: Option<Rate>): Limiter {
    Limiter(item, map[], [])
  }

  function Completed(s: Limiter, pid: nat, now: int, item: Rate, rolled: bool): Limiter {
    var count := item.count.GetOr(0);
    Limiter(Some(item), s.calls[pid := Counted(now, count)], s.ops + [Op(pid, now, count, rolled)])
  }

  /** One update.  A step that its call is not ready for changes nothing. */
  function Next(s: Limiter, d: nat, step: Step): Limiter {
    match step
    case Try(pid, now) =>
      if pid in s.calls then s
      else if Startable(s.item, now) then Completed(s, pid, now, Started(s.item, now + d), true)
      else s.(calls := s.calls[pid := Missed(now)])
    case Add(pid) =>
      if pid in s.calls && s.calls[pid].Missed? then
        var now := s.calls[pid].now;
        Completed(s, pid, now, Added(s.item, now + d), false)
      else s
  }

  function Run(s: Limiter, d: nat, steps: seq<Step>): Limiter {
    if steps == [] then s
    else Next(Run(s, d, steps[..|steps| - 1]), d, steps[|steps| - 1])
  }

  // ---------------------------------------------------------------------------------------
  // Linearizability
  // ---------------------------------------------------------------------------------------

  /** The item left by making the completed calls one after another, each indivisibly. */
  function Replay(item: Option<Rate>, d: nat, ops: seq<Op>): Option<Rate> {
    if ops == [] then item
    else Some(Bumped(Replay(item, d, ops[..|ops| - 1]), ops[|ops| - 1].now, d))
  }

  /** Operation i returned what the indivisible call returns at its place in the order. */
  ghost predicate OpMatches(item: Option<Rate>, d: nat, ops: seq<Op>, i: nat)
    requires i < |ops|
  {
    var before := Replay(item, d, ops[..i]);
    ops[i].count == Bumped(before, ops[i].now, d).count.value && ops[i].rolled == Startable(before, ops[i].now)
  }

  ghost predicate Linear(item: Option<Rate>, d: nat, ops: seq<Op>) {
    forall i {:trigger OpMatches(item, d, ops, i)} :: 0 <= i < |ops| ==> OpMatches(item, d, ops, i)
  }

  /** The completed calls and the order are the same calls, with the same readings and results. */
  ghost predicate Agrees(s: Limiter) {
    && (forall i :: 0 <= i < |s.ops| ==>
          s.ops[i].pid in s.calls && s.calls[s.ops[i].pid] == Counted(s.ops[i].now, s.ops[i].count))
    && (forall i, j :: 0 <= i < j < |s.ops| ==> s.ops[i].pid != s.ops[j].pid)
    && (forall pid :: pid in s.calls && s.calls[pid].Counted? ==> exists i :: 0 <= i < |s.ops| && s.ops[i].pid == pid)
  }

  ghost predicate Inv(item: Option<Rate>, d: nat, s: Limiter) {
    && s.item == Replay(item, d, s.ops)
    && Linear(item, d, s.ops)
    && Agrees(s)
    && forall pid :: pid in s.calls && s.calls[pid].Missed? ==> !Startable(s.item, s.calls[pid].now)
  }

  /** windowEnd never decreases, so a window that is live for a reading stays live for it. */
  lemma LiveStaysLive(item: Option<Rate>, now: int, other: int, d: nat)
    requires !Startable(item, now)
    ensures !Startable(Some(Bumped(item, other, d)), now)
  {
  }

  lemma LinearSnoc(item: Option<Rate>, d: nat, ops: seq<Op>, op: Op)
    requires Linear(item, d, ops)
    requires var before := Replay(item, d, ops);
             op.count == Bumped(before, op.now, d).count.value && op.rolled == Startable(before, op.now)
    ensures Linear(item, d, ops + [op])
    ensures Replay(item, d, ops + [op]) == Some(Bumped(Replay(item, d, ops), op.now, d))
  {
    var all := ops + [op];
    assert all[..|ops|] == ops;
    forall i | 0 <= i < |all| ensures OpMatches(item, d, all, i) {
      if i < |ops| {
        assert OpMatches(item, d, ops, i);
        assert all[..i] == ops[..i];
      }
    }
  }

  /** Whatever item a call completes on. */
  lemma CompletedKeepsAgreement(s: Limiter, pid: nat, now: int, item: Rate, rolled: bool)
    requires Agrees(s) && (pid in s.calls ==> s.calls[pid].Missed?)
    ensures Agrees(Completed(s, pid, now, item, rolled))
  {
    var t := Completed(s, pid, now, item, rolled);
    assert t.ops[|s.ops|].pid == pid;
    forall q | q in t.calls && t.calls[q].Counted? ensures exists i :: 0 <= i < |t.ops| && t.ops[i].pid == q {
      if q != pid {
        var i :| 0 <= i < |s.ops| && s.ops[i].pid == q;
        assert t.ops[i].pid == q;
      }
    }
  }

  lemma NextKeepsAgreement(s: Limiter, d: nat, step: Step)
    requires Agrees(s)
    ensures Agrees(Next(s, d, step))
  {
    match step
    case Try(pid, now) =>
      if pid !in s.calls && Startable(s.item, now) {
        CompletedKeepsAgreement(s, pid, now, Started(s.item, now + d), true);
      }
    case Add(pid) =>
      if pid in s.calls && s.calls[pid].Missed? {
        CompletedKeepsAgreement(s, pid, s.calls[pid].now, Added(s.item, s.calls[pid].now + d), false);
      }
  }

  lemma CompletedKeepsInv(item: Option<Rate>, d: nat, s: Limiter, pid: nat, now: int, rolled: bool)
    requires Inv(item, d, s)
    requires pid in s.calls ==> s.calls[pid].Missed?
    requires rolled == Startable(s.item, now)
    ensures Inv(item, d, Completed(s, pid, now, Bumped(s.item, now, d), rolled))
  {
    var t := Completed(s, pid, now, Bumped(s.item, now, d), rolled);
    LinearSnoc(item, d, s.ops, t.ops[|s.ops|]);
    CompletedKeepsAgreement(s, pid, now, Bumped(s.item, now, d), rolled);
    forall q | q in t.calls && t.calls[q].Missed? ensures !Startable(t.item, t.calls[q].now) {
      LiveStaysLive(s.item, s.calls[q].now, now, d);
    }
  }

  /** Each update keeps the invariant; in particular a late ADD has the effect of a whole call. */
  lemma NextKeepsInv(item: Option<Rate>, d: nat, s: Limiter, step: Step)
    requires Inv(item, d, s)
    ensures Inv(item, d, Next(s, d, step))
  {
    match step
    case Try(pid, now) =>
      if pid !in s.calls && Startable(s.item, now) {
        CompletedKeepsInv(item, d, s, pid, now, true);
      }
    case Add(pid) =>
      if pid in s.calls && s.calls[pid].Missed? {
        var now := s.calls[pid].now;
        assert Added(s.item, now + d) == Bumped(s.item, now, d);
        CompletedKeepsInv(item, d, s, pid, now, false);
      }
  }

  /**
    BumpWindow is linearizable.  From any item, for any callers, interleaving and clock
    readings, the stored item and every returned count are those of indivisible calls made in
    the order of the successful updates; every completed call is in that order exactly once.
   */
  lemma {:induction false} Linearizable(item: Option<Rate>, d: nat, steps: seq<Step>)
    ensures Inv(item, d, Run(Fresh(item), d, steps))
  {
    if steps == [] {
    } else {
      Linearizable(item, d, steps[..|steps| - 1]);
      NextKeepsInv(item, d, Run(Fresh(item), d, steps[..|steps| - 1]), steps[|steps| - 1]);
    }
  }

  /** The order only grows, so a call that returned before another began precedes it. */
  lemma {:induction false} RealTimeOrder(s: Limiter, d: nat, steps: seq<Step>)
    ensures s.ops <= Run(s, d, steps).ops
    ensures forall pid :: pid in s.calls && s.calls[pid].Counted? ==>
                            pid in Run(s, d, steps).calls && Run(s, d, steps).calls[pid] == s.calls[pid]
  {
    if steps == [] {
    } else {
      RealTimeOrder(s, d, steps[..|steps| - 1]);
    }
  }

  // ---------------------------------------------------------------------------------------
  // TTL sweeps
  // ---------------------------------------------------------------------------------------

  /** After one rollover the stored ttl lies in the past while the window is still open. */
  lemma TtlOutlived()
    ensures var s := Run(Fresh(None), 60, [Try(0, 0), Try(1, 60)]);
            s.item == Some(Rate(Some(1), Some(120), Some(60))) && !Startable(s.item, 61) && s.item.value.ttl.value < 61
  {
    var steps := [Try(0, 0), Try(1, 60)];
    assert steps[..1] == [Try(0, 0)] && steps[..1][..0] == [];
    assert Run(Fresh(None), 60, steps[..1]) == Next(Run(Fresh(None), 60, []), 60, Try(0, 0));
  }
}
