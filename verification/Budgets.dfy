/** How many tokens and hash comparisons the rate limiter lets through, sweeps of its counter included. */
module Budgets {
  import opened Wrappers
  import opened Records
  import opened Credentials
  import opened Lifecycle
  import opened Exchanges
  import opened Admission
  import opened Sweeps
  import Limits = RateLimiter

  // ---------------------------------------------------------------------------------------
  // The counter behind a run
  // ---------------------------------------------------------------------------------------

  /** What a step of the credential machine does to its counter: at most one event. */
  function CounterEvents(s: State, step: Step): (events: seq<Event>)
    ensures |events| <= 1
  {
    match step
    case SweepCounter(at) => [Sweep(at)]
    case ExchangeTry(pid, now, fault) =>
      if pid in s.procs && s.procs[pid].Bumping? && !fault.Lost? then [Update(Limits.Try(pid, now))] else []
    case ExchangeAdd(pid, fault) =>
      if pid in s.procs && s.procs[pid].Adding? && pid in s.limiter.calls && !fault.Lost?
      then [Update(Limits.Add(pid))] else []
    case _ => []
  }

  function CounterRun(c: Config, steps: seq<Step>): seq<Event> {
    if steps == [] then []
    else
      var before := steps[..|steps| - 1];
      CounterRun(c, before) + CounterEvents(Credentials.Run(c, INIT, before), steps[|steps| - 1])
  }

  /** The windows that the sweeper removed, each with the reading of the next call to complete. */
  function Losses(c: Config, steps: seq<Step>): seq<Loss> {
    Sweeps.Run(c.seconds, CounterRun(c, steps)).losses
  }

  lemma StepCounts(c: Config, s: State, step: Step)
    requires ExInv(c, s)
    ensures var events, t := CounterEvents(s, step), Credentials.Next(c, s, step).limiter;
            t == if events == [] then s.limiter else LimiterAfter(s.limiter, c.seconds, events[0])
  {
    match step
    case SweepCounter(_) =>
    case ExchangeTry(_, _, _) => TryCounts(c, s, step);
    case ExchangeAdd(_, _) => AddCounts(c, s, step);
    case ExchangeFinish(_, _) =>
    case _ => OthersKeepExchanges(c, s, step);
  }

  lemma TryCounts(c: Config, s: State, step: Step)
    requires ExInv(c, s) && step.ExchangeTry?
    ensures var events, t := CounterEvents(s, step), Credentials.Next(c, s, step).limiter;
            t == if events == [] then s.limiter else LimiterAfter(s.limiter, c.seconds, events[0])
  {
    if step.pid in s.procs && s.procs[step.pid].Bumping? {
      RunningIsClean(c, s, step.pid);
      TriedCalls(s.limiter, c.seconds, step.pid, step.now);
      TriedNext(c, s, step);
    }
  }

  lemma AddCounts(c: Config, s: State, step: Step)
    requires step.ExchangeAdd?
    ensures var events, t := CounterEvents(s, step), Credentials.Next(c, s, step).limiter;
            t == if events == [] then s.limiter else LimiterAfter(s.limiter, c.seconds, events[0])
  {
    if step.pid in s.procs && s.procs[step.pid].Adding? && step.pid in s.limiter.calls {
      AddedCalls(s.limiter, c.seconds, step.pid);
      AddedNext(c, s, step);
    }
  }

  /** The counter's side of a swept event. */
  function LimiterAfter(limiter: Limits.Limiter, d: nat, event: Event): Limits.Limiter {
    match event
    case Sweep(at) => if Limits.TtlPast(limiter.item, at) then limiter.(item := None) else limiter
    case Update(step) => Limits.Next(limiter, d, step)
  }

  /** The counter of every run is that of its events, sweeps included. */
  lemma {:induction false} LimiterIsSwept(c: Config, steps: seq<Step>)
    ensures Credentials.Run(c, INIT, steps).limiter == Sweeps.Run(c.seconds, CounterRun(c, steps)).limiter
  {
    if steps == [] {
    } else {
      var before := steps[..|steps| - 1];
      var s := Credentials.Run(c, INIT, before);
      LimiterIsSwept(c, before);
      RunKeepsEx(c, before);
      StepCounts(c, s, steps[|steps| - 1]);
      SweptAppends(c.seconds, CounterRun(c, before), CounterEvents(s, steps[|steps| - 1]));
    }
  }

  lemma SweptAppends(d: nat, events: seq<Event>, more: seq<Event>)
    requires |more| <= 1
    ensures var limiter := Sweeps.Run(d, events).limiter;
            Sweeps.Run(d, events + more).limiter == if more == [] then limiter else LimiterAfter(limiter, d, more[0])
  {
    if more == [] {
      assert events + more == events;
    } else {
      assert (events + more)[..|events|] == events;
    }
  }

  /** Completed exchanges and the counter's order agree, whatever is swept. */
  lemma {:induction false} CounterAgrees(c: Config, steps: seq<Step>)
    ensures Limits.Agrees(Credentials.Run(c, INIT, steps).limiter)
  {
    if steps == [] {
    } else {
      var before, last := steps[..|steps| - 1], steps[|steps| - 1];
      CounterAgrees(c, before);
      RunKeepsEx(c, before);
      var s := Credentials.Run(c, INIT, before);
      StepCounts(c, s, last);
      if CounterEvents(s, last) != [] && CounterEvents(s, last)[0].Update? {
        Limits.NextKeepsAgreement(s.limiter, c.seconds, CounterEvents(s, last)[0].step);
      }
    }
  }

  /** When the sweeps are harmless, the completed calls are those of a run without any. */
  lemma HarmlessCounter(c: Config, steps: seq<Step>)
    requires Harmless(Losses(c, steps))
    ensures var limiter := Credentials.Run(c, INIT, steps).limiter;
            Limits.Linear(None, c.seconds, limiter.ops) && Limits.Agrees(limiter)
  {
    LimiterIsSwept(c, steps);
    CounterAgrees(c, steps);
    SweptRun(c.seconds, CounterRun(c, steps));
    Limits.Linearizable(None, c.seconds, Updates(CounterRun(c, steps)));
  }

  ghost predicate ReadingKept(event: Event, calls: map<nat, Limits.Bump>) {
    event.Update? && event.step.Try? ==> event.step.pid in calls && calls[event.step.pid].now == event.step.now
  }

  lemma UpdateKeepsReadings(limiter: Limits.Limiter, d: nat, event: Event, other: Event)
    requires ReadingKept(event, limiter.calls)
    ensures ReadingKept(event, LimiterAfter(limiter, d, other).calls)
  {
  }

  /** Each reading that an update was made with is the reading its caller stands with. */
  lemma {:induction false} CounterReadings(c: Config, steps: seq<Step>)
    ensures forall i :: 0 <= i < |CounterRun(c, steps)| ==>
                          ReadingKept(CounterRun(c, steps)[i], Credentials.Run(c, INIT, steps).limiter.calls)
  {
    if steps == [] {
    } else {
      var before, last := steps[..|steps| - 1], steps[|steps| - 1];
      var s := Credentials.Run(c, INIT, before);
      CounterReadings(c, before);
      RunKeepsEx(c, before);
      StepCounts(c, s, last);
      var events := CounterEvents(s, last);
      if events != [] {
        FreshReading(c, s, last);
        forall i | 0 <= i < |CounterRun(c, before)|
          ensures ReadingKept(CounterRun(c, before)[i], LimiterAfter(s.limiter, c.seconds, events[0]).calls)
        {
          UpdateKeepsReadings(s.limiter, c.seconds, CounterRun(c, before)[i], events[0]);
        }
      }
    }
  }

  lemma FreshReading(c: Config, s: State, step: Step)
    requires ExInv(c, s) && CounterEvents(s, step) != []
    ensures ReadingKept(CounterEvents(s, step)[0], LimiterAfter(s.limiter, c.seconds, CounterEvents(s, step)[0]).calls)
  {
    if step.ExchangeTry? {
      RunningIsClean(c, s, step.pid);
    }
  }

  // ---------------------------------------------------------------------------------------
  // Budgets
  // ---------------------------------------------------------------------------------------

  lemma {:induction false} SubsetSize(a: set<nat>, b: set<nat>)
    requires a <= b
    ensures |a| <= |b|
  {
    if a == {} {
    } else {
      var x :| x in a;
      SubsetSize(a - {x}, b - {x});
    }
  }

  /** A caller of window w whose count was within the limit is one of those the window admits. */
  lemma AdmittedInWindow(c: Config, s: State, w: nat, p: nat)
    requires Limits.Agrees(s.limiter) && WithinLimit(c, s, p) && p in CountedIn(s.limiter.ops, w)
    ensures p in AdmittedPids(s.limiter.ops, w, c.limit)
  {
    var ops := s.limiter.ops;
    var i :| 0 <= i < |ops| && ops[i].pid == p;
    CountedWithinLimit(ops, w, c.limit, i);
  }

  function IssuedIn(s: State, w: nat): set<nat> {
    set p | p in s.tokens && p in CountedIn(s.limiter.ops, w)
  }

  lemma IssuedAreAdmitted(c: Config, s: State, w: nat)
    requires TokensSound(c, s) && Limits.Agrees(s.limiter)
    ensures IssuedIn(s, w) <= AdmittedPids(s.limiter.ops, w, c.limit)
  {
    forall p | p in IssuedIn(s, w) ensures p in AdmittedPids(s.limiter.ops, w, c.limit) {
      assert WithinLimit(c, s, p);
      AdmittedInWindow(c, s, w, p);
    }
  }

  /** Within one rate window a client gets at most `limit` tokens, in every run whose sweeps are harmless. */
  lemma IssuanceBudget(c: Config, steps: seq<Step>, w: nat)
    requires Harmless(Losses(c, steps))
    ensures |IssuedIn(Credentials.Run(c, INIT, steps), w)| <= Cap(c.limit)
  {
    var s := Credentials.Run(c, INIT, steps);
    RunKeepsEx(c, steps);
    HarmlessCounter(c, steps);
    IssuedAreAdmitted(c, s, w);
    SubsetSize(IssuedIn(s, w), AdmittedPids(s.limiter.ops, w, c.limit));
    WindowAdmits(c.seconds, s.limiter.ops, w, c.limit);
  }

  lemma {:induction false} PairsSize(pairs: set<(nat, nat)>, firsts: set<nat>, cap: nat)
    requires forall x :: x in pairs ==> x.0 in firsts && x.1 < cap
    ensures |pairs| <= cap * |firsts|
    decreases |firsts|
  {
    if firsts == {} {
      assert pairs == {};
    } else {
      var p :| p in firsts;
      var row := set x | x in pairs && x.0 == p;
      PairsSize(pairs - row, firsts - {p}, cap);
      RowSize(row, p, cap);
      assert pairs == (pairs - row) + row;
      MulStep(cap, |firsts - {p}|);
    }
  }

  lemma {:induction false} RowSize(row: set<(nat, nat)>, p: nat, cap: nat)
    requires forall x :: x in row ==> x.0 == p && x.1 < cap
    ensures |row| <= cap
  {
    if row == {} {
    } else {
      assert cap > 0 by {
        var x :| x in row;
      }
      var last := (p, cap - 1);
      RowSize(row - {last}, p, cap - 1);
    }
  }

  function ComparedIn(s: State, w: nat): set<(nat, nat)> {
    set x | x in s.compared && x.0 in CountedIn(s.limiter.ops, w)
  }

  lemma ComparedAreAdmitted(c: Config, s: State, w: nat)
    requires ComparedSound(c, s) && Limits.Agrees(s.limiter)
    ensures forall x :: x in ComparedIn(s, w) ==>
              x.0 in AdmittedPids(s.limiter.ops, w, c.limit) && x.1 < MAX_SECRET_ROUNDS
  {
    forall x | x in ComparedIn(s, w) ensures x.0 in AdmittedPids(s.limiter.ops, w, c.limit) && x.1 < MAX_SECRET_ROUNDS {
      assert WithinLimit(c, s, x.0);
      AdmittedInWindow(c, s, w, x.0);
    }
  }

  /**
    Within one rate window a client causes at most limit * MAX_SECRET_ROUNDS real hash
    comparisons, in every run whose sweeps are harmless.
   */
  lemma WorkBudget(c: Config, steps: seq<Step>, w: nat)
    requires Harmless(Losses(c, steps))
    ensures |ComparedIn(Credentials.Run(c, INIT, steps), w)| <= MAX_SECRET_ROUNDS * Cap(c.limit)
  {
    var s := Credentials.Run(c, INIT, steps);
    RunKeepsEx(c, steps);
    HarmlessCounter(c, steps);
    ComparedAreAdmitted(c, s, w);
    PairsSize(ComparedIn(s, w), AdmittedPids(s.limiter.ops, w, c.limit), MAX_SECRET_ROUNDS);
    WindowAdmits(c.seconds, s.limiter.ops, w, c.limit);
  }

  function AdmittedCallers(ops: seq<Limits.Op>, limit: int): set<nat> {
    set i | 0 <= i < |ops| && ops[i].count <= limit :: ops[i].pid
  }

  lemma {:induction false} AdmittedCallersSize(ops: seq<Limits.Op>, limit: int)
    ensures |AdmittedCallers(ops, limit)| <= AdmittedCount(ops, limit)
  {
    if ops == [] {
    } else {
      var before, op := ops[..|ops| - 1], ops[|ops| - 1];
      AdmittedCallersSize(before, limit);
      var admitted := AdmittedCallers(before, limit) + if op.count <= limit then {op.pid} else {};
      forall p | p in AdmittedCallers(ops, limit) ensures p in admitted {
        var i :| 0 <= i < |ops| && ops[i].count <= limit && ops[i].pid == p;
        if i < |before| {
          assert before[i].pid == p;
        }
      }
      SubsetSize(AdmittedCallers(ops, limit), admitted);
    }
  }

  lemma TokensAreAdmitted(c: Config, s: State)
    requires TokensSound(c, s) && Limits.Agrees(s.limiter)
    ensures s.tokens.Keys <= AdmittedCallers(s.limiter.ops, c.limit)
  {
    var ops := s.limiter.ops;
    forall p | p in s.tokens ensures p in AdmittedCallers(ops, c.limit) {
      assert WithinLimit(c, s, p);
      var i :| 0 <= i < |ops| && ops[i].pid == p;
      assert s.limiter.calls[ops[i].pid] == Limits.Counted(ops[i].now, ops[i].count);
    }
  }

  /**
    Whatever is swept: if all clock readings lie within t >= 1 seconds, at most
    limit * ceil(t / seconds) tokens are minted, and as many more for each harmful removal.
   */
  lemma IssuanceRate(c: Config, steps: seq<Step>, lo: int, t: nat)
    requires c.seconds > 0 && t > 0 && ReadingsIn(Credentials.Run(c, INIT, steps).limiter.calls, lo, lo + t)
    ensures |Credentials.Run(c, INIT, steps).tokens.Keys| <= HarmedBound(c.limit, t, c.seconds, Harms(Losses(c, steps)))
  {
    var s := Credentials.Run(c, INIT, steps);
    RunKeepsEx(c, steps);
    CounterAgrees(c, steps);
    TokensAreAdmitted(c, s);
    SubsetSize(s.tokens.Keys, AdmittedCallers(s.limiter.ops, c.limit));
    AdmittedCallersSize(s.limiter.ops, c.limit);
    CounterReadings(c, steps);
    LimiterIsSwept(c, steps);
    AnySweepsBound(c.seconds, CounterRun(c, steps), c.limit, lo, t);
  }

  lemma MinuteBound(limit: int, t: nat, d: nat, h: nat)
    requires limit == 30 && t == d == 60
    ensures HarmedBound(limit, t, d, h) == 30 * (h + 1)
  {
    assert CeilDiv(t, d) == 1;
  }

  /**
    The budget by default: when all clock readings fall within one minute, at most 30 tokens, and
    30 more for each removal of a live window.
   */
  lemma DefaultMinute(c: Config, steps: seq<Step>, lo: int, t: nat)
    requires c == Config(Limits.WINDOW_SECONDS, Limits.WINDOW_LIMIT) && t == 60
    requires ReadingsIn(Credentials.Run(c, INIT, steps).limiter.calls, lo, lo + t)
    ensures |Credentials.Run(c, INIT, steps).tokens.Keys| <= 30 * (Harms(Losses(c, steps)) + 1)
  {
    IssuanceRate(c, steps, lo, t);
    MinuteBound(c.limit, t, c.seconds, Harms(Losses(c, steps)));
  }

  /** And no less: of n calls counted in one window min(n, 30) are admitted. */
  lemma DefaultWindow(c: Config, ops: seq<Limits.Op>, a: nat, b: nat)
    requires c == Config(Limits.WINDOW_SECONDS, Limits.WINDOW_LIMIT) && Limits.Linear(None, c.seconds, ops)
    requires a < b <= |ops| && ops[a].rolled && forall i :: a < i < b ==> !ops[i].rolled
    ensures AdmittedCount(ops[a..b], c.limit) == if b - a <= 30 then b - a else 30
  {
    DenseCounts(c.seconds, ops, a, b, c.limit);
  }
}
