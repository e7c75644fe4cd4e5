/**
  The rate limiter while the table's TTL sweeper removes counters.

  The stored ttl is never advanced on a rollover (dynamo/m2m.go:151), so a sweep may remove a
  window that is still open.  This module says exactly when callers can notice.
 */
module Sweeps {
  import opened Wrappers
  import opened RateLimiter
  import opened Admission
  import opened Table

  /** A call's update, or the sweeper passing at some whole second. */
  datatype Event = Update(step: Step) | Sweep(at: int)

  /** A removed window: where it ended, and the reading of the next call to complete. */
  datatype Loss = Loss(end: int, reading: int)

  /** `gone` is the end of the window removed last, until a call completes; `losses` is the record. */
  datatype Swept = Swept(limiter: Limiter, gone: Option<int>, losses: seq<Loss>)

  const NOTHING_SWEPT: Swept := Swept(Fresh(None), None, [])

  function Next(s: Swept, d: nat, event: Event): Swept {
    match event
    case Sweep(at) =>
      if !TtlPast(s.limiter.item, at) then s
      else Swept(s.limiter.(item := None), s.limiter.item.value.windowEnd, s.losses)
    case Update(step) =>
      var t := RateLimiter.Next(s.limiter, d, step);
      if s.gone.Some? && |t.ops| > |s.limiter.ops|
      then Swept(t, None, s.losses + [Loss(s.gone.value, t.ops[|t.ops| - 1].now)])
      else s.(limiter := t)
  }

  function Run(d: nat, events: seq<Event>): Swept {
    if events == [] then NOTHING_SWEPT
    else Next(Run(d, events[..|events| - 1]), d, events[|events| - 1])
  }

  /** The same updates without the sweeper. */
  function Updates(events: seq<Event>): seq<Step> {
    if events == [] then []
    else
      var last := events[|events| - 1];
      Updates(events[..|events| - 1]) + if last.Update? then [last.step] else []
  }

  function Plain(d: nat, events: seq<Event>): Limiter {
    RateLimiter.Run(Fresh(None), d, Updates(events))
  }

  /** Each removed window had ended for the next call to complete. */
  ghost predicate Harmless(losses: seq<Loss>) {
    forall i :: 0 <= i < |losses| ==> losses[i].end <= losses[i].reading
  }

  // ---------------------------------------------------------------------------------------
  // Exactly the harmless sweeps go unnoticed
  // ---------------------------------------------------------------------------------------

  /** The swept item is the unswept one with another ttl, or was removed and not yet missed. */
  ghost predicate Alike(s: Swept, plain: Option<Rate>) {
    match s.limiter.item
    case Some(r) => plain.Some? && r.count == plain.value.count && r.windowEnd == plain.value.windowEnd && s.gone.None?
    case None => if plain.None? then s.gone.None? else s.gone.Some? && s.gone == plain.value.windowEnd
  }

  ghost predicate Unnoticed(s: Swept, plain: Limiter) {
    Alike(s, plain.item) && s.limiter.calls == plain.calls && s.limiter.ops == plain.ops
  }

  /** A call counted 1 for a caller whose unswept call waits for its second update, or counted more. */
  ghost predicate Noticed(s: Swept, plain: Limiter) {
    exists pid :: NoticedBy(s, plain, pid)
  }

  ghost predicate NoticedBy(s: Swept, plain: Limiter, pid: nat) {
    && pid in s.limiter.calls && s.limiter.calls[pid].Counted? && s.limiter.calls[pid].count == 1
    && pid in plain.calls && (plain.calls[pid].Counted? ==> plain.calls[pid].count >= 2)
  }

  /** What the unswept run always has: complete items, and open windows for those who wait. */
  ghost predicate Sound(plain: Limiter) {
    && (plain.item.Some? ==>
          plain.item.value.windowEnd.Some? && plain.item.value.count.Some? && plain.item.value.count.value >= 1)
    && (forall pid :: pid in plain.calls && plain.calls[pid].Missed? ==> !Startable(plain.item, plain.calls[pid].now))
  }

  lemma PlainIsSound(d: nat, steps: seq<Step>)
    ensures Sound(RateLimiter.Run(Fresh(None), d, steps))
  {
    Linearizable(None, d, steps);
    var s := RateLimiter.Run(Fresh(None), d, steps);
    if s.ops != [] {
      StoredCount(d, s.ops);
    }
  }

  /** A sweep is not noticed when it happens. */
  lemma SweepUnnoticed(s: Swept, d: nat, plain: Limiter, at: int)
    requires Unnoticed(s, plain) && Sound(plain)
    ensures Unnoticed(Next(s, d, Sweep(at)), plain)
    ensures Next(s, d, Sweep(at)).losses == s.losses
  {
  }

  /** An update goes on unnoticed exactly when it does not turn the last removal into a harmful one. */
  lemma UpdateNotices(s: Swept, d: nat, plain: Limiter, step: Step)
    requires Unnoticed(s, plain) && Sound(plain)
    ensures var t, after := Next(s, d, Update(step)), RateLimiter.Next(plain, d, step);
            if Harmless(t.losses[|s.losses|..]) then Unnoticed(t, after) else Noticed(t, after)
    ensures s.losses <= Next(s, d, Update(step)).losses
  {
    match step
    case Try(pid, now) => TryNotices(s, d, plain, pid, now);
    case Add(pid) => AddNotices(s, d, plain, pid);
  }

  lemma TryNotices(s: Swept, d: nat, plain: Limiter, pid: nat, now: int)
    requires Unnoticed(s, plain) && Sound(plain)
    ensures var t, after := Next(s, d, Update(Try(pid, now))), RateLimiter.Next(plain, d, Try(pid, now));
            if Harmless(t.losses[|s.losses|..]) then Unnoticed(t, after) else Noticed(t, after)
  {
    var t, after := Next(s, d, Update(Try(pid, now))), RateLimiter.Next(plain, d, Try(pid, now));
    if pid !in s.limiter.calls && s.gone.Some? {
      assert t.losses[|s.losses|..] == [Loss(s.gone.value, now)];
      assert Harmless([Loss(s.gone.value, now)]) <==> [Loss(s.gone.value, now)][0].end <= now;
      if s.gone.value > now {
        assert NoticedBy(t, after, pid);
      }
    } else {
      assert t.losses[|s.losses|..] == [];
    }
  }

  lemma AddNotices(s: Swept, d: nat, plain: Limiter, pid: nat)
    requires Unnoticed(s, plain) && Sound(plain)
    ensures var t, after := Next(s, d, Update(Add(pid))), RateLimiter.Next(plain, d, Add(pid));
            if Harmless(t.losses[|s.losses|..]) then Unnoticed(t, after) else Noticed(t, after)
  {
    var t, after := Next(s, d, Update(Add(pid))), RateLimiter.Next(plain, d, Add(pid));
    if pid in s.limiter.calls && s.limiter.calls[pid].Missed? && s.gone.Some? {
      var now := s.limiter.calls[pid].now;
      assert t.losses[|s.losses|..] == [Loss(s.gone.value, now)];
      assert [Loss(s.gone.value, now)][0].end > now;
      assert NoticedBy(t, after, pid);
    } else {
      assert t.losses[|s.losses|..] == [];
    }
  }

  /** Once noticed, always noticed. */
  lemma NoticedStays(s: Swept, d: nat, plain: Limiter, event: Event)
    requires Noticed(s, plain) && Sound(plain)
    ensures Noticed(Next(s, d, event), if event.Update? then RateLimiter.Next(plain, d, event.step) else plain)
  {
    var pid :| NoticedBy(s, plain, pid);
    assert NoticedBy(Next(s, d, event), if event.Update? then RateLimiter.Next(plain, d, event.step) else plain, pid);
  }

  lemma {:induction false} SweptRun(d: nat, events: seq<Event>)
    ensures var s, plain := Run(d, events), Plain(d, events);
            if Harmless(s.losses) then Unnoticed(s, plain) else Noticed(s, plain)
  {
    if events == [] {
    } else {
      var before, last := events[..|events| - 1], events[|events| - 1];
      SweptRun(d, before);
      SweptStep(d, before, last);
    }
  }

  lemma SweptStep(d: nat, before: seq<Event>, last: Event)
    requires var s, plain := Run(d, before), Plain(d, before);
             if Harmless(s.losses) then Unnoticed(s, plain) else Noticed(s, plain)
    ensures var t := Next(Run(d, before), d, last);
            var plain := RateLimiter.Run(Fresh(None), d, Updates(before) + if last.Update? then [last.step] else []);
            if Harmless(t.losses) then Unnoticed(t, plain) else Noticed(t, plain)
  {
    var s, plain := Run(d, before), Plain(d, before);
    PlainIsSound(d, Updates(before));
    if last.Update? {
      assert (Updates(before) + [last.step])[..|Updates(before)|] == Updates(before);
    } else {
      assert Updates(before) + [] == Updates(before);
    }
    LossesGrow(s, d, last);
    if !Harmless(s.losses) {
      NoticedStays(s, d, plain, last);
    } else if last.Update? {
      UpdateNotices(s, d, plain, last.step);
    } else {
      SweepUnnoticed(s, d, plain, last.at);
    }
  }

  lemma LossesGrow(s: Swept, d: nat, event: Event)
    ensures var t := Next(s, d, event);
            s.losses <= t.losses && (Harmless(t.losses) <==> Harmless(s.losses) && Harmless(t.losses[|s.losses|..]))
  {
    var t := Next(s, d, event);
    assert t.losses == s.losses + t.losses[|s.losses|..];
    if Harmless(t.losses) {
      forall i | 0 <= i < |s.losses| ensures s.losses[i].end <= s.losses[i].reading {
        assert t.losses[i] == s.losses[i];
      }
    }
  }

  /**
    For every run, with any callers, interleaving, readings and sweeps that the stored ttl
    allows: every caller stands where it stands without the sweeper, with the same count, if and
    only if each removed window had ended for the reading of the next call to complete.
   */
  lemma SweepHarmlessIff(d: nat, events: seq<Event>)
    ensures Run(d, events).limiter.calls == Plain(d, events).calls <==> Harmless(Run(d, events).losses)
  {
    SweptRun(d, events);
    var s, plain := Run(d, events), Plain(d, events);
    if !Harmless(s.losses) {
      var pid :| NoticedBy(s, plain, pid);
      assert s.limiter.calls[pid] != plain.calls[pid];
    }
  }

  // ---------------------------------------------------------------------------------------
  // The bounds
  // ---------------------------------------------------------------------------------------

  /**
    The bound on any d consecutive seconds holds too in runs with harmless sweeps, when calls
    complete in the order of their readings.
   */
  lemma SweptTwoWindows(d: nat, events: seq<Event>, limit: int, lo: int)
    requires d > 0 && Harmless(Run(d, events).losses) && Ordered(Run(d, events).limiter.ops)
    ensures AdmittedIn(Run(d, events).limiter.ops, limit, lo, lo + d) <= 2 * Cap(limit)
  {
    SweptRun(d, events);
    Linearizable(None, d, Updates(events));
    TwoWindows(d, Run(d, events).limiter.ops, limit, lo);
  }

  // ---------------------------------------------------------------------------------------
  // Any sweeps
  // ---------------------------------------------------------------------------------------

  /** How many removed windows were still open for the next call to complete. */
  function Harms(losses: seq<Loss>): nat {
    if losses == [] then 0
    else
      var last := losses[|losses| - 1];
      Harms(losses[..|losses| - 1]) + if last.end > last.reading then 1 else 0
  }

  lemma {:induction false} HarmlessHasNoHarms(losses: seq<Loss>)
    ensures Harmless(losses) <==> Harms(losses) == 0
  {
    if losses == [] {
    } else {
      var before := losses[..|losses| - 1];
      HarmlessHasNoHarms(before);
      assert forall i :: 0 <= i < |before| ==> before[i] == losses[i];
    }
  }

  lemma {:induction false} SweptReadings(d: nat, events: seq<Event>, lo: int, hi: int)
    requires forall i :: 0 <= i < |events| && events[i].Update? && events[i].step.Try? ==> lo <= events[i].step.now < hi
    ensures ReadingsIn(Run(d, events).limiter.calls, lo, hi)
  {
    if events == [] {
    } else {
      var before, last := events[..|events| - 1], events[|events| - 1];
      assert forall i :: 0 <= i < |before| ==> before[i] == events[i];
      SweptReadings(d, before, lo, hi);
      assert last.Update? && last.step.Try? ==> lo <= last.step.now < hi;
    }
  }

  /** The last window ends at `low` or later, and what was admitted so far fits the budget. */
  ghost predicate Metered(s: Swept, d: nat, limit: int, lo: int, t: nat, low: int, budget: int) {
    var admitted := AdmittedCount(s.limiter.ops, limit);
    match s.limiter.item
    case None =>
      if s.gone.None? then admitted == 0 && low <= lo && budget >= 0
      else low <= s.gone.value < lo + t + d && admitted <= budget
    case Some(r) =>
      && s.gone.None? && r.windowEnd.Some? && r.count.Some? && r.count.value >= 1
      && low <= r.windowEnd.value < lo + t + d
      && admitted <= budget && admitted + Cap(limit) <= budget + Cap(r.count.value)
  }

  /** The n-th window in a row since the last harm, of which there were h before. */
  function Low(lo: int, d: nat, n: nat): int {
    lo + d * n
  }

  function Budget(limit: int, c: nat, h: nat, n: nat): nat {
    Cap(limit) * (h * c + n)
  }

  /** The next window in the row, or the first after a harm, which pays for the row before it. */
  lemma RowGrows(lo: int, d: nat, limit: int, c: nat, h: nat, n: nat, harm: bool) returns (m: nat)
    requires n <= c
    ensures Low(lo, d, m) <= (if harm then lo else Low(lo, d, n)) + d
    ensures Budget(limit, c, if harm then h + 1 else h, m) >= Budget(limit, c, h, n) + Cap(limit)
  {
    if harm {
      m := 1;
      RowPaid(limit, c, h, n);
      NextInRow(lo, d, limit, c, h + 1, 0);
    } else {
      m := n + 1;
      NextInRow(lo, d, limit, c, h, n);
    }
  }

  lemma NextInRow(lo: int, d: nat, limit: int, c: nat, h: nat, n: nat)
    ensures Low(lo, d, n + 1) == Low(lo, d, n) + d && Budget(limit, c, h, n + 1) == Budget(limit, c, h, n) + Cap(limit)
  {
    MulStep(d, n);
    MulStep(Cap(limit), h * c + n);
  }

  lemma RowPaid(limit: int, c: nat, h: nat, n: nat)
    requires n <= c
    ensures Budget(limit, c, h, n) <= Budget(limit, c, h + 1, 0)
  {
    MulStep(c, h);
    MulMonotone(Cap(limit), h * c + n, (h + 1) * c);
  }

  lemma AdmittedAfter(ops: seq<Op>, op: Op, limit: int)
    ensures AdmittedCount(ops + [op], limit) == AdmittedCount(ops, limit) + if op.count <= limit then 1 else 0
  {
    assert (ops + [op])[..|ops|] == ops;
  }

  lemma HarmsAfter(losses: seq<Loss>, loss: Loss)
    ensures Harms(losses + [loss]) == Harms(losses) + if loss.end > loss.reading then 1 else 0
  {
    assert (losses + [loss])[..|losses|] == losses;
  }

  /** A call that starts a window, or finds nothing to add to. */
  lemma WindowMetered(s: Swept, d: nat, limit: int, lo: int, t: nat, low: int, budget: int, pid: nat, now: int,
      item: Rate, rolled: bool, losses: seq<Loss>, low': int, budget': int)
    requires Metered(s, d, limit, lo, t, low, budget) && lo <= now < lo + t
    requires item.count == Some(1) && item.windowEnd == Some(now + d)
    requires s.limiter.item.Some? ==> s.limiter.item.value.windowEnd.value <= now
    requires low' <= (if s.gone.Some? && s.gone.value > now then lo else low) + d
    requires budget' >= budget + Cap(limit) && budget >= 0
    ensures Metered(Swept(Completed(s.limiter, pid, now, item, rolled), None, losses), d, limit, lo, t, low', budget')
  {
    AdmittedAfter(s.limiter.ops, Op(pid, now, 1, rolled), limit);
  }

  /** A call that counts on in a window. */
  lemma CountMetered(s: Swept, d: nat, limit: int, lo: int, t: nat, low: int, budget: int, pid: nat, now: int)
    requires Metered(s, d, limit, lo, t, low, budget) && s.limiter.item.Some?
    ensures var item := Added(s.limiter.item, now + d);
            Metered(s.(limiter := Completed(s.limiter, pid, now, item, false)), d, limit, lo, t, low, budget)
  {
    var item := Added(s.limiter.item, now + d);
    AdmittedAfter(s.limiter.ops, Op(pid, now, item.count.value, false), limit);
  }

  ghost predicate RowMetered(s: Swept, d: nat, limit: int, lo: int, t: nat, n: nat)
    requires d > 0
  {
    Metered(s, d, limit, lo, t, Low(lo, d, n), Budget(limit, CeilDiv(t, d), Harms(s.losses), n))
    && (s.limiter.item.None? && s.gone.None? ==> n == 0)
  }

  /** No more than ceil(t / d) windows fit in a row. */
  lemma RowFits(s: Swept, d: nat, limit: int, lo: int, t: nat, n: nat)
    requires d > 0 && t > 0 && RowMetered(s, d, limit, lo, t, n)
    ensures n <= CeilDiv(t, d)
  {
    if s.limiter.item.Some? || s.gone.Some? {
      QuotientBound(n, t, d);
    }
  }

  /** The bound for h harmful removals. */
  function HarmedBound(limit: int, t: nat, d: nat, h: nat): nat
    requires d > 0
  {
    Cap(limit) * ((h + 1) * CeilDiv(t, d))
  }

  lemma UnharmedBound(limit: int, t: nat, d: nat)
    requires d > 0
    ensures HarmedBound(limit, t, d, 0) == Cap(limit) * CeilDiv(t, d)
  {
  }

  lemma RowBound(s: Swept, d: nat, limit: int, lo: int, t: nat, n: nat)
    requires d > 0 && t > 0 && RowMetered(s, d, limit, lo, t, n)
    ensures AdmittedCount(s.limiter.ops, limit) <= HarmedBound(limit, t, d, Harms(s.losses))
  {
    RowFits(s, d, limit, lo, t, n);
    RowPaid(limit, CeilDiv(t, d), Harms(s.losses), n);
    MeteredWithin(s, d, limit, lo, t, Low(lo, d, n), Budget(limit, CeilDiv(t, d), Harms(s.losses), n));
  }

  lemma MeteredWithin(s: Swept, d: nat, limit: int, lo: int, t: nat, low: int, budget: int)
    requires Metered(s, d, limit, lo, t, low, budget)
    ensures AdmittedCount(s.limiter.ops, limit) <= budget
  {
  }

  lemma CompletionMetered(s: Swept, d: nat, limit: int, lo: int, t: nat, n: nat, pid: nat, now: int, item: Rate,
      rolled: bool, event: Event) returns (m: nat)
    requires d > 0 && t > 0 && lo <= now < lo + t && RowMetered(s, d, limit, lo, t, n)
    requires item.count == Some(1) && item.windowEnd == Some(now + d)
    requires s.limiter.item.Some? ==> s.limiter.item.value.windowEnd.value <= now
    requires event.Update? && RateLimiter.Next(s.limiter, d, event.step) == Completed(s.limiter, pid, now, item, rolled)
    ensures RowMetered(Next(s, d, event), d, limit, lo, t, m)
  {
    var c, h, losses := CeilDiv(t, d), Harms(s.losses), Next(s, d, event).losses;
    var harm := s.gone.Some? && s.gone.value > now;
    RowFits(s, d, limit, lo, t, n);
    m := RowGrows(lo, d, limit, c, h, n, harm);
    LossCounts(s, d, event, now);
    WindowMetered(s, d, limit, lo, t, Low(lo, d, n), Budget(limit, c, h, n), pid, now, item, rolled, losses,
                  Low(lo, d, m), Budget(limit, c, Harms(losses), m));
  }

  lemma LossCounts(s: Swept, d: nat, event: Event, now: int)
    requires event.Update?
    requires var t := RateLimiter.Next(s.limiter, d, event.step);
             |t.ops| == |s.limiter.ops| + 1 && t.ops[|s.limiter.ops|].now == now
    ensures var t := Next(s, d, event);
            && t.limiter == RateLimiter.Next(s.limiter, d, event.step) && t.gone.None?
            && Harms(t.losses) == Harms(s.losses) + if s.gone.Some? && s.gone.value > now then 1 else 0
  {
    if s.gone.Some? {
      HarmsAfter(s.losses, Loss(s.gone.value, now));
    }
  }

  lemma EventMetered(s: Swept, d: nat, limit: int, lo: int, t: nat, n: nat, event: Event) returns (m: nat)
    requires d > 0 && t > 0 && ReadingsIn(s.limiter.calls, lo, lo + t) && RowMetered(s, d, limit, lo, t, n)
    requires event.Update? && event.step.Try? ==> lo <= event.step.now < lo + t
    ensures RowMetered(Next(s, d, event), d, limit, lo, t, m)
  {
    m := n;
    match event
    case Sweep(_) =>
    case Update(Try(pid, now)) =>
      if pid !in s.limiter.calls && Startable(s.limiter.item, now) {
        m := CompletionMetered(s, d, limit, lo, t, n, pid, now, Started(s.limiter.item, now + d), true, event);
      }
    case Update(Add(pid)) =>
      if pid in s.limiter.calls && s.limiter.calls[pid].Missed? {
        var now := s.limiter.calls[pid].now;
        if s.limiter.item.None? {
          m := CompletionMetered(s, d, limit, lo, t, n, pid, now, Added(None, now + d), false, event);
        } else {
          CountMetered(s, d, limit, lo, t, Low(lo, d, n), Budget(limit, CeilDiv(t, d), Harms(s.losses), n), pid, now);
        }
      }
  }

  lemma {:induction false} RunMetered(d: nat, events: seq<Event>, limit: int, lo: int, t: nat) returns (n: nat)
    requires d > 0 && t > 0
    requires forall i :: 0 <= i < |events| && events[i].Update? && events[i].step.Try? ==>
                           lo <= events[i].step.now < lo + t
    ensures RowMetered(Run(d, events), d, limit, lo, t, n)
  {
    if events == [] {
      n := 0;
    } else {
      var before, last := events[..|events| - 1], events[|events| - 1];
      assert forall i :: 0 <= i < |before| ==> before[i] == events[i];
      n := RunMetered(d, before, limit, lo, t);
      SweptReadings(d, before, lo, lo + t);
      assert last.Update? && last.step.Try? ==> lo <= last.step.now < lo + t;
      n := EventMetered(Run(d, before), d, limit, lo, t, n, last);
    }
  }

  /**
    What the code guarantees whatever the sweeper does: if every reading lies in some interval of
    t >= 1 seconds, each harmful removal costs at most one more full bound.
   */
  lemma AnySweepsBound(d: nat, events: seq<Event>, limit: int, lo: int, t: nat)
    requires d > 0 && t > 0
    requires forall i :: 0 <= i < |events| && events[i].Update? && events[i].step.Try? ==>
                           lo <= events[i].step.now < lo + t
    ensures AdmittedCount(Run(d, events).limiter.ops, limit) <= HarmedBound(limit, t, d, Harms(Run(d, events).losses))
  {
    var n := RunMetered(d, events, limit, lo, t);
    RowBound(Run(d, events), d, limit, lo, t, n);
  }

  /** The admission bound holds in every run whose sweeps are harmless. */
  lemma SweptAdmissionBound(d: nat, events: seq<Event>, limit: int, lo: int, t: nat)
    requires d > 0 && t > 0 && Harmless(Run(d, events).losses)
    requires forall i :: 0 <= i < |events| && events[i].Update? && events[i].step.Try? ==>
                           lo <= events[i].step.now < lo + t
    ensures AdmittedCount(Run(d, events).limiter.ops, limit) <= Cap(limit) * CeilDiv(t, d)
  {
    HarmlessHasNoHarms(Run(d, events).losses);
    AnySweepsBound(d, events, limit, lo, t);
    UnharmedBound(limit, t, d);
  }

  // ---------------------------------------------------------------------------------------
  // A harmful sweep
  // ---------------------------------------------------------------------------------------

  /**
    Nine updates of six calls and one sweep, on one clock: the sweep in second 122 removes a
    window that is open until 181, whose ttl of 121 is past.
   */
  const HARMFUL: seq<Event> := [
    Update(Try(0, 61)), Update(Try(1, 120)), Update(Add(1)), Update(Try(2, 121)), Update(Try(3, 121)), Update(Add(3)),
    Sweep(122), Update(Try(4, 122)), Update(Try(5, 122)), Update(Add(5))]

  lemma RunPrefix(d: nat, events: seq<Event>, k: nat)
    requires k < |events|
    ensures Run(d, events[..k + 1]) == Next(Run(d, events[..k]), d, events[k])
  {
    assert events[..k + 1][..k] == events[..k];
  }

  lemma AdmittedSnoc(ops: seq<Op>, op: Op, limit: int, lo: int, hi: int)
    ensures AdmittedIn(ops + [op], limit, lo, hi) ==
            AdmittedIn(ops, limit, lo, hi) + if op.count <= limit && lo <= op.now < hi then 1 else 0
  {
    assert (ops + [op])[..|ops|] == ops;
  }

  /** A call that starts a window. */
  lemma Starts(s: Swept, d: nat, p: nat, now: int)
    requires p !in s.limiter.calls && Startable(s.limiter.item, now)
    ensures Next(s, d, Update(Try(p, now))) ==
            Swept(Limiter(Some(Started(s.limiter.item, now + d)), s.limiter.calls[p := Counted(now, 1)],
                          s.limiter.ops + [Op(p, now, 1, true)]),
                  None, s.losses + if s.gone.Some? then [Loss(s.gone.value, now)] else [])
  {
  }

  /** The second call of an open window. */
  lemma Joins(s: Swept, d: nat, q: nat, now: int)
    requires q !in s.limiter.calls && !Startable(s.limiter.item, now) && s.gone.None?
    requires s.limiter.item.value.count == Some(1)
    ensures Next(Next(s, d, Update(Try(q, now))), d, Update(Add(q))) ==
            s.(limiter := Limiter(Some(s.limiter.item.value.(count := Some(2))), s.limiter.calls[q := Counted(now, 2)],
                                  s.limiter.ops + [Op(q, now, 2, false)]))
  {
    var waiting := Next(s, d, Update(Try(q, now)));
    assert waiting.limiter == s.limiter.(calls := s.limiter.calls[q := Missed(now)]);
    assert s.limiter.calls[q := Missed(now)][q := Counted(now, 2)] == s.limiter.calls[q := Counted(now, 2)];
  }

  /** Two calls of one window: one starts it, the other counts 2. */
  lemma FillsWindow(d: nat, events: seq<Event>, k: nat, p: nat, q: nat, start: int, now: int)
    requires k + 3 <= |events| && p != q && start <= now < start + d
    requires events[k] == Update(Try(p, start))
    requires events[k + 1] == Update(Try(q, now)) && events[k + 2] == Update(Add(q))
    requires var s := Run(d, events[..k]);
             p !in s.limiter.calls && q !in s.limiter.calls && Startable(s.limiter.item, start)
    ensures var s, t := Run(d, events[..k]), Run(d, events[..k + 3]);
            && t.limiter.ops == s.limiter.ops + [Op(p, start, 1, true), Op(q, now, 2, false)]
            && t.limiter.calls.Keys == s.limiter.calls.Keys + {p, q}
            && t.limiter.item == Some(Started(s.limiter.item, start + d).(count := Some(2)))
            && t.gone.None? && t.losses == s.losses + if s.gone.Some? then [Loss(s.gone.value, start)] else []
  {
    ThreeEvents(d, events, k);
    var s := Run(d, events[..k]);
    Starts(s, d, p, start);
    Joins(Next(s, d, events[k]), d, q, now);
  }

  lemma ThreeEvents(d: nat, events: seq<Event>, k: nat)
    requires k + 3 <= |events|
    ensures Run(d, events[..k + 3]) ==
            Next(Next(Next(Run(d, events[..k]), d, events[k]), d, events[k + 1]), d, events[k + 2])
  {
    RunPrefix(d, events, k);
    RunPrefix(d, events, k + 1);
    RunPrefix(d, events, k + 2);
  }

  /** The run up to the sweep, and what the sweep finds. */
  lemma BeforeHarmfulSweep(events: seq<Event>)
    requires events == HARMFUL
    ensures var s := Run(60, events[..6]);
            && s.limiter.ops == [Op(0, 61, 1, true), Op(1, 120, 2, false), Op(2, 121, 1, true), Op(3, 121, 2, false)]
            && s.limiter.item == Some(Rate(Some(2), Some(181), Some(121)))
            && s.limiter.calls.Keys == {0, 1, 2, 3} && s.losses == []
  {
    assert events[..0] == [];
    FillsWindow(60, events, 0, 0, 1, 61, 120);
    FillsWindow(60, events, 3, 2, 3, 121, 121);
  }

  lemma AtHarmfulSweep(events: seq<Event>)
    requires events == HARMFUL
    ensures var s, t := Run(60, events[..6]), Run(60, events[..7]);
            && t.limiter.ops == s.limiter.ops && t.limiter.calls.Keys == {0, 1, 2, 3} && t.limiter.item.None?
            && t.gone == Some(181) && t.losses == []
  {
    BeforeHarmfulSweep(events);
    RunPrefix(60, events, 6);
  }

  lemma AfterHarmfulSweep(events: seq<Event>)
    requires events == HARMFUL
    ensures var s, t := Run(60, events[..6]), Run(60, events);
            && t.limiter.ops == s.limiter.ops + [Op(4, 122, 1, true), Op(5, 122, 2, false)]
            && t.losses == [Loss(181, 122)]
  {
    AtHarmfulSweep(events);
    FillsWindow(60, events, 7, 4, 5, 122, 122);
    assert events[..10] == events;
  }

  lemma FiveAdmitted(a: Op, b: Op, c: Op, d: Op, e: Op, f: Op)
    requires a.now == 61 && b.now == 120 && c.now == d.now == 121 && e.now == f.now == 122
    requires forall op :: op in {a, b, c, d, e, f} ==> op.count <= 2
    ensures Ordered([a, b, c, d] + [e, f]) && AdmittedIn([a, b, c, d] + [e, f], 2, 63, 63 + 60) == 5
  {
    AdmittedSnoc([], a, 2, 63, 123);
    AdmittedSnoc([a], b, 2, 63, 123);
    AdmittedSnoc([a, b], c, 2, 63, 123);
    AdmittedSnoc([a, b, c], d, 2, 63, 123);
    AdmittedSnoc([a, b, c, d], e, 2, 63, 123);
    AdmittedSnoc([a, b, c, d, e], f, 2, 63, 123);
    assert [] + [a] == [a] && [a] + [b] == [a, b] && [a, b] + [c] == [a, b, c] && [a, b, c] + [d] == [a, b, c, d];
    assert [a, b, c, d] + [e] == [a, b, c, d, e] && [a, b, c, d, e] + [f] == [a, b, c, d] + [e, f];
  }

  /**
    The sweep is one that the table may make, its window is open, calls complete in the order of
    their readings, and five are admitted within the 60 seconds from 63 on, at limit 2.
   */
  lemma SweepBreaksTwoWindows(events: seq<Event>)
    requires events == HARMFUL
    ensures events[6] == Sweep(122) && TtlPast(Run(60, events[..6]).limiter.item, 122)
    ensures var s := Run(60, events);
            && s.losses == [Loss(181, 122)]
            && Ordered(s.limiter.ops) && AdmittedIn(s.limiter.ops, 2, 63, 63 + 60) == 5
  {
    BeforeHarmfulSweep(events);
    AfterHarmfulSweep(events);
    FiveAdmitted(Op(0, 61, 1, true), Op(1, 120, 2, false), Op(2, 121, 1, true), Op(3, 121, 2, false),
                 Op(4, 122, 1, true), Op(5, 122, 2, false));
  }

  // ---------------------------------------------------------------------------------------
  // On the table
  // ---------------------------------------------------------------------------------------

  /** The table call behind an event of client id's counter: none or one. */
  function SweptCalls(s: Swept, event: Event, id: string): seq<Call> {
    match event
    case Sweep(at) => [Expire(RateKey(id), at)]
    case Update(Try(pid, now)) => if pid in s.limiter.calls then [] else [StartWindow(id, now)]
    case Update(Add(pid)) =>
      if pid in s.limiter.calls && s.limiter.calls[pid].Missed? then [AddWindow(id, s.limiter.calls[pid].now)] else []
  }

  /** With the window of the code, each event changes the counter as its table call does. */
  lemma SweptOnTable(s: Swept, event: Event, items: Items, id: string)
    requires RateAt(items, id) == s.limiter.item
    ensures RateAt(ApplyAll(items, SweptCalls(s, event, id)), id) == Next(s, WINDOW_SECONDS, event).limiter.item
  {
    var calls := SweptCalls(s, event, id);
    OwnCalls(items, calls, id);
    if calls != [] {
      assert calls == [calls[0]];
      assert FoldRate(s.limiter.item, id, calls) == RateStep(s.limiter.item, id, calls[0]);
    }
  }
}
