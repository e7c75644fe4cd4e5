/**
  The credential machine runs on the one string-keyed table: whatever calls anybody makes on
  other keys in between, the table holds exactly the machine's record and counter.
 */
module CredentialTable {
  import opened Validation
  import opened Records
  import opened Table
  import C = Credentials
  import E = Exchanges
  import F = Lifecycle
  import L = RateLimiter

  /** The code's window, with whatever limit the store was given. */
  function Config(limit: int): C.Config {
    C.Config(L.WINDOW_SECONDS, limit)
  }

  /** The table writes of one step of the machine of client `id`: none or one. */
  function CredentialCalls(s: C.State, step: C.Step, id: string): seq<Call> {
    match step
    case SweepCounter(at) => [Expire(RateKey(id), at)]
    case PutRecord(pid, fault) =>
      if pid in s.procs && s.procs[pid].Creating? && !fault.Lost?
      then [WriteClient(id, Put(Record([s.procs[pid].hash], s.procs[pid].audiences, true)))] else []
    case RotateSwap(pid, fault) =>
      if pid in s.procs && s.procs[pid].Swapping? && !fault.Lost?
      then [WriteClient(id, Swap(s.procs[pid].base, NextRounds(s.procs[pid].hash, s.procs[pid].base)))] else []
    case Revoke(pid, fault) =>
      if pid !in s.procs && !fault.Lost? then [WriteClient(id, Deactivate)] else []
    case Patch(pid, audiences, fault) =>
      if pid !in s.procs && !fault.Lost? && ValidAudiences(audiences) then [WriteClient(id, Replace(audiences))] else []
    case ExchangeTry(pid, now, fault) =>
      if pid in s.procs && s.procs[pid].Bumping? && pid !in s.limiter.calls && !fault.Lost?
      then [StartWindow(id, now)] else []
    case ExchangeAdd(pid, fault) =>
      if pid !in s.procs || !s.procs[pid].Adding? || fault.Lost? then []
      else if pid !in s.limiter.calls || !s.limiter.calls[pid].Missed? then []
      else [AddWindow(id, s.limiter.calls[pid].now)]
    case _ => []
  }

  /** Each step changes the record and the counter as its table write does. */
  lemma CredentialStep(limit: int, s: C.State, step: C.Step, id: string)
    ensures C.Next(Config(limit), s, step).current == FoldClient(s.current, id, CredentialCalls(s, step, id))
    ensures C.Next(Config(limit), s, step).limiter.item == FoldRate(s.limiter.item, id, CredentialCalls(s, step, id))
  {
    var calls := CredentialCalls(s, step, id);
    if calls == [] {
      QuietStep(limit, s, step, id);
    } else {
      var call := calls[0];
      assert calls == [call];
      assert FoldClient(s.current, id, calls) == ClientStep(s.current, id, call);
      assert FoldRate(s.limiter.item, id, calls) == RateStep(s.limiter.item, id, call);
      CallStep(limit, s, step, id, call);
    }
  }

  lemma QuietStep(limit: int, s: C.State, step: C.Step, id: string)
    requires CredentialCalls(s, step, id) == []
    ensures C.Next(Config(limit), s, step).current == s.current
    ensures C.Next(Config(limit), s, step).limiter.item == s.limiter.item
  {
    if !C.Writing(step) && !step.ExchangeTry? && !step.ExchangeAdd? && !step.ExchangeFinish? {
      F.OthersKeepExchanges(Config(limit), s, step);
      if C.Next(Config(limit), s, step) != s {
        C.OthersMove(Config(limit), s, step);
      }
    } else if C.Writing(step) {
      QuietWrite(limit, s, step, id);
    } else {
      QuietExchange(limit, s, step, id);
    }
  }

  lemma QuietWrite(limit: int, s: C.State, step: C.Step, id: string)
    requires C.Writing(step) && CredentialCalls(s, step, id) == []
    ensures C.Next(Config(limit), s, step).current == s.current
    ensures C.Next(Config(limit), s, step).limiter.item == s.limiter.item
  {
  }

  lemma QuietExchange(limit: int, s: C.State, step: C.Step, id: string)
    requires (step.ExchangeTry? || step.ExchangeAdd? || step.ExchangeFinish?) && CredentialCalls(s, step, id) == []
    ensures C.Next(Config(limit), s, step).current == s.current
    ensures C.Next(Config(limit), s, step).limiter.item == s.limiter.item
  {
  }

  lemma CallStep(limit: int, s: C.State, step: C.Step, id: string, call: Call)
    requires CredentialCalls(s, step, id) == [call]
    ensures C.Next(Config(limit), s, step).current == ClientStep(s.current, id, call)
    ensures C.Next(Config(limit), s, step).limiter.item == RateStep(s.limiter.item, id, call)
  {
    KeysApart(id, id);
  }

  /** A step of client id's machine, sweeps of its counter included, or anybody's call on another key. */
  datatype Event = Own(step: C.Step) | Foreign(call: Call)

  ghost predicate ElsewhereOnly(events: seq<Event>, id: string) {
    forall i :: 0 <= i < |events| && events[i].Foreign? ==>
                  KeyOf(events[i].call) != ClientKey(id) && KeyOf(events[i].call) != RateKey(id)
  }

  /** The machine after the events. */
  function After(limit: int, s: C.State, events: seq<Event>): C.State {
    if events == [] then s
    else
      var before := After(limit, s, events[..|events| - 1]);
      match events[|events| - 1]
      case Own(step) => C.Next(Config(limit), before, step)
      case Foreign(_) => before
  }

  /** The table calls the events make. */
  function Calls(limit: int, s: C.State, id: string, events: seq<Event>): seq<Call> {
    if events == [] then []
    else
      var before := events[..|events| - 1];
      Calls(limit, s, id, before) +
      match events[|events| - 1]
      case Own(step) => CredentialCalls(After(limit, s, before), step, id)
      case Foreign(call) => [call]
  }

  /** Every version of the table shows this client some version of the machine's record. */
  ghost predicate ShowsVersions(h: History, s: C.State, id: string) {
    forall i :: 0 <= i < |h| ==> ShowsVersion(h[i], s, id)
  }

  ghost predicate ShowsVersion(items: Items, s: C.State, id: string) {
    exists k :: 0 <= k <= |s.past| && ClientAt(items, id) == C.Version(s, k)
  }

  /** The table holds the machine's record and counter, and reads of it see the machine's versions. */
  ghost predicate Tracks(h: History, s: C.State, id: string) {
    && ClientAt(Now(h), id) == s.current
    && RateAt(Now(h), id) == s.limiter.item
    && ShowsVersions(h, s, id)
  }

  lemma NextAppends(limit: int, s: C.State, step: C.Step)
    ensures E.Appends(s, C.Next(Config(limit), s, step))
  {
    if step.ExchangeTry? || step.ExchangeAdd? || step.ExchangeFinish? {
      if C.Next(Config(limit), s, step) != s {
        C.ExchangeMoves(Config(limit), s, step);
      }
    } else {
      E.ProvisioningAppends(Config(limit), s, step);
    }
  }

  lemma VersionsStayShown(h: History, s: C.State, t: C.State, id: string)
    requires ShowsVersions(h, s, id) && E.Appends(s, t)
    ensures ShowsVersions(h, t, id)
  {
    forall i | 0 <= i < |h| ensures ShowsVersion(h[i], t, id) {
      assert ShowsVersion(h[i], s, id);
      var k :| 0 <= k <= |s.past| && ClientAt(h[i], id) == C.Version(s, k);
      E.VersionStays(s, t, k);
    }
  }

  lemma NewestShown(h: History, g: History, s: C.State, id: string)
    requires h <= g && |g| <= |h| + 1 && ShowsVersions(h, s, id) && ClientAt(Now(g), id) == s.current
    ensures ShowsVersions(g, s, id)
  {
    forall i | 0 <= i < |g| ensures ShowsVersion(g[i], s, id) {
      if i < |h| {
        assert ShowsVersion(h[i], s, id);
      } else {
        assert ClientAt(g[i], id) == C.Version(s, |s.past|);
      }
    }
  }

  /** A step of the machine and its table write keep the table in step. */
  lemma StepTracks(limit: int, h: History, s: C.State, step: C.Step, id: string)
    requires Tracks(h, s, id)
    ensures Tracks(Played(h, CredentialCalls(s, step, id)), C.Next(Config(limit), s, step), id)
  {
    var calls, t := CredentialCalls(s, step, id), C.Next(Config(limit), s, step);
    PlayedApplies(h, calls);
    OwnCalls(Now(h), calls, id);
    CredentialStep(limit, s, step, id);
    NextAppends(limit, s, step);
    VersionsStayShown(h, s, t, id);
    if calls != [] {
      PlayedOne(h, calls[0]);
    }
    NewestShown(h, Played(h, calls), t, id);
  }

  lemma ForeignTracks(h: History, s: C.State, call: Call, id: string)
    requires Tracks(h, s, id) && KeyOf(call) != ClientKey(id) && KeyOf(call) != RateKey(id)
    ensures Tracks(Written(h, call), s, id)
  {
    ApplyFrame(Now(h), call, ClientKey(id));
    ApplyFrame(Now(h), call, RateKey(id));
    NewestShown(h, Written(h, call), s, id);
  }

  lemma CallsSnoc(limit: int, s: C.State, id: string, events: seq<Event>, h: History)
    requires events != []
    ensures var before := events[..|events| - 1];
            var mid := Played(h, Calls(limit, s, id, before));
            Played(h, Calls(limit, s, id, events)) ==
            match events[|events| - 1]
            case Own(step) => Played(mid, CredentialCalls(After(limit, s, before), step, id))
            case Foreign(call) => Written(mid, call)
  {
    var before := events[..|events| - 1];
    var calls, mid := Calls(limit, s, id, before), Played(h, Calls(limit, s, id, before));
    match events[|events| - 1]
    case Own(step) =>
      var own := CredentialCalls(After(limit, s, before), step, id);
      if own == [] {
        assert calls + own == calls;
      } else {
        assert own == [own[0]];
        PlayedSnoc(h, calls, own[0]);
        PlayedOne(mid, own[0]);
      }
    case Foreign(call) =>
      PlayedSnoc(h, calls, call);
  }

  /**
    In every run the table holds exactly the machine's record and counter for this client, and
    every read of it, however stale, sees one of the machine's versions; so everything proved
    about the machine holds on the table, next to any other traffic.
   */
  lemma {:induction false} CredentialsOnTable(limit: int, h: History, s: C.State, id: string, events: seq<Event>)
    requires Tracks(h, s, id) && ElsewhereOnly(events, id)
    ensures Tracks(Played(h, Calls(limit, s, id, events)), After(limit, s, events), id)
  {
    if events == [] {
    } else {
      var before, last := events[..|events| - 1], events[|events| - 1];
      assert ElsewhereOnly(before, id);
      CredentialsOnTable(limit, h, s, id, before);
      CallsSnoc(limit, s, id, events, h);
      var mid := Played(h, Calls(limit, s, id, before));
      match last
      case Own(step) => StepTracks(limit, mid, After(limit, s, before), step, id);
      case Foreign(call) => ForeignTracks(mid, After(limit, s, before), call, id);
    }
  }

  /** The machine's own run behind the events. */
  function OwnSteps(events: seq<Event>): seq<C.Step> {
    if events == [] then []
    else
      OwnSteps(events[..|events| - 1]) +
      match events[|events| - 1]
      case Own(step) => [step]
      case Foreign(_) => []
  }

  lemma {:induction false} AfterIsRun(limit: int, s: C.State, events: seq<Event>)
    ensures After(limit, s, events) == C.Run(Config(limit), s, OwnSteps(events))
  {
    if events == [] {
    } else {
      var before := events[..|events| - 1];
      AfterIsRun(limit, s, before);
      match events[|events| - 1]
      case Own(step) => C.RunSnoc(Config(limit), s, OwnSteps(before), step);
      case Foreign(_) => assert OwnSteps(before) + [] == OwnSteps(before);
    }
  }
}
