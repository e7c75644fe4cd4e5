/** What every reachable state of the credential machine guarantees about token exchanges. */
module Exchanges {
  import opened Wrappers
  import opened Faults
  import opened Validation
  import opened Records
  import opened Credentials
  import opened Lifecycle
  import Limits = RateLimiter

  // ---------------------------------------------------------------------------------------
  // Invariant
  // ---------------------------------------------------------------------------------------

  /** An exchange works on one version of the record, active when it was current. */
  ghost predicate Sound(s: State, version: nat, snapshot: Record) {
    version <= |s.past| && Version(s, version) == Some(snapshot) && snapshot.active
  }

  /** The exchange was counted, within the limit. */
  ghost predicate WithinLimit(c: Config, s: State, p: nat) {
    p in s.limiter.calls && s.limiter.calls[p].Counted? && s.limiter.calls[p].count <= c.limit
  }

  ghost predicate ProcSound(c: Config, s: State, p: nat)
    requires p in s.procs
  {
    match s.procs[p]
    case Bumping(version, snapshot, _, _) => p !in s.limiter.calls && Sound(s, version, snapshot)
    case Adding(version, snapshot, _, _) => p in s.limiter.calls && Sound(s, version, snapshot)
    case Admitted(version, snapshot, _, _) => WithinLimit(c, s, p) && Sound(s, version, snapshot)
    case _ => true
  }

  /** A token carries one entry of one version whose rounds verified the secret. */
  ghost predicate TokenSound(s: State, token: Token) {
    && token.version <= |s.past|
    && Version(s, token.version).Some?
    && var record := Version(s, token.version).value;
       && record.active
       && Verifies(record.rounds, token.secret)
       && token.audience in record.audiences
       && record.audiences[token.audience] == token.scopes
  }

  ghost predicate ExInv(c: Config, s: State) {
    && ProcsSound(c, s)
    && TokensSound(c, s)
    && ComparedSound(c, s)
  }

  ghost predicate ProcsSound(c: Config, s: State) {
    && (forall p :: p in s.limiter.calls ==> p in s.procs)
    && (forall p :: p in s.procs ==> ProcSound(c, s, p))
  }

  ghost predicate TokensSound(c: Config, s: State) {
    forall p :: p in s.tokens ==> p in s.procs && s.procs[p].Done? && WithinLimit(c, s, p) && TokenSound(s, s.tokens[p])
  }

  ghost predicate ComparedSound(c: Config, s: State) {
    forall x :: x in s.compared ==>
      x.0 in s.procs && s.procs[x.0].Done? && WithinLimit(c, s, x.0) && x.1 < MAX_SECRET_ROUNDS
  }

  /** No version ever holds more rounds than the cap. */
  lemma RoundsCapped(s: State, k: nat)
    requires VersionsFold(s) && k <= |s.past| && Version(s, k).Some?
    ensures |Version(s, k).value.rounds| <= MAX_SECRET_ROUNDS
  {
    assert s.log[..|s.log|] == s.log;
  }

  lemma VersionStays(s: State, t: State, k: nat)
    requires k <= |s.past|
    requires (t.past == s.past && t.current == s.current) || t.past == s.past + [s.current]
    ensures k <= |t.past| && Version(t, k) == Version(s, k)
  {
  }

  ghost predicate Appends(s: State, t: State) {
    (t.past == s.past && t.current == s.current) || t.past == s.past + [s.current]
  }

  /** Steps outside the limiter and the final check leave exchanges as they are. */
  lemma ProvisioningKeepsEx(c: Config, s: State, t: State, pid: nat)
    requires ExInv(c, s) && KeepsExchanges(s, t, pid) && Appends(s, t)
    requires t.procs != s.procs ==> ProcSound(c, t, pid)
    ensures ExInv(c, t)
  {
    forall p | p in t.procs ensures ProcSound(c, t, p) {
      if p in s.procs && t.procs[p] == s.procs[p] {
        assert ProcSound(c, s, p);
        var proc := s.procs[p];
        if proc.Bumping? || proc.Adding? || proc.Admitted? {
          VersionStays(s, t, proc.version);
        }
      }
    }
    forall p | p in t.tokens
      ensures p in t.procs && t.procs[p].Done? && WithinLimit(c, t, p) && TokenSound(t, t.tokens[p])
    {
      VersionStays(s, t, s.tokens[p].version);
    }
    forall x | x in t.compared
      ensures x.0 in t.procs && t.procs[x.0].Done? && WithinLimit(c, t, x.0) && x.1 < MAX_SECRET_ROUNDS
    {
      assert x in s.compared;
    }
  }

  lemma ProvisioningAppends(c: Config, s: State, step: Step)
    requires !step.ExchangeTry? && !step.ExchangeAdd? && !step.ExchangeFinish?
    ensures Appends(s, Next(c, s, step))
  {
    if step.SweepCounter? {
    } else if !Writing(step) && Next(c, s, step) != s {
      OthersMove(c, s, step);
    }
  }

  /** A new exchange starts on an active version that the record really had. */
  lemma StartsSound(c: Config, s: State, step: Step)
    requires forall p :: p in s.limiter.calls ==> p in s.procs
    requires !step.SweepCounter? && !step.ExchangeTry? && !step.ExchangeAdd? && !step.ExchangeFinish?
    requires Next(c, s, step).procs != s.procs && step.pid in Next(c, s, step).procs
    ensures ProcSound(c, Next(c, s, step), step.pid)
  {
    if Writing(step) {
      WritesEnd(c, s, step);
    } else if step.ExchangeRead? {
      ReadStartsSound(c, s, step.pid, step.version, step.secret, step.audience, step.fault);
    } else {
      RotationsRunNoExchange(c, s, step);
    }
  }

  lemma ReadStartsSound(c: Config, s: State, pid: nat, version: nat, secret: string, audience: string, fault: Fault)
    requires forall p :: p in s.limiter.calls ==> p in s.procs
    requires pid !in s.procs
    ensures ProcSound(c, ExchangeBegun(s, pid, version, secret, audience, fault), pid)
  {
  }

  /** Other operations start without an exchange under way. */
  lemma RotationsRunNoExchange(c: Config, s: State, step: Step)
    requires (step.Reject? || step.BeginCreate? || step.RotateRead? || step.RotateReread?) && Next(c, s, step) != s
    ensures var t := Next(c, s, step);
            && step.pid in t.procs
            && !t.procs[step.pid].Bumping? && !t.procs[step.pid].Adding? && !t.procs[step.pid].Admitted?
  {
    match step
    case BeginCreate(pid, made, audiences) => CreateBegunMoves(s, pid, made, audiences);
    case RotateRead(pid, version, made, fault) => RotationBegunMoves(s, pid, Version(s, version), made, fault);
    case _ => RefusalMoves(c, s, step);
  }

  lemma WritesEnd(c: Config, s: State, step: Step)
    requires Writing(step) && Next(c, s, step) != s
    ensures step.pid in Next(c, s, step).procs
    ensures Next(c, s, step).procs[step.pid].Done? || Next(c, s, step).procs[step.pid].Rereading?
  {
    match step
    case PutRecord(pid, fault) =>
      var p := s.procs[pid];
      AttemptEnds(s, pid, Put(Record([p.hash], p.audiences, true)), Created(pid, p.hash, p.audiences),
                  fault, Secret(p.hash.secret), Done(Refused(ClientExists)));
    case RotateSwap(pid, fault) =>
      var p := s.procs[pid];
      AttemptEnds(s, pid, Swap(p.base, NextRounds(p.hash, p.base)), Rotated(pid, p.hash, p.base),
                  fault, Secret(p.hash.secret), Rereading);
    case Revoke(pid, fault) =>
      AttemptEnds(s, pid, Deactivate, Revoked(pid), fault, Accepted, Done(Refused(ClientNotFound)));
    case Patch(pid, audiences, fault) =>
      AttemptEnds(s, pid, Replace(audiences), Patched(pid, audiences), fault, Accepted, Done(Refused(ClientNotFound)));
  }

  lemma AttemptEnds(s: State, pid: nat, change: Change, w: Write, fault: Fault, won: Outcome, lost: Proc)
    ensures var t := Attempt(s, pid, change, w, fault, won, lost);
            pid in t.procs && (t.procs[pid].Done? || t.procs[pid] == lost)
  {
  }

  /** Only exchange `pid`, which is still running, differs between s and t. */
  ghost predicate OnlyChanges(s: State, t: State, pid: nat) {
    && pid in s.procs && !s.procs[pid].Done?
    && t.past == s.past && t.current == s.current
    && pid in t.procs && t.procs == s.procs[pid := t.procs[pid]]
    && pid in t.limiter.calls && t.limiter.calls == s.limiter.calls[pid := t.limiter.calls[pid]]
    && (forall p :: p in t.tokens && p != pid ==> p in s.tokens && t.tokens[p] == s.tokens[p])
    && (forall x :: x in t.compared && x.0 != pid ==> x in s.compared)
  }

  lemma OnlyChangesKeepsEx(c: Config, s: State, t: State, pid: nat)
    requires ExInv(c, s) && OnlyChanges(s, t, pid)
    requires ProcSound(c, t, pid)
    requires pid in t.tokens ==> t.procs[pid].Done? && WithinLimit(c, t, pid) && TokenSound(t, t.tokens[pid])
    requires forall x :: x in t.compared && x.0 == pid ==>
                           t.procs[pid].Done? && WithinLimit(c, t, pid) && x.1 < MAX_SECRET_ROUNDS
    ensures ExInv(c, t)
  {
    OnlyChangesKeepsProcs(c, s, t, pid);
    OnlyChangesKeepsTokens(c, s, t, pid);
    OnlyChangesKeepsCompared(c, s, t, pid);
  }

  lemma OnlyChangesKeepsProcs(c: Config, s: State, t: State, pid: nat)
    requires ProcsSound(c, s) && OnlyChanges(s, t, pid) && ProcSound(c, t, pid)
    ensures ProcsSound(c, t)
  {
    forall p | p in t.procs ensures ProcSound(c, t, p) {
      if p != pid {
        assert ProcSound(c, s, p);
      }
    }
  }

  lemma OnlyChangesKeepsTokens(c: Config, s: State, t: State, pid: nat)
    requires TokensSound(c, s) && OnlyChanges(s, t, pid)
    requires pid in t.tokens ==> t.procs[pid].Done? && WithinLimit(c, t, pid) && TokenSound(t, t.tokens[pid])
    ensures TokensSound(c, t)
  {
    forall p | p in t.tokens
      ensures p in t.procs && t.procs[p].Done? && WithinLimit(c, t, p) && TokenSound(t, t.tokens[p])
    {
      if p != pid {
        assert p in s.tokens && WithinLimit(c, s, p) && TokenSound(s, s.tokens[p]);
      }
    }
  }

  lemma OnlyChangesKeepsCompared(c: Config, s: State, t: State, pid: nat)
    requires ComparedSound(c, s) && OnlyChanges(s, t, pid)
    requires forall x :: x in t.compared && x.0 == pid ==>
                           t.procs[pid].Done? && WithinLimit(c, t, pid) && x.1 < MAX_SECRET_ROUNDS
    ensures ComparedSound(c, t)
  {
    forall x | x in t.compared
      ensures x.0 in t.procs && t.procs[x.0].Done? && WithinLimit(c, t, x.0) && x.1 < MAX_SECRET_ROUNDS
    {
      if x.0 != pid {
        assert x in s.compared && WithinLimit(c, s, x.0);
      }
    }
  }

  /** One limiter update of an exchange, and what the exchange does with its answer. */
  lemma JudgedKeepsEx(c: Config, s: State, limiter: Limits.Limiter, pid: nat, fault: Fault)
    requires ExInv(c, s) && pid in s.procs && (s.procs[pid].Bumping? || s.procs[pid].Adding?)
    requires pid in limiter.calls && limiter.calls == s.limiter.calls[pid := limiter.calls[pid]]
    ensures ExInv(c, Judged(c, s.(limiter := limiter), pid, fault))
  {
    var t := Judged(c, s.(limiter := limiter), pid, fault);
    RunningIsClean(c, s, pid);
    JudgedChanges(c, s, limiter, pid, fault);
    OnlyChangesKeepsEx(c, s, t, pid);
  }

  /** A running exchange has no token and no comparison yet. */
  lemma RunningIsClean(c: Config, s: State, pid: nat)
    requires ExInv(c, s) && pid in s.procs && !s.procs[pid].Done?
    ensures pid !in s.tokens && forall x :: x in s.compared ==> x.0 != pid
    ensures ProcSound(c, s, pid)
  {
  }

  lemma JudgedChanges(c: Config, s: State, limiter: Limits.Limiter, pid: nat, fault: Fault)
    requires pid in s.procs && (s.procs[pid].Bumping? || s.procs[pid].Adding?) && ProcSound(c, s, pid)
    requires pid in limiter.calls && limiter.calls == s.limiter.calls[pid := limiter.calls[pid]]
    ensures var t := Judged(c, s.(limiter := limiter), pid, fault);
            && OnlyChanges(s, t, pid) && ProcSound(c, t, pid)
            && t.limiter == limiter && t.tokens == s.tokens && t.compared == s.compared
  {
  }

  lemma FinishedKeepsEx(c: Config, s: State, pid: nat, signed: bool)
    requires Inv(s) && ExInv(c, s) && pid in s.procs && s.procs[pid].Admitted?
    ensures ExInv(c, Finished(s, pid, signed))
  {
    RunningIsClean(c, s, pid);
    RoundsCapped(s, s.procs[pid].version);
    FinishedChanges(c, s, pid, signed);
    OnlyChangesKeepsEx(c, s, Finished(s, pid, signed), pid);
  }

  lemma FinishedChanges(c: Config, s: State, pid: nat, signed: bool)
    requires pid in s.procs && s.procs[pid].Admitted? && ProcSound(c, s, pid)
    requires |s.procs[pid].snapshot.rounds| <= MAX_SECRET_ROUNDS
    requires pid !in s.tokens && forall x :: x in s.compared ==> x.0 != pid
    ensures var t := Finished(s, pid, signed);
            && OnlyChanges(s, t, pid) && t.limiter == s.limiter && t.procs[pid].Done?
            && (pid in t.tokens ==> TokenSound(t, t.tokens[pid]))
            && forall x :: x in t.compared && x.0 == pid ==> x.1 < MAX_SECRET_ROUNDS
  {
  }

  lemma NextKeepsEx(c: Config, s: State, step: Step)
    requires Inv(s) && ExInv(c, s)
    ensures ExInv(c, Next(c, s, step))
  {
    if Next(c, s, step) == s {
      return;
    }
    match step
    case SweepCounter(at) =>
      SweepKeepsEx(c, s, at);
    case ExchangeTry(_, now, fault) =>
      TryKeepsEx(c, s, step);
    case ExchangeAdd(_, fault) =>
      AddKeepsEx(c, s, step);
    case ExchangeFinish(pid, signed) =>
      FinishedKeepsEx(c, s, pid, signed);
    case _ =>
      ProvisioningStepKeepsEx(c, s, step);
  }

  /** A sweep of the counter leaves every caller where it stands. */
  lemma SweepKeepsEx(c: Config, s: State, at: int)
    requires ExInv(c, s)
    ensures ExInv(c, CounterSwept(s, at))
  {
    var t := CounterSwept(s, at);
    forall p | p in t.procs ensures ProcSound(c, t, p) {
      assert ProcSound(c, s, p);
    }
    forall p | p in t.tokens
      ensures p in t.procs && t.procs[p].Done? && WithinLimit(c, t, p) && TokenSound(t, t.tokens[p])
    {
      assert WithinLimit(c, s, p) && TokenSound(s, s.tokens[p]);
    }
  }

  lemma ProvisioningStepKeepsEx(c: Config, s: State, step: Step)
    requires ExInv(c, s) && !step.SweepCounter? && !step.ExchangeTry? && !step.ExchangeAdd? && !step.ExchangeFinish?
    ensures ExInv(c, Next(c, s, step))
  {
    var t := Next(c, s, step);
    OthersKeepExchanges(c, s, step);
    ProvisioningAppends(c, s, step);
    if t.procs != s.procs {
      StartsSound(c, s, step);
    }
    ProvisioningKeepsEx(c, s, t, step.pid);
  }

  lemma EndedKeepsEx(c: Config, s: State, pid: nat)
    requires ExInv(c, s) && pid in s.procs && !s.procs[pid].Done?
    ensures ExInv(c, Ended(s, pid, Broken))
  {
    ProvisioningKeepsEx(c, s, Ended(s, pid, Broken), pid);
  }

  /** An update changes the standing of no call but its own. */
  lemma TriedCalls(limiter: Limits.Limiter, d: nat, pid: nat, now: int)
    requires pid !in limiter.calls
    ensures var t := Limits.Next(limiter, d, Limits.Try(pid, now));
            pid in t.calls && t.calls == limiter.calls[pid := t.calls[pid]]
  {
  }

  lemma AddedCalls(limiter: Limits.Limiter, d: nat, pid: nat)
    requires pid in limiter.calls
    ensures var t := Limits.Next(limiter, d, Limits.Add(pid));
            pid in t.calls && t.calls == limiter.calls[pid := t.calls[pid]]
  {
  }

  lemma TriedNext(c: Config, s: State, step: Step)
    requires step.ExchangeTry? && step.pid in s.procs && s.procs[step.pid].Bumping?
    requires step.pid in Limits.Next(s.limiter, c.seconds, Limits.Try(step.pid, step.now)).calls
    ensures var limiter := Limits.Next(s.limiter, c.seconds, Limits.Try(step.pid, step.now));
            Next(c, s, step) == if step.fault.Lost? then Ended(s, step.pid, Broken)
                                else Judged(c, s.(limiter := limiter), step.pid, step.fault)
  {
  }

  lemma AddedNext(c: Config, s: State, step: Step)
    requires step.ExchangeAdd? && step.pid in s.procs && s.procs[step.pid].Adding? && step.pid in s.limiter.calls
    requires step.pid in Limits.Next(s.limiter, c.seconds, Limits.Add(step.pid)).calls
    ensures var limiter := Limits.Next(s.limiter, c.seconds, Limits.Add(step.pid));
            Next(c, s, step) == if step.fault.Lost? then Ended(s, step.pid, Broken)
                                else Judged(c, s.(limiter := limiter), step.pid, step.fault)
  {
  }

  lemma TryKeepsEx(c: Config, s: State, step: Step)
    requires ExInv(c, s) && step.ExchangeTry? && step.pid in s.procs && s.procs[step.pid].Bumping?
    ensures ExInv(c, Next(c, s, step))
  {
    RunningIsClean(c, s, step.pid);
    TriedCalls(s.limiter, c.seconds, step.pid, step.now);
    TriedNext(c, s, step);
    if step.fault.Lost? {
      EndedKeepsEx(c, s, step.pid);
    } else {
      JudgedKeepsEx(c, s, Limits.Next(s.limiter, c.seconds, Limits.Try(step.pid, step.now)), step.pid, step.fault);
    }
  }

  lemma AddKeepsEx(c: Config, s: State, step: Step)
    requires ExInv(c, s) && step.ExchangeAdd? && step.pid in s.procs && s.procs[step.pid].Adding?
    requires step.pid in s.limiter.calls
    ensures ExInv(c, Next(c, s, step))
  {
    AddedCalls(s.limiter, c.seconds, step.pid);
    AddedNext(c, s, step);
    if step.fault.Lost? {
      EndedKeepsEx(c, s, step.pid);
    } else {
      JudgedKeepsEx(c, s, Limits.Next(s.limiter, c.seconds, Limits.Add(step.pid)), step.pid, step.fault);
    }
  }

  lemma {:induction false} RunKeepsEx(c: Config, steps: seq<Step>)
    ensures Inv(Run(c, INIT, steps)) && ExInv(c, Run(c, INIT, steps))
  {
    RunKeepsInv(c, INIT, steps);
    if steps == [] {
    } else {
      var before := steps[..|steps| - 1];
      RunKeepsEx(c, before);
      NextKeepsEx(c, Run(c, INIT, before), steps[|steps| - 1]);
    }
  }

  lemma ReachedExInv(c: Config, s: State)
    requires Reached(c, s)
    ensures Inv(s) && ExInv(c, s)
  {
    var steps :| s == Run(c, INIT, steps);
    RunKeepsEx(c, steps);
  }

  // ---------------------------------------------------------------------------------------
  // Provenance
  // ---------------------------------------------------------------------------------------

  /** The audiences of every version were validated before they were stored. */
  lemma {:induction false} LastAudiencesValid(log: seq<Write>)
    requires forall i :: 0 <= i < |log| && (log[i].Created? || log[i].Patched?) ==> ValidAudiences(log[i].audiences)
    ensures ValidAudiences(LastAudiences(log))
  {
    if log == [] {
    } else {
      LastAudiencesValid(log[..|log| - 1]);
    }
  }

  lemma ReachedTokens(c: Config, s: State, pid: nat)
    requires Reached(c, s) && pid in s.tokens
    ensures TokenSound(s, s.tokens[pid]) && |s.past| == |s.log|
    ensures forall i :: 0 <= i < |s.log| && (s.log[i].Created? || s.log[i].Patched?) ==>
          ValidAudiences(s.log[i].audiences)
  {
    ReachedExInv(c, s);
  }

  /**
    Every minted token has the audience and scopes of one entry of one single version, which
    was active and verified the secret, and both are well formed.
   */
  lemma TokenProvenance(c: Config, s: State, pid: nat)
    requires Reached(c, s) && pid in s.tokens
    ensures TokenSound(s, s.tokens[pid])
    ensures NameText(s.tokens[pid].audience)
    ensures forall i :: 0 <= i < |s.tokens[pid].scopes| ==> ScopeText(s.tokens[pid].scopes[i])
  {
    ReachedTokens(c, s, pid);
    var k := s.tokens[pid].version;
    VersionFolds(c, s, k);
    LastAudiencesValid(s.log[..k]);
    NamesAreText(s.tokens[pid].audience);
    forall i | 0 <= i < |s.tokens[pid].scopes| ensures ScopeText(s.tokens[pid].scopes[i]) {
      ScopesAreText(s.tokens[pid].scopes[i]);
    }
  }

  lemma NewcomerIsClean(c: Config, s: State, p: nat)
    requires Reached(c, s) && p !in s.procs
    ensures p !in s.tokens && p !in s.limiter.calls
  {
    ReachedExInv(c, s);
  }

  /**
    An exchange that reads a version written by or after a revocation fails, without counting
    against the rate window and without ever getting a token.
   */
  lemma RevokedExchangeFails(c: Config, s: State, more: seq<Step>, i: nat, read: Step)
    requires Reached(c, s) && i < |s.log| && s.log[i].Revoked?
    requires read.ExchangeRead? && i < read.version && read.pid !in s.procs
    ensures var t := Run(c, Next(c, s, read), more);
            && read.pid in t.procs
            && t.procs[read.pid] == Done(if read.fault == NoFault then Refused(InvalidCredentials) else Broken)
            && read.pid !in t.tokens && read.pid !in t.limiter.calls
  {
    RevokedVersion(c, s, i, read.version);
    NewcomerIsClean(c, s, read.pid);
    OthersKeepExchanges(c, s, read);
    DoneIsFinal(c, Next(c, s, read), more, read.pid);
  }
}
