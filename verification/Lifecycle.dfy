/** What every reachable state of the credential machine guarantees about the record. */
module Lifecycle {
  import opened Faults
  import opened Records
  import opened Credentials
  import Limits = RateLimiter

  // ---------------------------------------------------------------------------------------
  // Committed hashes
  // ---------------------------------------------------------------------------------------

  lemma {:induction false} HashesComeFromLog(log: seq<Write>, h: nat)
    requires h < |Hashes(log)|
    ensures exists i :: 0 <= i < |log| && (log[i].Created? || log[i].Rotated?) && log[i].hash == Hashes(log)[h]
  {
    var before, w := log[..|log| - 1], log[|log| - 1];
    if h < |Hashes(before)| {
      HashesComeFromLog(before, h);
      var i :| 0 <= i < |before| && (before[i].Created? || before[i].Rotated?) && before[i].hash == Hashes(before)[h];
      assert log[i].hash == Hashes(log)[h];
    } else {
      assert w.hash == Hashes(log)[h];
    }
  }

  lemma {:induction false} CommittedHashIsListed(log: seq<Write>, i: nat)
    requires i < |log| && (log[i].Created? || log[i].Rotated?)
    ensures log[i].hash in Hashes(log)
  {
    if i == |log| - 1 {
    } else {
      CommittedHashIsListed(log[..|log| - 1], i);
    }
  }

  lemma {:induction false} HashesPrefix(log: seq<Write>, k: nat)
    requires k <= |log|
    ensures Hashes(log[..k]) <= Hashes(log)
  {
    if k < |log| {
      assert log[..|log| - 1][..k] == log[..k];
      HashesPrefix(log[..|log| - 1], k);
    } else {
      assert log[..k] == log;
    }
  }

  lemma {:induction false} SaltsDistinct(log: seq<Write>, g: nat, h: nat)
    requires forall i, j :: 0 <= i < j < |log| ==> log[i].pid != log[j].pid
    requires forall i :: 0 <= i < |log| && (log[i].Created? || log[i].Rotated?) ==> log[i].hash.salt == log[i].pid
    requires g < h < |Hashes(log)|
    ensures Hashes(log)[g].salt != Hashes(log)[h].salt
  {
    var before := log[..|log| - 1];
    if h < |Hashes(before)| {
      SaltsDistinct(before, g, h);
    } else {
      HashesComeFromLog(before, g);
      var i :| 0 <= i < |before| && (before[i].Created? || before[i].Rotated?) && before[i].hash == Hashes(before)[g];
      assert log[i].pid != log[|log| - 1].pid;
    }
  }

  /** No committed secret, and so no committed hash, ever repeats. */
  lemma CommittedSecretsDiffer(c: Config, s: State, g: nat, h: nat)
    requires Reached(c, s) && g < h < |Hashes(s.log)|
    ensures Hashes(s.log)[g].secret != Hashes(s.log)[h].secret
  {
    ReachedInv(c, s);
    OwnSecretsDiffer(s, g, h);
  }

  lemma OwnSecretsDiffer(s: State, g: nat, h: nat)
    requires OneWriteEach(s) && OwnHashes(s) && g < h < |Hashes(s.log)|
    ensures Hashes(s.log)[g].secret != Hashes(s.log)[h].secret
  {
    HashesComeFromLog(s.log, g);
    HashesComeFromLog(s.log, h);
    SaltsDistinct(s.log, g, h);
  }

  // ---------------------------------------------------------------------------------------
  // Rotation history
  // ---------------------------------------------------------------------------------------

  /** Every version is the fold of the writes before it, the first of which created the record. */
  lemma VersionFolds(c: Config, s: State, k: nat)
    requires Reached(c, s) && k <= |s.log|
    ensures |s.past| == |s.log|
    ensures Version(s, k) == Folded(s.log[..k])
    ensures k > 0 ==> s.log[..k] != [] && s.log[..k][0].Created? && Hashes(s.log[..k]) != []
  {
    ReachedInv(c, s);
    assert s.log[..|s.log|] == s.log;
    if k > 0 {
      assert s.log[..k][0] == s.log[0];
      HashesNonempty(s.log[..k]);
    }
  }

  lemma CurrentFolds(c: Config, s: State)
    requires Reached(c, s)
    ensures s.current == Folded(s.log)
    ensures s.log != [] ==> Hashes(s.log) != []
  {
    VersionFolds(c, s, |s.log|);
    assert s.log[..|s.log|] == s.log;
  }

  lemma NewestElements(hashes: seq<Hash>)
    requires hashes != []
    ensures |Newest(hashes)| == (if |hashes| < 2 then 1 else 2)
    ensures forall i :: 0 <= i < |Newest(hashes)| ==> Newest(hashes)[i] == hashes[|hashes| - 1 - i]
  {
  }

  /**
    Every version of the record holds the newest min(2, n) of the n hashes committed before it,
    newest first, under any interleaving, faults and stale reads.
   */
  lemma RotationHistory(c: Config, s: State, k: nat)
    requires Reached(c, s) && k <= |s.log|
    ensures Version(s, k).Some? <==> k > 0
    ensures k > 0 ==>
              var hashes, rounds := Hashes(s.log[..k]), Version(s, k).value.rounds;
              && hashes != []
              && |rounds| == (if |hashes| < 2 then 1 else 2)
              && forall i :: 0 <= i < |rounds| ==> rounds[i] == hashes[|hashes| - 1 - i]
  {
    VersionFolds(c, s, k);
    if k > 0 {
      NewestElements(Hashes(s.log[..k]));
    }
  }

  /**
    Optimistic locking: two committed rotations never started from the same rounds, so of the
    rotations that read one version at most one commits.
   */
  lemma OneRotationPerVersion(c: Config, s: State, i: nat, j: nat)
    requires Reached(c, s) && i < j < |s.log| && s.log[i].Rotated? && s.log[j].Rotated?
    ensures s.log[i].base != s.log[j].base
  {
    BaseHead(c, s, i);
    BaseHead(c, s, j);
    LaterHashesGrow(s.log, i, j);
    CommittedSecretsDiffer(c, s, |Hashes(s.log[..i])| - 1, |Hashes(s.log[..j])| - 1);
  }

  /** A committed rotation started from the newest hash committed before it. */
  lemma BaseHead(c: Config, s: State, i: nat)
    requires Reached(c, s) && i < |s.log| && s.log[i].Rotated?
    ensures Hashes(s.log[..i]) != [] && Hashes(s.log[..i]) <= Hashes(s.log)
    ensures s.log[i].base != [] && s.log[i].base[0] == Hashes(s.log[..i])[|Hashes(s.log[..i])| - 1]
  {
    BaseIsNewest(c, s, i);
    VersionFolds(c, s, i);
    NewestElements(Hashes(s.log[..i]));
    HashesPrefix(s.log, i);
  }

  lemma BaseIsNewest(c: Config, s: State, i: nat)
    requires Reached(c, s) && i < |s.log| && s.log[i].Rotated?
    ensures i > 0 && s.log[i].base == Newest(Hashes(s.log[..i]))
  {
    ReachedInv(c, s);
  }

  lemma LaterHashesGrow(log: seq<Write>, i: nat, j: nat)
    requires i < j <= |log| && log[i].Rotated?
    ensures Hashes(log[..i]) < Hashes(log[..j])
  {
    assert log[..i + 1][..i] == log[..i];
    assert Hashes(log[..i + 1]) == Hashes(log[..i]) + [log[i].hash];
    assert log[..j][..i + 1] == log[..i + 1];
    HashesPrefix(log[..j], i + 1);
  }

  // ---------------------------------------------------------------------------------------
  // Fields do not disturb each other
  // ---------------------------------------------------------------------------------------

  datatype Field = Rounds | Scopes | Active

  predicate Touches(w: Write, field: Field) {
    match field
    case Rounds => w.Created? || w.Rotated?
    case Scopes => w.Created? || w.Patched?
    case Active => w.Revoked?
  }

  /** The committed writes of one field. */
  function Only(log: seq<Write>, field: Field): seq<Write> {
    if log == [] then []
    else if Touches(log[|log| - 1], field) then Only(log[..|log| - 1], field) + [log[|log| - 1]]
    else Only(log[..|log| - 1], field)
  }

  lemma {:induction false} RoundsFoldOwn(log: seq<Write>)
    ensures Hashes(log) == Hashes(Only(log, Rounds))
  {
    if log == [] {
    } else {
      var before, w := log[..|log| - 1], log[|log| - 1];
      RoundsFoldOwn(before);
      if Touches(w, Rounds) {
        FoldSnoc(Only(before, Rounds), w);
      }
    }
  }

  lemma {:induction false} ScopesFoldOwn(log: seq<Write>)
    ensures LastAudiences(log) == LastAudiences(Only(log, Scopes))
  {
    if log == [] {
    } else {
      var before, w := log[..|log| - 1], log[|log| - 1];
      ScopesFoldOwn(before);
      if Touches(w, Scopes) {
        FoldSnoc(Only(before, Scopes), w);
      }
    }
  }

  lemma {:induction false} ActiveFoldsOwn(log: seq<Write>)
    ensures EverRevoked(log) <==> Only(log, Active) != []
  {
    if log == [] {
    } else {
      var before, w := log[..|log| - 1], log[|log| - 1];
      ActiveFoldsOwn(before);
      FoldSnoc(before, w);
      assert log == before + [w];
    }
  }

  /** Rounds, audiences and active are each decided by the committed writes of that field alone. */
  lemma FieldsIndependent(c: Config, s: State)
    requires Reached(c, s) && s.current.Some?
    ensures s.current.value.rounds == Newest(Hashes(Only(s.log, Rounds)))
    ensures s.current.value.audiences == LastAudiences(Only(s.log, Scopes))
    ensures s.current.value.active <==> Only(s.log, Active) == []
  {
    CurrentFolds(c, s);
    RoundsFoldOwn(s.log);
    ScopesFoldOwn(s.log);
    ActiveFoldsOwn(s.log);
  }

  // ---------------------------------------------------------------------------------------
  // Grace window
  // ---------------------------------------------------------------------------------------

  /**
    The stored rounds accept exactly the secrets of the last two committed creates and
    rotations.
   */
  lemma GraceWindow(c: Config, s: State, secret: string)
    requires Reached(c, s) && s.current.Some?
    ensures var hashes := Hashes(s.log);
            Verifies(s.current.value.rounds, secret) <==>
            exists g :: 0 <= g < |hashes| && g + 2 >= |hashes| && hashes[g].secret == secret
  {
    CurrentFolds(c, s);
    NewestVerifies(Hashes(s.log), secret);
  }

  lemma NewestVerifies(hashes: seq<Hash>, secret: string)
    ensures Verifies(Newest(hashes), secret) <==>
            exists g :: 0 <= g < |hashes| && g + 2 >= |hashes| && hashes[g].secret == secret
  {
    var rounds := Newest(hashes);
    if Verifies(rounds, secret) {
      var i :| 0 <= i < |rounds| && Matches(rounds[i], secret);
      assert rounds[i] in hashes[if |hashes| < 2 then 0 else |hashes| - 2..];
    }
    forall g | 0 <= g < |hashes| && g + 2 >= |hashes| && hashes[g].secret == secret ensures Verifies(rounds, secret) {
      assert hashes[g] in rounds;
    }
  }

  /** A committed secret is accepted until two further creates or rotations have committed. */
  lemma SurvivesOneRotation(c: Config, s: State, g: nat)
    requires Reached(c, s) && s.current.Some? && g < |Hashes(s.log)|
    ensures Verifies(s.current.value.rounds, Hashes(s.log)[g].secret) <==> g + 2 >= |Hashes(s.log)|
  {
    var hashes := Hashes(s.log);
    GraceWindow(c, s, hashes[g].secret);
    if h :| 0 <= h < |hashes| && h + 2 >= |hashes| && hashes[h].secret == hashes[g].secret {
      if g < h {
        CommittedSecretsDiffer(c, s, g, h);
      } else if h < g {
        CommittedSecretsDiffer(c, s, h, g);
      }
    }
  }

  /** A returned secret was committed; a refused operation committed nothing. */
  lemma ReturnedMeansCommitted(c: Config, s: State, pid: nat)
    requires Reached(c, s) && pid in s.procs && s.procs[pid].Done?
    ensures s.procs[pid].outcome.Secret? ==> Hash(pid, s.procs[pid].outcome.secret) in Hashes(s.log)
    ensures s.procs[pid].outcome.Refused? ==> forall i :: 0 <= i < |s.log| ==> s.log[i].pid != pid
  {
    ReachedInv(c, s);
    if s.procs[pid].outcome.Secret? {
      var i :| 0 <= i < |s.log| && s.log[i].pid == pid;
      CommittedHashIsListed(s.log, i);
    }
  }

  // ---------------------------------------------------------------------------------------
  // Revocation
  // ---------------------------------------------------------------------------------------

  /** A step changes the state of no operation but its own, and of no finished one. */
  lemma NextSparesOthers(c: Config, s: State, step: Step, p: nat)
    requires p in s.procs && (s.procs[p].Done? || step.SweepCounter? || p != step.pid)
    ensures var t := Next(c, s, step);
            && p in t.procs && t.procs[p] == s.procs[p]
            && (p in t.tokens <==> p in s.tokens)
            && (p in t.limiter.calls <==> p in s.limiter.calls)
  {
    if step.SweepCounter? {
    } else if step.ExchangeTry? || step.ExchangeAdd? || step.ExchangeFinish? {
      ExchangeSparesOthers(c, s, step, p);
    } else {
      OthersKeepExchanges(c, s, step);
    }
  }

  lemma ExchangeSparesOthers(c: Config, s: State, step: Step, p: nat)
    requires step.ExchangeTry? || step.ExchangeAdd? || step.ExchangeFinish?
    requires p in s.procs && (s.procs[p].Done? || p != step.pid)
    ensures var t := Next(c, s, step);
            && p in t.procs && t.procs[p] == s.procs[p]
            && (p in t.tokens <==> p in s.tokens)
            && (p in t.limiter.calls <==> p in s.limiter.calls)
  {
    var pid := step.pid;
    match step
    case ExchangeTry(_, now, fault) =>
      if Next(c, s, step) != s && !fault.Lost? {
        JudgedSparesOthers(c, s, Limits.Next(s.limiter, c.seconds, Limits.Try(pid, now)), pid, fault, p);
      }
    case ExchangeAdd(_, fault) =>
      if Next(c, s, step) != s && !fault.Lost? {
        JudgedSparesOthers(c, s, Limits.Next(s.limiter, c.seconds, Limits.Add(pid)), pid, fault, p);
      }
    case ExchangeFinish(_, signed) =>
  }

  lemma JudgedSparesOthers(c: Config, s: State, limiter: Limits.Limiter, pid: nat, fault: Fault, p: nat)
    requires pid in s.procs && (s.procs[pid].Bumping? || s.procs[pid].Adding?) && pid in limiter.calls && p != pid
    ensures var t := Judged(c, s.(limiter := limiter), pid, fault);
            && t.limiter == limiter && t.tokens == s.tokens
            && (p in s.procs ==> p in t.procs && t.procs[p] == s.procs[p])
  {
  }

  ghost predicate KeepsExchanges(s: State, t: State, pid: nat) {
    && t.limiter == s.limiter && t.tokens == s.tokens && t.compared == s.compared
    && (t.procs == s.procs ||
        (pid in t.procs && (pid in s.procs ==> !s.procs[pid].Done?) && t.procs == s.procs[pid := t.procs[pid]]))
  }

  lemma OthersKeepExchanges(c: Config, s: State, step: Step)
    requires !step.SweepCounter? && !step.ExchangeTry? && !step.ExchangeAdd? && !step.ExchangeFinish?
    ensures KeepsExchanges(s, Next(c, s, step), step.pid)
  {
    if Writing(step) {
      WritesKeepExchanges(c, s, step);
    } else {
      match step
      case BeginCreate(_, _, _) => CreatesKeepExchanges(c, s, step);
      case RotateRead(_, _, _, _) => RotationsKeepExchanges(c, s, step);
      case ExchangeRead(_, _, _, _, _) => ReadsKeepExchanges(c, s, step);
      case _ => RefusalsKeepExchanges(c, s, step);
    }
  }

  lemma CreatesKeepExchanges(c: Config, s: State, step: Step)
    requires step.BeginCreate?
    ensures KeepsExchanges(s, Next(c, s, step), step.pid)
  {
  }

  lemma RotationsKeepExchanges(c: Config, s: State, step: Step)
    requires step.RotateRead?
    ensures KeepsExchanges(s, Next(c, s, step), step.pid)
  {
  }

  lemma ReadsKeepExchanges(c: Config, s: State, step: Step)
    requires step.ExchangeRead?
    ensures KeepsExchanges(s, Next(c, s, step), step.pid)
  {
  }

  lemma RefusalsKeepExchanges(c: Config, s: State, step: Step)
    requires step.Reject? || step.RotateReread?
    ensures KeepsExchanges(s, Next(c, s, step), step.pid)
  {
  }

  lemma WritesKeepExchanges(c: Config, s: State, step: Step)
    requires Writing(step)
    ensures KeepsExchanges(s, Next(c, s, step), step.pid)
  {
    if step.PutRecord? || step.RotateSwap? {
      HashWritesKeepExchanges(c, s, step);
    }
  }

  lemma HashWritesKeepExchanges(c: Config, s: State, step: Step)
    requires step.PutRecord? || step.RotateSwap?
    ensures KeepsExchanges(s, Next(c, s, step), step.pid)
  {
  }

  lemma LogGrows(c: Config, s: State, step: Step)
    ensures s.log <= Next(c, s, step).log
  {
    if Next(c, s, step) != s && !Writing(step) && !step.SweepCounter? {
      OthersMove(c, s, step);
    }
  }

  lemma {:induction false} RunGrowsLog(c: Config, s: State, steps: seq<Step>)
    ensures s.log <= Run(c, s, steps).log
  {
    if steps == [] {
    } else {
      RunGrowsLog(c, s, steps[..|steps| - 1]);
      LogGrows(c, Run(c, s, steps[..|steps| - 1]), steps[|steps| - 1]);
    }
  }

  /** A finished operation stays finished and does nothing more. */
  lemma {:induction false} DoneIsFinal(c: Config, s: State, steps: seq<Step>, p: nat)
    requires p in s.procs && s.procs[p].Done?
    ensures var t := Run(c, s, steps);
            && p in t.procs && t.procs[p] == s.procs[p]
            && (p in t.tokens <==> p in s.tokens)
            && (p in t.limiter.calls <==> p in s.limiter.calls)
  {
    if steps == [] {
    } else {
      DoneIsFinal(c, s, steps[..|steps| - 1], p);
      NextSparesOthers(c, Run(c, s, steps[..|steps| - 1]), steps[|steps| - 1], p);
    }
  }

  lemma RevokedVersion(c: Config, s: State, i: nat, k: nat)
    requires Reached(c, s) && i < |s.log| && s.log[i].Revoked? && i < k
    ensures Version(s, k).Some? && !Version(s, k).value.active
  {
    VersionFolds(c, s, 0);
    var m := ReadAt(s, k);
    VersionFolds(c, s, m);
    assert s.log[..m][i].Revoked?;
  }

  /** Every version from a committed revocation on is inactive, whatever is attempted later. */
  lemma RevocationIsPermanent(c: Config, s: State, more: seq<Step>, i: nat, k: nat)
    requires Reached(c, s) && i < |s.log| && s.log[i].Revoked? && i < k
    ensures var v := Version(Run(c, s, more), k); v.Some? && !v.value.active
  {
    RunReached(c, s, more);
    RunGrowsLog(c, s, more);
    RevokedVersion(c, Run(c, s, more), i, k);
  }
}
