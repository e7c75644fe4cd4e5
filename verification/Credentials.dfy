/**
  The life of one machine credential: any number of concurrent creates, rotations, revocations,
  audience replacements (m2m/provision_service.go) and token exchanges (m2m/service.go) over its
  CLIENT# record and RATE# counter.

  Every table call is one step.  A call may fail with its write applied or not, and a read may
  return any version the record ever had, because reads are not strongly consistent.
 */
module Credentials {
  import opened Wrappers
  import opened Faults
  import opened Validation
  import opened Records
  import Limits = RateLimiter

  datatype Refusal =
    | ClientExists | ClientNotFound | ClientInactive | RoundsConflict | BadFormat
    | InvalidCredentials | RateLimited | AudienceNotAllowed

  datatype Outcome =
    | Secret(secret: string)
    | Accepted
    | Minted
    | Refused(why: Refusal)
    | Broken

  /** Where an operation stands between its table calls. */
  datatype Proc =
    | Creating(hash: Hash, audiences: Audiences)
    | Swapping(hash: Hash, base: seq<Hash>)
    | Rereading
    | Bumping(version: nat, snapshot: Record, secret: string, audience: string)
    | Adding(version: nat, snapshot: Record, secret: string, audience: string)
    | Admitted(version: nat, snapshot: Record, secret: string, audience: string)
    | Done(outcome: Outcome)

  /** A committed write, and which operation made it. */
  datatype Write =
    | Created(pid: nat, hash: Hash, audiences: Audiences)
    | Rotated(pid: nat, hash: Hash, base: seq<Hash>)
    | Revoked(pid: nat)
    | Patched(pid: nat, audiences: Audiences)

  datatype Token = Token(version: nat, secret: string, audience: string, scopes: seq<string>)

  /**
    `past` holds every earlier version of the record, oldest first.  `log`, `minted` and
    `compared` are bookkeeping: the committed writes, the secret each operation generated, and
    the (exchange, round) pairs whose hashes were really compared.
   */
  datatype State = State(
    past: seq<Option<Record>>,
    current: Option<Record>,
    limiter: Limits.Limiter,
    procs: map<nat, Proc>,
    minted: map<nat, string>,
    log: seq<Write>,
    tokens: map<nat, Token>,
    compared: set<(nat, nat)>
  )

  datatype Config = Config(seconds: nat, limit: int)

  /**
    One table call, or a decision before the first one.  `Reject` is a malformed request, and a
    missing `made` a failure of the random source; `SweepCounter` is the table's sweeper passing
    the counter in the given second.
   */
  datatype Step =
    | SweepCounter(at: int)
    | Reject(pid: nat)
    | BeginCreate(pid: nat, made: Option<string>, audiences: Audiences)
    | PutRecord(pid: nat, fault: Fault)
    | RotateRead(pid: nat, version: nat, made: Option<string>, fault: Fault)
    | RotateSwap(pid: nat, fault: Fault)
    | RotateReread(pid: nat, version: nat, fault: Fault)
    | Revoke(pid: nat, fault: Fault)
    | Patch(pid: nat, audiences: Audiences, fault: Fault)
    | ExchangeRead(pid: nat, version: nat, secret: string, audience: string, fault: Fault)
    | ExchangeTry(pid: nat, now: int, fault: Fault)
    | ExchangeAdd(pid: nat, fault: Fault)
    | ExchangeFinish(pid: nat, signed: bool)

  const INIT: State := State([], None, Limits.Fresh(None), map[], map[], [], map[], {})

  function Version(s: State, k: nat): Option<Record> {
    if k < |s.past| then s.past[k] else s.current
  }

  /** The version a read asking for version k gets. */
  function ReadAt(s: State, k: nat): nat {
    if k < |s.past| then k else |s.past|
  }

  function Moved(s: State, pid: nat, proc: Proc): State {
    s.(procs := s.procs[pid := proc])
  }

  function Ended(s: State, pid: nat, outcome: Outcome): State {
    Moved(s, pid, Done(outcome))
  }

  /** The generator never repeats itself. */
  predicate Unused(s: State, secret: string) {
    forall p :: p in s.minted ==> s.minted[p] != secret
  }

  predicate Generable(s: State, made: Option<string>) {
    made.Some? ==> Unused(s, made.value)
  }

  /** One conditional write: `won` if it commits and is acknowledged, `lost` if its condition fails. */
  function Attempt(s: State, pid: nat, change: Change, write: Write, fault: Fault, won: Outcome, lost: Proc): State {
    if fault.Lost? then Ended(s, pid, Broken)
    else if !Allows(s.current, change) then Moved(s, pid, if fault.Unacked? then Done(Broken) else lost)
    else
      Ended(s, pid, if fault.Unacked? then Broken else won).(
        past := s.past + [s.current],
        current := Some(Changed(s.current, change)),
        log := s.log + [write])
  }

  /** What an exchange does once its count is known (m2m/service.go:109). */
  function Judged(c: Config, s: State, pid: nat, fault: Fault): State
    requires pid in s.procs && (s.procs[pid].Bumping? || s.procs[pid].Adding?)
    requires pid in s.limiter.calls
  {
    var p := s.procs[pid];
    if fault.Unacked? then Ended(s, pid, Broken)
    else
      match s.limiter.calls[pid]
      case Missed(_) => Moved(s, pid, Adding(p.version, p.snapshot, p.secret, p.audience))
      case Counted(_, count) =>
        if count > c.limit then Ended(s, pid, Refused(RateLimited))
        else Moved(s, pid, Admitted(p.version, p.snapshot, p.secret, p.audience))
  }

  /** The end of an exchange: audience, then secret, then signature (m2m/service.go:113-128). */
  function Finished(s: State, pid: nat, signed: bool): State
    requires pid in s.procs && s.procs[pid].Admitted?
  {
    var p := s.procs[pid];
    if p.audience !in p.snapshot.audiences then Ended(s, pid, Refused(AudienceNotAllowed))
    else
      var n := Comparisons(p.snapshot.rounds, p.secret);
      var t := s.(compared := s.compared + set j | 0 <= j < n :: (pid, j));
      if !Verifies(p.snapshot.rounds, p.secret) then Ended(t, pid, Refused(InvalidCredentials))
      else if !signed then Ended(t, pid, Broken)
      else Ended(t, pid, Minted).(
          tokens := s.tokens[pid := Token(p.version, p.secret, p.audience, p.snapshot.audiences[p.audience])])
  }

  /** What a create decides before its table call. */
  function CreateBegun(s: State, pid: nat, made: Option<string>, audiences: Audiences): State {
    if !ValidAudiences(audiences) then Ended(s, pid, Refused(BadFormat))
    else if made.None? then Ended(s, pid, Broken)
    else Moved(s, pid, Creating(Hash(pid, made.value), audiences)).(minted := s.minted[pid := made.value])
  }

  /** What a rotation decides on the version it reads. */
  function RotationBegun(s: State, pid: nat, read: Option<Record>, made: Option<string>, fault: Fault): State {
    if fault != NoFault then Ended(s, pid, Broken)
    else if read.None? then Ended(s, pid, Refused(ClientNotFound))
    else if !read.value.active then Ended(s, pid, Refused(ClientInactive))
    else if made.None? then Ended(s, pid, Broken)
    else Moved(s, pid, Swapping(Hash(pid, made.value), read.value.rounds)).(minted := s.minted[pid := made.value])
  }

  /** What an exchange decides on the version it reads. */
  function ExchangeBegun(s: State, pid: nat, version: nat, secret: string, audience: string, fault: Fault): State {
    var read := Version(s, version);
    if fault != NoFault then Ended(s, pid, Broken)
    else if read.None? || read.value.rounds == [] || !read.value.active then Ended(s, pid, Refused(InvalidCredentials))
    else Moved(s, pid, Bumping(ReadAt(s, version), read.value, secret, audience))
  }

  function CounterSwept(s: State, at: int): State {
    if Limits.TtlPast(s.limiter.item, at) then s.(limiter := s.limiter.(item := None)) else s
  }

  /** One step.  A step that its operation is not ready for changes nothing. */
  function Next(c: Config, s: State, step: Step): State {
    if step.SweepCounter? then CounterSwept(s, step.at)
    else
      var pid := step.pid;
      match step
      case Reject(_) =>
        if pid in s.procs then s else Ended(s, pid, Refused(BadFormat))
      case BeginCreate(_, made, audiences) =>
        if pid in s.procs || !Generable(s, made) then s else CreateBegun(s, pid, made, audiences)
      case PutRecord(_, fault) =>
        if pid !in s.procs || !s.procs[pid].Creating? then s
        else
          var p := s.procs[pid];
          Attempt(s, pid, Put(Record([p.hash], p.audiences, true)), Created(pid, p.hash, p.audiences),
                  fault, Secret(p.hash.secret), Done(Refused(ClientExists)))
      case RotateRead(_, version, made, fault) =>
        if pid in s.procs || !Generable(s, made) then s else RotationBegun(s, pid, Version(s, version), made, fault)
      case RotateSwap(_, fault) =>
        if pid !in s.procs || !s.procs[pid].Swapping? then s
        else
          var p := s.procs[pid];
          Attempt(s, pid, Swap(p.base, NextRounds(p.hash, p.base)), Rotated(pid, p.hash, p.base),
                  fault, Secret(p.hash.secret), Rereading)
      case RotateReread(_, version, fault) =>
        if pid !in s.procs || !s.procs[pid].Rereading? then s
        else if fault != NoFault then Ended(s, pid, Broken)
        else Ended(s, pid, Refused(if Version(s, version).None? then ClientNotFound else RoundsConflict))
      case Revoke(_, fault) =>
        if pid in s.procs then s
        else Attempt(s, pid, Deactivate, Revoked(pid), fault, Accepted, Done(Refused(ClientNotFound)))
      case Patch(_, audiences, fault) =>
        if pid in s.procs then s
        else if !ValidAudiences(audiences) then Ended(s, pid, Refused(BadFormat))
        else
          Attempt(s, pid, Replace(audiences), Patched(pid, audiences), fault, Accepted, Done(Refused(ClientNotFound)))
      case ExchangeRead(_, version, secret, audience, fault) =>
        if pid in s.procs then s else ExchangeBegun(s, pid, version, secret, audience, fault)
      case ExchangeTry(_, now, fault) =>
        if pid !in s.procs || !s.procs[pid].Bumping? then s
        else if fault.Lost? then Ended(s, pid, Broken)
        else Judged(c, s.(limiter := Limits.Next(s.limiter, c.seconds, Limits.Try(pid, now))), pid, fault)
      case ExchangeAdd(_, fault) =>
        if pid !in s.procs || !s.procs[pid].Adding? || pid !in s.limiter.calls then s
        else if fault.Lost? then Ended(s, pid, Broken)
        else Judged(c, s.(limiter := Limits.Next(s.limiter, c.seconds, Limits.Add(pid))), pid, fault)
      case ExchangeFinish(_, signed) =>
        if pid !in s.procs || !s.procs[pid].Admitted? then s
        else Finished(s, pid, signed)
  }

  function Run(c: Config, s: State, steps: seq<Step>): State {
    if steps == [] then s
    else Next(c, Run(c, s, steps[..|steps| - 1]), steps[|steps| - 1])
  }

  // ---------------------------------------------------------------------------------------
  // What the committed writes say, field by field
  // ---------------------------------------------------------------------------------------

  /** The hashes of the committed creates and rotations, oldest first. */
  function Hashes(log: seq<Write>): seq<Hash> {
    if log == [] then []
    else
      var w := log[|log| - 1];
      Hashes(log[..|log| - 1]) + if w.Created? || w.Rotated? then [w.hash] else []
  }

  /** The newest min(2, n) of n hashes, newest first. */
  function Newest(hashes: seq<Hash>): seq<Hash> {
    var n := |hashes|;
    if n >= 2 then [hashes[n - 1], hashes[n - 2]] else hashes
  }

  /** The audiences of the last committed create or replacement. */
  function LastAudiences(log: seq<Write>): Audiences {
    if log == [] then map[]
    else
      var w := log[|log| - 1];
      if w.Created? || w.Patched? then w.audiences else LastAudiences(log[..|log| - 1])
  }

  predicate EverRevoked(log: seq<Write>) {
    exists i :: 0 <= i < |log| && log[i].Revoked?
  }

  /** Each field folds its own writes only. */
  function Folded(log: seq<Write>): Option<Record> {
    if log == [] then None
    else Some(Record(Newest(Hashes(log)), LastAudiences(log), !EverRevoked(log)))
  }

  lemma FoldSnoc(log: seq<Write>, w: Write)
    ensures Hashes(log + [w]) == Hashes(log) + if w.Created? || w.Rotated? then [w.hash] else []
    ensures LastAudiences(log + [w]) == if w.Created? || w.Patched? then w.audiences else LastAudiences(log)
    ensures EverRevoked(log + [w]) <==> EverRevoked(log) || w.Revoked?
  {
    var all := log + [w];
    assert all[..|all| - 1] == log && all[|all| - 1] == w;
    if EverRevoked(log) {
      var i :| 0 <= i < |log| && log[i].Revoked?;
      assert all[i].Revoked?;
    }
  }

  /** Rotating the newest rounds of n hashes gives the newest rounds of the n + 1. */
  lemma RotationKeepsNewest(hashes: seq<Hash>, hash: Hash)
    requires hashes != []
    ensures NextRounds(hash, Newest(hashes)) == Newest(hashes + [hash])
  {
  }

  // ---------------------------------------------------------------------------------------
  // Invariant of the record
  // ---------------------------------------------------------------------------------------

  /** Each version is what the writes before it say. */
  ghost predicate VersionsFold(s: State) {
    && |s.past| == |s.log|
    && s.current == Folded(s.log)
    && forall k :: 0 <= k < |s.past| ==> s.past[k] == Folded(s.log[..k])
  }

  /** A record is created once, and a rotation commits on the very rounds it read. */
  ghost predicate WellOrdered(log: seq<Write>) {
    && (forall i :: 0 <= i < |log| ==> (log[i].Created? <==> i == 0))
    && (forall i :: 0 <= i < |log| && log[i].Rotated? ==> log[i].base == Newest(Hashes(log[..i])))
  }

  function Reported(w: Write): Outcome {
    if w.Created? || w.Rotated? then Secret(w.hash.secret) else Accepted
  }

  /** Each operation writes at most once, then ends with the result of that write or an error. */
  ghost predicate OneWriteEach(s: State) {
    && (forall i :: 0 <= i < |s.log| ==>
          && s.log[i].pid in s.procs
          && (s.procs[s.log[i].pid] == Done(Broken) || s.procs[s.log[i].pid] == Done(Reported(s.log[i]))))
    && (forall i, j :: 0 <= i < j < |s.log| ==> s.log[i].pid != s.log[j].pid)
    && (forall p :: p in s.procs && s.procs[p].Done? && (s.procs[p].outcome.Secret? || s.procs[p].outcome.Accepted?) ==>
          exists i :: 0 <= i < |s.log| && s.log[i].pid == p)
  }

  /** Every hash in play is the hash of the secret its own operation generated. */
  ghost predicate OwnHashes(s: State) {
    && (forall p :: p in s.minted ==> p in s.procs)
    && (forall p, q :: p in s.minted && q in s.minted && p != q ==> s.minted[p] != s.minted[q])
    && (forall p :: p in s.procs && (s.procs[p].Creating? || s.procs[p].Swapping?) ==>
          p in s.minted && s.procs[p].hash == Hash(p, s.minted[p]))
    && (forall i :: 0 <= i < |s.log| && (s.log[i].Created? || s.log[i].Rotated?) ==>
          s.log[i].pid in s.minted && s.log[i].hash == Hash(s.log[i].pid, s.minted[s.log[i].pid]))
  }

  ghost predicate WellFormatted(s: State) {
    && (forall p :: p in s.procs && s.procs[p].Creating? ==> ValidAudiences(s.procs[p].audiences))
    && (forall i :: 0 <= i < |s.log| && (s.log[i].Created? || s.log[i].Patched?) ==> ValidAudiences(s.log[i].audiences))
  }

  ghost predicate Inv(s: State) {
    VersionsFold(s) && WellOrdered(s.log) && OneWriteEach(s) && OwnHashes(s) && WellFormatted(s)
  }

  /** The record has rounds as soon as it exists. */
  lemma {:induction false} HashesNonempty(log: seq<Write>)
    requires log != [] && log[0].Created?
    ensures Hashes(log) != []
  {
    if |log| == 1 {
    } else {
      HashesNonempty(log[..|log| - 1]);
    }
  }

  /** The table write that a logged write stands for. */
  predicate Describes(w: Write, change: Change) {
    match w
    case Created(_, hash, audiences) => change == Put(Record([hash], audiences, true))
    case Rotated(_, hash, base) => change == Swap(base, NextRounds(hash, base))
    case Revoked(_) => change == Deactivate
    case Patched(_, audiences) => change == Replace(audiences)
  }

  /** Every committed write is the fold of one more write. */
  lemma WriteFolds(log: seq<Write>, change: Change, w: Write)
    requires WellOrdered(log) && Allows(Folded(log), change) && Describes(w, change)
    ensures Some(Changed(Folded(log), change)) == Folded(log + [w])
    ensures WellOrdered(log + [w])
  {
    FoldSnoc(log, w);
    var all := log + [w];
    assert forall i :: 0 <= i < |log| ==> all[i] == log[i] && all[..i] == log[..i];
    assert all[..|log|] == log && all[|log|] == w;
    if log != [] {
      HashesNonempty(log);
      if w.Rotated? {
        RotationKeepsNewest(Hashes(log), w.hash);
      } else {
        assert Hashes(all) == Hashes(log);
      }
    } else {
      assert w.Created? && Hashes(all) == [w.hash] && !EverRevoked(all);
    }
  }

  lemma WriteKeepsVersions(s: State, t: State, change: Change, w: Write)
    requires VersionsFold(s) && WellOrdered(s.log) && Allows(s.current, change) && Describes(w, change)
    requires t.past == s.past + [s.current] && t.current == Some(Changed(s.current, change)) && t.log == s.log + [w]
    ensures VersionsFold(t) && WellOrdered(t.log)
  {
    WriteFolds(s.log, change, w);
    forall k | 0 <= k < |t.past| ensures t.past[k] == Folded(t.log[..k]) {
      assert t.log[..k] == s.log[..k];
      assert s.log[..|s.log|] == s.log;
    }
  }

  lemma WriteKeepsOneEach(s: State, t: State, w: Write)
    requires OneWriteEach(s) && t.log == s.log + [w]
    requires forall i :: 0 <= i < |s.log| ==> s.log[i].pid != w.pid
    requires t.procs == s.procs[w.pid := Done(Broken)] || t.procs == s.procs[w.pid := Done(Reported(w))]
    ensures OneWriteEach(t)
  {
    assert t.log[|s.log|] == w;
    assert forall i :: 0 <= i < |s.log| ==> t.log[i] == s.log[i];
    forall p | p in t.procs && t.procs[p].Done? && (t.procs[p].outcome.Secret? || t.procs[p].outcome.Accepted?)
      ensures exists i :: 0 <= i < |t.log| && t.log[i].pid == p
    {
      if p != w.pid {
        var i :| 0 <= i < |s.log| && s.log[i].pid == p;
        assert t.log[i].pid == p;
      }
    }
  }

  lemma CommitKeepsInv(s: State, t: State, change: Change, w: Write, outcome: Outcome)
    requires Inv(s) && Allows(s.current, change) && Describes(w, change)
    requires outcome == Broken || outcome == Reported(w)
    requires w.pid in s.procs ==> !s.procs[w.pid].Done?
    requires w.Created? || w.Rotated? ==> w.pid in s.minted && w.hash == Hash(w.pid, s.minted[w.pid])
    requires w.Created? || w.Patched? ==> ValidAudiences(w.audiences)
    requires t == s.(past := s.past + [s.current], current := Some(Changed(s.current, change)),
                     log := s.log + [w], procs := s.procs[w.pid := Done(outcome)])
    ensures Inv(t)
  {
    forall i | 0 <= i < |s.log| ensures s.log[i].pid != w.pid {
      assert s.log[i].pid in s.procs;
    }
    WriteKeepsVersions(s, t, change, w);
    WriteKeepsOneEach(s, t, w);
    CommitKeepsHashes(s, t, w, outcome);
  }

  lemma CommitKeepsHashes(s: State, t: State, w: Write, outcome: Outcome)
    requires OwnHashes(s) && WellFormatted(s)
    requires w.Created? || w.Rotated? ==> w.pid in s.minted && w.hash == Hash(w.pid, s.minted[w.pid])
    requires w.Created? || w.Patched? ==> ValidAudiences(w.audiences)
    requires t.log == s.log + [w] && t.minted == s.minted && t.procs == s.procs[w.pid := Done(outcome)]
    ensures OwnHashes(t) && WellFormatted(t)
  {
  }

  lemma AttemptKeepsInv(s: State, pid: nat, change: Change, w: Write, fault: Fault, won: Outcome, lost: Proc)
    requires Inv(s) && w.pid == pid && won == Reported(w) && Describes(w, change)
    requires lost == Rereading || (lost.Done? && lost.outcome.Refused?)
    requires pid in s.procs ==> !s.procs[pid].Done?
    requires w.Created? || w.Rotated? ==> pid in s.minted && w.hash == Hash(pid, s.minted[pid])
    requires w.Created? || w.Patched? ==> ValidAudiences(w.audiences)
    ensures Inv(Attempt(s, pid, change, w, fault, won, lost))
  {
    var t := Attempt(s, pid, change, w, fault, won, lost);
    if fault.Lost? || !Allows(s.current, change) {
      AttemptMoves(s, pid, change, w, fault, won, lost);
      MoveKeepsInv(s, t, pid);
    } else {
      CommitKeepsInv(s, t, change, w, if fault.Unacked? then Broken else won);
    }
  }

  lemma AttemptMoves(s: State, pid: nat, change: Change, w: Write, fault: Fault, won: Outcome, lost: Proc)
    requires fault.Lost? || !Allows(s.current, change)
    requires lost == Rereading || (lost.Done? && lost.outcome.Refused?)
    requires pid in s.procs ==> !s.procs[pid].Done?
    ensures Moves(s, Attempt(s, pid, change, w, fault, won, lost), pid)
  {
  }

  /** A step of operation `pid` that writes nothing: at most its own state and secret change. */
  ghost predicate Moves(s: State, t: State, pid: nat) {
    && t.past == s.past && t.current == s.current && t.log == s.log
    && pid in t.procs && t.procs == s.procs[pid := t.procs[pid]]
    && (pid in s.procs ==> !s.procs[pid].Done?)
    && (t.procs[pid].Done? ==> !t.procs[pid].outcome.Secret? && !t.procs[pid].outcome.Accepted?)
    && (t.minted == s.minted ||
        (pid !in s.procs && pid in t.minted && t.minted == s.minted[pid := t.minted[pid]] && Unused(s, t.minted[pid])))
    && (t.procs[pid].Creating? || t.procs[pid].Swapping? ==>
          pid in t.minted && t.procs[pid].hash == Hash(pid, t.minted[pid]))
    && (t.procs[pid].Creating? ==> ValidAudiences(t.procs[pid].audiences))
  }

  lemma MoveKeepsWrites(s: State, t: State, pid: nat)
    requires OneWriteEach(s) && Moves(s, t, pid)
    ensures OneWriteEach(t) && VersionsFold(t) == VersionsFold(s)
  {
    assert forall i :: 0 <= i < |s.log| ==> s.log[i].pid in s.procs && s.log[i].pid != pid;
  }

  lemma MoveKeepsHashes(s: State, t: State, pid: nat)
    requires OneWriteEach(s) && OwnHashes(s) && Moves(s, t, pid)
    ensures OwnHashes(t)
  {
    assert forall i :: 0 <= i < |s.log| ==> s.log[i].pid in s.procs && s.log[i].pid != pid;
  }

  lemma MoveKeepsInv(s: State, t: State, pid: nat)
    requires Inv(s) && Moves(s, t, pid)
    ensures Inv(t)
  {
    MoveKeepsWrites(s, t, pid);
    MoveKeepsHashes(s, t, pid);
  }

  predicate Writing(step: Step) {
    step.PutRecord? || step.RotateSwap? || step.Revoke? || step.Patch?
  }

  lemma WritingKeepsInv(c: Config, s: State, step: Step)
    requires Inv(s) && Writing(step)
    ensures Inv(Next(c, s, step))
  {
    var pid, t := step.pid, Next(c, s, step);
    match step
    case PutRecord(_, fault) =>
      if t != s {
        var p := s.procs[pid];
        AttemptKeepsInv(s, pid, Put(Record([p.hash], p.audiences, true)), Created(pid, p.hash, p.audiences),
                        fault, Secret(p.hash.secret), Done(Refused(ClientExists)));
      }
    case RotateSwap(_, fault) =>
      if t != s {
        var p := s.procs[pid];
        AttemptKeepsInv(s, pid, Swap(p.base, NextRounds(p.hash, p.base)), Rotated(pid, p.hash, p.base),
                        fault, Secret(p.hash.secret), Rereading);
      }
    case Revoke(_, fault) =>
      if t != s {
        AttemptKeepsInv(s, pid, Deactivate, Revoked(pid), fault, Accepted, Done(Refused(ClientNotFound)));
      }
    case Patch(_, audiences, fault) =>
      if t != s {
        if ValidAudiences(audiences) {
          AttemptKeepsInv(s, pid, Replace(audiences), Patched(pid, audiences), fault,
                          Accepted, Done(Refused(ClientNotFound)));
        } else {
          MoveKeepsInv(s, t, pid);
        }
      }
  }

  lemma ExchangeMoves(c: Config, s: State, step: Step)
    requires (step.ExchangeTry? || step.ExchangeAdd? || step.ExchangeFinish?) && Next(c, s, step) != s
    ensures Moves(s, Next(c, s, step), step.pid)
  {
    var pid := step.pid;
    match step
    case ExchangeTry(_, now, fault) =>
      if !fault.Lost? {
        JudgedMoves(c, s, s.(limiter := Limits.Next(s.limiter, c.seconds, Limits.Try(pid, now))), pid, fault);
      }
    case ExchangeAdd(_, fault) =>
      if !fault.Lost? {
        JudgedMoves(c, s, s.(limiter := Limits.Next(s.limiter, c.seconds, Limits.Add(pid))), pid, fault);
      }
    case ExchangeFinish(_, signed) =>
      FinishedMoves(s, pid, signed);
  }

  lemma JudgedMoves(c: Config, s: State, t: State, pid: nat, fault: Fault)
    requires t == s.(limiter := t.limiter)
    requires pid in s.procs && (s.procs[pid].Bumping? || s.procs[pid].Adding?) && pid in t.limiter.calls
    ensures Moves(s, Judged(c, t, pid, fault), pid)
  {
  }

  lemma FinishedMoves(s: State, pid: nat, signed: bool)
    requires pid in s.procs && s.procs[pid].Admitted?
    ensures Moves(s, Finished(s, pid, signed), pid)
  {
  }

  lemma OthersMove(c: Config, s: State, step: Step)
    requires !Writing(step) && !step.SweepCounter? && Next(c, s, step) != s
    ensures Moves(s, Next(c, s, step), step.pid)
  {
    if step.ExchangeTry? || step.ExchangeAdd? || step.ExchangeFinish? {
      ExchangeMoves(c, s, step);
    } else {
      match step
      case BeginCreate(pid, made, audiences) => CreateBegunMoves(s, pid, made, audiences);
      case RotateRead(pid, version, made, fault) => RotationBegunMoves(s, pid, Version(s, version), made, fault);
      case ExchangeRead(pid, version, secret, audience, fault) =>
        ExchangeBegunMoves(s, pid, version, secret, audience, fault);
      case _ => RefusalMoves(c, s, step);
    }
  }

  lemma CreateBegunMoves(s: State, pid: nat, made: Option<string>, audiences: Audiences)
    requires pid !in s.procs && Generable(s, made)
    ensures Moves(s, CreateBegun(s, pid, made, audiences), pid)
  {
  }

  lemma RotationBegunMoves(s: State, pid: nat, read: Option<Record>, made: Option<string>, fault: Fault)
    requires pid !in s.procs && Generable(s, made)
    ensures Moves(s, RotationBegun(s, pid, read, made, fault), pid)
  {
  }

  lemma ExchangeBegunMoves(s: State, pid: nat, version: nat, secret: string, audience: string, fault: Fault)
    requires pid !in s.procs
    ensures Moves(s, ExchangeBegun(s, pid, version, secret, audience, fault), pid)
  {
  }

  lemma RefusalMoves(c: Config, s: State, step: Step)
    requires (step.Reject? || step.RotateReread?) && Next(c, s, step) != s
    ensures Moves(s, Next(c, s, step), step.pid)
  {
  }

  lemma SweepKeepsInv(s: State, at: int)
    requires Inv(s)
    ensures Inv(CounterSwept(s, at))
  {
  }

  lemma NextKeepsInv(c: Config, s: State, step: Step)
    requires Inv(s)
    ensures Inv(Next(c, s, step))
  {
    if Writing(step) {
      WritingKeepsInv(c, s, step);
    } else if step.SweepCounter? {
      SweepKeepsInv(s, step.at);
    } else if Next(c, s, step) != s {
      OthersMove(c, s, step);
      MoveKeepsInv(s, Next(c, s, step), step.pid);
    }
  }

  /** s is a state of some run. */
  ghost predicate Reached(c: Config, s: State) {
    exists steps :: s == Run(c, INIT, steps)
  }

  lemma {:induction false} RunKeepsInv(c: Config, s: State, steps: seq<Step>)
    requires Inv(s)
    ensures Inv(Run(c, s, steps))
  {
    if steps == [] {
    } else {
      RunKeepsInv(c, s, steps[..|steps| - 1]);
      NextKeepsInv(c, Run(c, s, steps[..|steps| - 1]), steps[|steps| - 1]);
    }
  }

  lemma ReachedInv(c: Config, s: State)
    requires Reached(c, s)
    ensures Inv(s)
  {
    var steps :| s == Run(c, INIT, steps);
    RunKeepsInv(c, INIT, steps);
  }

  lemma RunSnoc(c: Config, s: State, steps: seq<Step>, last: Step)
    ensures Run(c, s, steps + [last]) == Next(c, Run(c, s, steps), last)
  {
    assert (steps + [last])[..|steps|] == steps;
  }

  lemma {:induction false} RunReached(c: Config, s: State, more: seq<Step>)
    requires Reached(c, s)
    ensures Reached(c, Run(c, s, more))
  {
    if more == [] {
    } else {
      var init, last := more[..|more| - 1], more[|more| - 1];
      RunReached(c, s, init);
      var steps :| Run(c, s, init) == Run(c, INIT, steps);
      RunSnoc(c, INIT, steps, last);
    }
  }
}
