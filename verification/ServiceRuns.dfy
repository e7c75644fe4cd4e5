/**
  The sequential provisioning and exchange code refines the credential machine.  Whatever the
  others do between its table calls, one call of an operation is a stretch of a run of the
  machine that ends with the same result and the same table, so every theorem about the
  machine's reachable states speaks about what the code returns.
 */
module ServiceRuns {
  import opened Wrappers
  import opened Faults
  import opened Validation
  import opened Records
  import opened Base64
  import opened Table
  import opened M2MStore
  import opened Services
  import opened CredentialTable
  import C = Credentials
  import E = Exchanges
  import F = Lifecycle
  import L = RateLimiter

  /** What precedes one of the operation's table calls, and the version a read there returns. */
  datatype Meeting = Meeting(events: seq<Event>, version: nat)

  /** A step of another operation, or of the sweeper. */
  predicate Others(step: C.Step, pid: nat) {
    step.SweepCounter? || step.pid != pid
  }

  ghost predicate OthersOnly(events: seq<Event>, pid: nat) {
    forall i :: 0 <= i < |events| && events[i].Own? ==> Others(events[i].step, pid)
  }

  /** The machine when the operation's call is made. */
  function Before(limit: int, s: C.State, m: Meeting): C.State {
    After(limit, s, m.events)
  }

  /** The turn is made of the meeting's events, none of them the operation's own. */
  ghost predicate Faces(limit: int, h: History, turn: Turn, s: C.State, id: string, pid: nat, m: Meeting) {
    && turn.others == Calls(limit, s, id, m.events)
    && ElsewhereOnly(m.events, id) && OthersOnly(m.events, pid)
    && ClientAt(Seen(Played(h, turn.others), turn.lag), id) == C.Version(Before(limit, s, m), m.version)
  }

  /** For every lag there is a version that the read returns. */
  lemma SomeVersionIsRead(limit: int, h: History, s: C.State, id: string, events: seq<Event>,
      lag: nat) returns (version: nat)
    requires Tracks(h, s, id) && ElsewhereOnly(events, id)
    ensures ClientAt(Seen(Played(h, Calls(limit, s, id, events)), lag), id) ==
            C.Version(After(limit, s, events), version)
  {
    CredentialsOnTable(limit, h, s, id, events);
    var met, t := Played(h, Calls(limit, s, id, events)), After(limit, s, events);
    var i := if lag < |met| then |met| - 1 - lag else 0;
    assert ShowsVersion(met[i], t, id);
    version :| 0 <= version <= |t.past| && ClientAt(met[i], id) == C.Version(t, version);
  }

  // ---------------------------------------------------------------------------------------
  // One call
  // ---------------------------------------------------------------------------------------

  /** Other operations' steps leave this one where it is. */
  ghost predicate Untouched(s: C.State, t: C.State, pid: nat) {
    && (pid in t.procs <==> pid in s.procs)
    && (pid in s.procs ==> t.procs[pid] == s.procs[pid])
    && (pid in t.limiter.calls <==> pid in s.limiter.calls)
    && (pid in s.limiter.calls ==> t.limiter.calls[pid] == s.limiter.calls[pid])
  }

  lemma StepSpares(limit: int, s: C.State, step: C.Step, pid: nat)
    requires Others(step, pid)
    ensures Untouched(s, C.Next(Config(limit), s, step), pid)
  {
    var t := C.Next(Config(limit), s, step);
    if t != s && !step.SweepCounter? {
      if step.ExchangeTry? || step.ExchangeAdd? {
        BumpSpares(limit, s, step, pid);
      } else if step.ExchangeFinish? {
        C.FinishedMoves(s, step.pid, step.signed);
      } else {
        F.OthersKeepExchanges(Config(limit), s, step);
      }
    }
  }

  lemma BumpSpares(limit: int, s: C.State, step: C.Step, pid: nat)
    requires (step.ExchangeTry? || step.ExchangeAdd?) && step.pid != pid && C.Next(Config(limit), s, step) != s
    ensures Untouched(s, C.Next(Config(limit), s, step), pid)
  {
    C.ExchangeMoves(Config(limit), s, step);
    if !step.fault.Lost? {
      var bump := if step.ExchangeTry? then L.Try(step.pid, step.now) else L.Add(step.pid);
      var limiter := L.Next(s.limiter, Config(limit).seconds, bump);
      assert limiter.calls == s.limiter.calls || limiter.calls == s.limiter.calls[step.pid := limiter.calls[step.pid]];
      JudgedLimiter(limit, s.(limiter := limiter), step.pid, step.fault);
    }
  }

  lemma JudgedLimiter(limit: int, s: C.State, pid: nat, fault: Fault)
    requires pid in s.procs && (s.procs[pid].Bumping? || s.procs[pid].Adding?) && pid in s.limiter.calls
    ensures C.Judged(Config(limit), s, pid, fault).limiter == s.limiter
  {
  }

  lemma {:induction false} EventsSpare(limit: int, s: C.State, events: seq<Event>, pid: nat)
    requires OthersOnly(events, pid)
    ensures Untouched(s, After(limit, s, events), pid)
  {
    if events == [] {
    } else {
      var before, last := events[..|events| - 1], events[|events| - 1];
      assert OthersOnly(before, pid);
      EventsSpare(limit, s, before, pid);
      assert last == events[|events| - 1];
      if last.Own? {
        StepSpares(limit, After(limit, s, before), last.step, pid);
      }
    }
  }

  ghost predicate Tied(limit: int, h: seq<Items>, s: C.State, id: string) {
    |h| > 0 && C.Reached(Config(limit), s) && Tracks(h, s, id)
  }

  /** The others' events, then one step of the operation with its table call. */
  lemma OneCall(limit: int, h: History, turn: Turn, s: C.State, id: string, pid: nat, m: Meeting, step: C.Step)
    requires Tied(limit, h, s, id) && Faces(limit, h, turn, s, id, pid, m)
    ensures Tied(limit, Played(h, turn.others), Before(limit, s, m), id) && Untouched(s, Before(limit, s, m), pid)
    ensures var met := Played(h, turn.others);
            Tied(limit, Played(met, CredentialCalls(Before(limit, s, m), step, id)),
                 C.Next(Config(limit), Before(limit, s, m), step), id)
  {
    CredentialsOnTable(limit, h, s, id, m.events);
    EventsSpare(limit, s, m.events, pid);
    AfterIsRun(limit, s, m.events);
    C.RunReached(Config(limit), s, OwnSteps(m.events));
    var t := Before(limit, s, m);
    StepTracks(limit, Played(h, turn.others), t, step, id);
    C.RunSnoc(Config(limit), t, [], step);
    assert [] + [step] == [step];
    C.RunReached(Config(limit), t, [step]);
  }

  // ---------------------------------------------------------------------------------------
  // Create
  // ---------------------------------------------------------------------------------------

  function OutcomeOf(r: Result<string, Error>): C.Outcome {
    match r
    case Success(secret) => C.Secret(secret)
    case Failure(Malformed(_)) => C.Refused(C.BadFormat)
    case Failure(Exists) => C.Refused(C.ClientExists)
    case Failure(NotFound) => C.Refused(C.ClientNotFound)
    case Failure(Inactive) => C.Refused(C.ClientInactive)
    case Failure(Conflict) => C.Refused(C.RoundsConflict)
    case Failure(_) => C.Broken
  }

  function SecretFrom(random: Option<seq<Byte>>): Option<string> {
    if random.Some? then Some(SecretOf(random.value)) else None
  }

  /** The request reaches its table call. */
  predicate Creates(id: string, audiences: Audiences, random: Option<seq<Byte>>) {
    ValidName(id) && ValidAudiences(audiences) && random.Some?
  }

  /** The machine's steps of one CreateClient; its hash is salted with the operation's own name. */
  function Creating(limit: int, s: C.State, id: string, pid: nat, random: Option<seq<Byte>>, audiences: Audiences,
      m: Meeting, fault: Fault): C.State
  {
    var begun := CreateBegun(limit, s, id, pid, random, audiences);
    if !Creates(id, audiences, random) then begun
    else C.Next(Config(limit), Before(limit, begun, m), C.PutRecord(pid, fault))
  }

  function CreateBegun(limit: int, s: C.State, id: string, pid: nat, random: Option<seq<Byte>>,
      audiences: Audiences): C.State
  {
    C.Next(Config(limit), s, if ValidName(id) then C.BeginCreate(pid, SecretFrom(random), audiences) else C.Reject(pid))
  }

  lemma CreateRefines(limit: int, h: History, turns: seq<Turn>, s: C.State, id: string, pid: nat, audiences: Audiences,
      random: Option<seq<Byte>>, m: Meeting, r: Result<string, Error>, after: seq<Items>)
    requires Tied(limit, h, s, id) && pid !in s.procs && C.Generable(s, SecretFrom(random))
    requires Creation(h, turns, id, audiences, random, pid, r, after)
    requires Creates(id, audiences, random) ==>
               Faces(limit, h, First(turns), CreateBegun(limit, s, id, pid, random, audiences), id, pid, m)
    ensures var t := Creating(limit, s, id, pid, random, audiences, m, First(turns).fault);
            Tied(limit, after, t, id) && pid in t.procs && t.procs[pid] == C.Done(OutcomeOf(r))
  {
    CreateBegins(limit, h, s, id, pid, random, audiences);
    CreationOutcome(h, turns, id, audiences, random, pid, r, after);
    if Creates(id, audiences, random) {
      var begun, fault := CreateBegun(limit, s, id, pid, random, audiences), First(turns).fault;
      OneCall(limit, h, First(turns), begun, id, pid, m, C.PutRecord(pid, fault));
      CreatesAlike(limit, Met(h, turns, 0), Before(limit, begun, m), id, pid, SecretOf(random.value), audiences, fault);
    }
  }

  /** What is decided before the table call. */
  lemma CreateBegins(limit: int, h: History, s: C.State, id: string, pid: nat, random: Option<seq<Byte>>,
      audiences: Audiences)
    requires Tied(limit, h, s, id) && pid !in s.procs && C.Generable(s, SecretFrom(random))
    ensures var t := CreateBegun(limit, s, id, pid, random, audiences);
            && Tied(limit, h, t, id) && pid in t.procs
            && t.procs[pid] ==
               if !ValidName(id) || !ValidAudiences(audiences) then C.Done(C.Refused(C.BadFormat))
               else if random.None? then C.Done(C.Broken)
               else C.Creating(Hash(pid, SecretOf(random.value)), audiences)
  {
    Begins(limit, h, s, id, if ValidName(id) then C.BeginCreate(pid, SecretFrom(random), audiences) else C.Reject(pid));
  }

  lemma CreationOutcome(h: History, turns: seq<Turn>, id: string, audiences: Audiences, random: Option<seq<Byte>>,
      salt: nat, r: Result<string, Error>, after: seq<Items>)
    requires Creation(h, turns, id, audiences, random, salt, r, after)
    ensures OutcomeOf(r) ==
            if !ValidName(id) || !ValidAudiences(audiences) then C.Refused(C.BadFormat)
            else if random.None? || First(turns).fault != NoFault then C.Broken
            else if ClientAt(Now(Met(h, turns, 0)), id).Some? then C.Refused(C.ClientExists)
            else C.Secret(SecretOf(random.value))
    ensures !Creates(id, audiences, random) ==> after == h
  {
  }

  /** Before anything has happened. */
  lemma EmptyTableIsTied(limit: int, id: string)
    ensures Tied(limit, [map[]], C.INIT, id)
  {
    assert C.INIT == C.Run(Config(limit), C.INIT, []);
    assert ClientAt(map[], id) == C.Version(C.INIT, 0);
  }

  /** A step without a table call. */
  lemma Begins(limit: int, h: History, s: C.State, id: string, step: C.Step)
    requires Tied(limit, h, s, id) && CredentialCalls(s, step, id) == []
    ensures Tied(limit, h, C.Next(Config(limit), s, step), id)
  {
    StepTracks(limit, h, s, step, id);
    assert [] + [step] == [step];
    C.RunSnoc(Config(limit), s, [], step);
    C.RunReached(Config(limit), s, [step]);
  }

  lemma CreatesAlike(limit: int, met: History, s: C.State, id: string, pid: nat, secret: string, audiences: Audiences,
      fault: Fault)
    requires pid in s.procs && s.procs[pid] == C.Creating(Hash(pid, secret), audiences)
    requires ClientAt(Now(met), id) == s.current
    ensures var step := C.PutRecord(pid, fault);
            var t := C.Next(Config(limit), s, step);
            var record := Record([Hash(pid, secret)], audiences, true);
            && Played(met, CredentialCalls(s, step, id)) ==
               (if s.current.None? && !fault.Lost? then met + [WithClient(Now(met), id, record)] else met)
            && pid in t.procs
            && t.procs[pid] == C.Done(if fault != NoFault then C.Broken
                                      else if s.current.Some? then C.Refused(C.ClientExists)
                                      else C.Secret(secret))
  {
    var calls := CredentialCalls(s, C.PutRecord(pid, fault), id);
    if calls != [] {
      PlayedOne(met, calls[0]);
    }
  }

  // ---------------------------------------------------------------------------------------
  // Rotate
  // ---------------------------------------------------------------------------------------

  /** The machine's steps of one RotateClient; it stops as soon as the operation is done. */
  function Rotating(limit: int, s: C.State, id: string, pid: nat, random: Option<seq<Byte>>, turns: seq<Turn>,
      m0: Meeting, m1: Meeting, m2: Meeting): C.State
  {
    if !ValidName(id) then C.Next(Config(limit), s, C.Reject(pid))
    else
      var read := RotationRead(limit, s, pid, random, turns, m0);
      if pid !in read.procs || !read.procs[pid].Swapping? then read
      else Swapping(limit, read, pid, Rest(turns), m1, m2)
  }

  function RotationRead(limit: int, s: C.State, pid: nat, random: Option<seq<Byte>>, turns: seq<Turn>,
      m: Meeting): C.State
  {
    C.Next(Config(limit), Before(limit, s, m), C.RotateRead(pid, m.version, SecretFrom(random), First(turns).fault))
  }

  function Swapping(limit: int, s: C.State, pid: nat, turns: seq<Turn>, m1: Meeting, m2: Meeting): C.State {
    var swapped := C.Next(Config(limit), Before(limit, s, m1), C.RotateSwap(pid, First(turns).fault));
    if pid !in swapped.procs || !swapped.procs[pid].Rereading? then swapped
    else C.Next(Config(limit), Before(limit, swapped, m2), C.RotateReread(pid, m2.version, First(Rest(turns)).fault))
  }

  /** What precedes the swap and the read after a refused swap. */
  ghost predicate FacesSwap(limit: int, h: History, turns: seq<Turn>, s: C.State, id: string, pid: nat, m1: Meeting,
      m2: Meeting)
  {
    var swapped := C.Next(Config(limit), Before(limit, s, m1), C.RotateSwap(pid, First(turns).fault));
    && Faces(limit, h, First(turns), s, id, pid, m1)
    && (pid in swapped.procs && swapped.procs[pid].Rereading? ==>
          Faces(limit, Met(h, turns, 0), First(Rest(turns)), swapped, id, pid, m2))
  }

  /** What precedes the table calls of a rotation, and a secret that is new when it is generated. */
  ghost predicate FacesRotation(limit: int, h: History, turns: seq<Turn>, s: C.State, id: string, pid: nat,
      random: Option<seq<Byte>>, m0: Meeting, m1: Meeting, m2: Meeting)
  {
    var read := RotationRead(limit, s, pid, random, turns, m0);
    && Faces(limit, h, First(turns), s, id, pid, m0) && C.Generable(Before(limit, s, m0), SecretFrom(random))
    && (pid in read.procs && read.procs[pid].Swapping? ==>
          FacesSwap(limit, Met(h, turns, 0), Rest(turns), read, id, pid, m1, m2))
  }

  lemma RotateRefines(limit: int, h: History, turns: seq<Turn>, s: C.State, id: string, pid: nat,
      random: Option<seq<Byte>>, m0: Meeting, m1: Meeting, m2: Meeting, r: Result<string, Error>, after: seq<Items>)
    requires Tied(limit, h, s, id) && pid !in s.procs
    requires Rotation(h, turns, id, random, pid, r, after)
    requires ValidName(id) ==> FacesRotation(limit, h, turns, s, id, pid, random, m0, m1, m2)
    ensures var t := Rotating(limit, s, id, pid, random, turns, m0, m1, m2);
            Tied(limit, after, t, id) && pid in t.procs && t.procs[pid] == C.Done(OutcomeOf(r))
  {
    if ValidName(id) {
      WellFormedRotateRefines(limit, h, turns, s, id, pid, random, m0, m1, m2, r, after);
    } else {
      Rejects(limit, h, s, id, pid);
    }
  }

  lemma Rejects(limit: int, h: History, s: C.State, id: string, pid: nat)
    requires Tied(limit, h, s, id) && pid !in s.procs
    ensures var t := C.Next(Config(limit), s, C.Reject(pid));
            Tied(limit, h, t, id) && pid in t.procs && t.procs[pid] == C.Done(C.Refused(C.BadFormat))
  {
    Begins(limit, h, s, id, C.Reject(pid));
  }

  lemma WellFormedRotateRefines(limit: int, h: History, turns: seq<Turn>, s: C.State, id: string, pid: nat,
      random: Option<seq<Byte>>, m0: Meeting, m1: Meeting, m2: Meeting, r: Result<string, Error>, after: seq<Items>)
    requires Tied(limit, h, s, id) && pid !in s.procs && ValidName(id)
    requires Rotation(h, turns, id, random, pid, r, after)
    requires FacesRotation(limit, h, turns, s, id, pid, random, m0, m1, m2)
    ensures var t := Rotating(limit, s, id, pid, random, turns, m0, m1, m2);
            Tied(limit, after, t, id) && pid in t.procs && t.procs[pid] == C.Done(OutcomeOf(r))
  {
    var read := RotationRead(limit, s, pid, random, turns, m0);
    RotationReads(limit, h, turns, s, id, pid, random, m0);
    ReadsAlike(limit, Before(limit, s, m0), pid, m0.version, random, First(turns).fault);
    if read.procs[pid].Swapping? {
      RotationSwaps(h, turns, id, random, pid, r, after);
      SwapRefines(limit, Met(h, turns, 0), Rest(turns), read, id, pid, m1, m2,
                  read.procs[pid].hash, read.procs[pid].base, r, after);
    } else {
      RotationStops(h, turns, id, random, pid, r, after);
    }
  }

  lemma RotationSwaps(h: History, turns: seq<Turn>, id: string, random: Option<seq<Byte>>, salt: nat,
      r: Result<string, Error>, after: seq<Items>)
    requires ValidName(id) && Rotation(h, turns, id, random, salt, r, after) && random.Some?
    requires First(turns).fault == NoFault && Snapshot(h, turns, id).Some? && Snapshot(h, turns, id).value.active
    ensures Swapped(Met(h, turns, 0), Rest(turns), id, Hash(salt, SecretOf(random.value)),
                    Snapshot(h, turns, id).value.rounds, r, after)
  {
  }

  lemma RotationStops(h: History, turns: seq<Turn>, id: string, random: Option<seq<Byte>>, salt: nat,
      r: Result<string, Error>, after: seq<Items>)
    requires ValidName(id) && Rotation(h, turns, id, random, salt, r, after)
    requires First(turns).fault == NoFault && random.Some? ==>
               Snapshot(h, turns, id).None? || !Snapshot(h, turns, id).value.active
    ensures after == Met(h, turns, 0)
    ensures OutcomeOf(r) == if First(turns).fault != NoFault then C.Broken
                            else if Snapshot(h, turns, id).None? then C.Refused(C.ClientNotFound)
                            else if !Snapshot(h, turns, id).value.active then C.Refused(C.ClientInactive)
                            else C.Broken
  {
  }

  /** A turn whose call only reads. */
  lemma OneRead(limit: int, h: History, turn: Turn, s: C.State, id: string, pid: nat, m: Meeting, step: C.Step)
    requires Tied(limit, h, s, id) && Faces(limit, h, turn, s, id, pid, m)
    requires step.RotateRead? || step.ExchangeRead?
    ensures Tied(limit, Played(h, turn.others), C.Next(Config(limit), Before(limit, s, m), step), id)
    ensures Untouched(s, Before(limit, s, m), pid)
  {
    OneCall(limit, h, turn, s, id, pid, m, step);
    assert CredentialCalls(Before(limit, s, m), step, id) == [];
  }

  lemma RotationReads(limit: int, h: History, turns: seq<Turn>, s: C.State, id: string, pid: nat,
      random: Option<seq<Byte>>, m0: Meeting)
    requires Tied(limit, h, s, id) && pid !in s.procs && Faces(limit, h, First(turns), s, id, pid, m0)
    ensures Tied(limit, Met(h, turns, 0), RotationRead(limit, s, pid, random, turns, m0), id)
    ensures pid !in Before(limit, s, m0).procs
    ensures Snapshot(h, turns, id) == C.Version(Before(limit, s, m0), m0.version)
  {
    var step := C.RotateRead(pid, m0.version, SecretFrom(random), First(turns).fault);
    OneRead(limit, h, First(turns), s, id, pid, m0, step);
  }

  lemma ReadsAlike(limit: int, s: C.State, pid: nat, version: nat, random: Option<seq<Byte>>, fault: Fault)
    requires pid !in s.procs && C.Generable(s, SecretFrom(random))
    ensures var v := C.Version(s, version);
            var t := C.Next(Config(limit), s, C.RotateRead(pid, version, SecretFrom(random), fault));
            && pid in t.procs
            && t.procs[pid] ==
               (if fault != NoFault then C.Done(C.Broken)
                else if v.None? then C.Done(C.Refused(C.ClientNotFound))
                else if !v.value.active then C.Done(C.Refused(C.ClientInactive))
                else if random.None? then C.Done(C.Broken)
                else C.Swapping(Hash(pid, SecretOf(random.value)), v.value.rounds))
  {
  }

  lemma SwapRefines(limit: int, h: History, turns: seq<Turn>, s: C.State, id: string, pid: nat, m1: Meeting,
      m2: Meeting, hash: Hash, base: seq<Hash>, r: Result<string, Error>, after: seq<Items>)
    requires Tied(limit, h, s, id) && pid in s.procs && s.procs[pid] == C.Swapping(hash, base)
    requires Swapped(h, turns, id, hash, base, r, after)
    requires FacesSwap(limit, h, turns, s, id, pid, m1, m2)
    ensures var t := Swapping(limit, s, pid, turns, m1, m2);
            Tied(limit, after, t, id) && pid in t.procs && t.procs[pid] == C.Done(OutcomeOf(r))
  {
    SwappedOutcome(h, turns, id, hash, base, r, after);
    SwapTried(limit, h, turns, s, id, pid, m1, hash, base);
    var swapped := C.Next(Config(limit), Before(limit, s, m1), C.RotateSwap(pid, First(turns).fault));
    if swapped.procs[pid].Rereading? {
      RefusalExplained(limit, Met(h, turns, 0), Rest(turns), swapped, id, pid, m2);
    }
  }

  lemma SwapTried(limit: int, h: History, turns: seq<Turn>, s: C.State, id: string, pid: nat, m1: Meeting, hash: Hash,
      base: seq<Hash>)
    requires Tied(limit, h, s, id) && pid in s.procs && s.procs[pid] == C.Swapping(hash, base)
    requires Faces(limit, h, First(turns), s, id, pid, m1)
    ensures var met, fault := Met(h, turns, 0), First(turns).fault;
            var stored := ClientAt(Now(met), id);
            var matches := stored.Some? && stored.value.rounds == base;
            var t := C.Next(Config(limit), Before(limit, s, m1), C.RotateSwap(pid, fault));
            && Tied(limit, if matches && !fault.Lost?
                    then met + [WithClient(Now(met), id, stored.value.(rounds := NextRounds(hash, base)))]
                    else met, t, id)
            && pid in t.procs
            && t.procs[pid] == (if fault != NoFault then C.Done(C.Broken)
                                else if matches then C.Done(C.Secret(hash.secret))
                                else C.Rereading)
  {
    OneCall(limit, h, First(turns), s, id, pid, m1, C.RotateSwap(pid, First(turns).fault));
    SwapsAlike(limit, Met(h, turns, 0), Before(limit, s, m1), id, pid, hash, base, First(turns).fault);
  }

  lemma RefusalExplained(limit: int, h: History, turns: seq<Turn>, s: C.State, id: string, pid: nat, m2: Meeting)
    requires Tied(limit, h, s, id) && pid in s.procs && s.procs[pid].Rereading?
    requires Faces(limit, h, First(turns), s, id, pid, m2)
    ensures var t := C.Next(Config(limit), Before(limit, s, m2), C.RotateReread(pid, m2.version, First(turns).fault));
            && Tied(limit, Met(h, turns, 0), t, id) && pid in t.procs
            && t.procs[pid] == C.Done(if First(turns).fault != NoFault then C.Broken
                                      else C.Refused(if Snapshot(h, turns, id).None? then C.ClientNotFound
                                                     else C.RoundsConflict))
  {
    var reread := C.RotateReread(pid, m2.version, First(turns).fault);
    OneCall(limit, h, First(turns), s, id, pid, m2, reread);
    RereadsAlike(limit, Before(limit, s, m2), pid, m2.version, First(turns).fault);
    assert CredentialCalls(Before(limit, s, m2), reread, id) == [];
  }

  lemma SwappedOutcome(h: History, turns: seq<Turn>, id: string, hash: Hash, base: seq<Hash>, r: Result<string, Error>,
      after: seq<Items>)
    requires Swapped(h, turns, id, hash, base, r, after)
    ensures var stored := ClientAt(Now(Met(h, turns, 0)), id);
            OutcomeOf(r) ==
            if First(turns).fault != NoFault then C.Broken
            else if stored.Some? && stored.value.rounds == base then C.Secret(hash.secret)
            else if First(Rest(turns)).fault != NoFault then C.Broken
            else if Snapshot(Met(h, turns, 0), Rest(turns), id).None? then C.Refused(C.ClientNotFound)
            else C.Refused(C.RoundsConflict)
  {
  }

  lemma SwapsAlike(limit: int, met: History, s: C.State, id: string, pid: nat, hash: Hash, base: seq<Hash>,
      fault: Fault)
    requires pid in s.procs && s.procs[pid] == C.Swapping(hash, base)
    requires ClientAt(Now(met), id) == s.current
    ensures var step := C.RotateSwap(pid, fault);
            var t := C.Next(Config(limit), s, step);
            var matches := s.current.Some? && s.current.value.rounds == base;
            && Played(met, CredentialCalls(s, step, id)) ==
               (if matches && !fault.Lost?
                then met + [WithClient(Now(met), id, s.current.value.(rounds := NextRounds(hash, base)))] else met)
            && pid in t.procs
            && t.procs[pid] == (if fault != NoFault then C.Done(C.Broken)
                                else if matches then C.Done(C.Secret(hash.secret))
                                else C.Rereading)
  {
    var calls := CredentialCalls(s, C.RotateSwap(pid, fault), id);
    if calls != [] {
      PlayedOne(met, calls[0]);
    }
  }

  lemma RereadsAlike(limit: int, s: C.State, pid: nat, version: nat, fault: Fault)
    requires pid in s.procs && s.procs[pid].Rereading?
    ensures var t := C.Next(Config(limit), s, C.RotateReread(pid, version, fault));
            && pid in t.procs
            && t.procs[pid] == C.Done(if fault != NoFault then C.Broken
                                      else C.Refused(if C.Version(s, version).None? then C.ClientNotFound
                                                     else C.RoundsConflict))
  {
  }

  // ---------------------------------------------------------------------------------------
  // Revoke and update
  // ---------------------------------------------------------------------------------------

  function AcceptanceOf(r: Result<Record, Error>): C.Outcome {
    match r
    case Success(_) => C.Accepted
    case Failure(Malformed(_)) => C.Refused(C.BadFormat)
    case Failure(NotFound) => C.Refused(C.ClientNotFound)
    case Failure(_) => C.Broken
  }

  /** The machine's step of one RevokeClient; a malformed request makes no table call. */
  function Revoking(limit: int, s: C.State, id: string, pid: nat, m: Meeting, fault: Fault): C.State {
    if !ValidName(id) then C.Next(Config(limit), s, C.Reject(pid))
    else C.Next(Config(limit), Before(limit, s, m), C.Revoke(pid, fault))
  }

  lemma RevokeRefines(limit: int, h: History, turns: seq<Turn>, s: C.State, id: string, pid: nat, m: Meeting,
      r: Result<Record, Error>, after: seq<Items>)
    requires Tied(limit, h, s, id) && pid !in s.procs
    requires ValidName(id) ==> Faces(limit, h, First(turns), s, id, pid, m)
    requires Revocation(h, turns, id, r, after)
    ensures var t := Revoking(limit, s, id, pid, m, First(turns).fault);
            Tied(limit, after, t, id) && pid in t.procs && t.procs[pid] == C.Done(AcceptanceOf(r))
  {
    if ValidName(id) {
      RevokeTried(limit, h, turns, s, id, pid, m);
    } else {
      Rejects(limit, h, s, id, pid);
    }
    RevocationOutcome(h, turns, id, r, after);
  }

  lemma RevocationOutcome(h: History, turns: seq<Turn>, id: string, r: Result<Record, Error>, after: seq<Items>)
    requires Revocation(h, turns, id, r, after)
    ensures AcceptanceOf(r) == if !ValidName(id) then C.Refused(C.BadFormat)
                               else if First(turns).fault != NoFault then C.Broken
                               else if ClientAt(Now(Met(h, turns, 0)), id).None? then C.Refused(C.ClientNotFound)
                               else C.Accepted
  {
  }

  lemma RevokeTried(limit: int, h: History, turns: seq<Turn>, s: C.State, id: string, pid: nat, m: Meeting)
    requires Tied(limit, h, s, id) && pid !in s.procs && Faces(limit, h, First(turns), s, id, pid, m)
    ensures var met, fault := Met(h, turns, 0), First(turns).fault;
            var stored, t := ClientAt(Now(met), id), C.Next(Config(limit), Before(limit, s, m), C.Revoke(pid, fault));
            && Tied(limit, if stored.Some? && !fault.Lost?
                    then met + [WithClient(Now(met), id, stored.value.(active := false))] else met, t, id)
            && pid in t.procs
            && t.procs[pid] == C.Done(if fault != NoFault then C.Broken
                                      else if stored.None? then C.Refused(C.ClientNotFound)
                                      else C.Accepted)
  {
    OneCall(limit, h, First(turns), s, id, pid, m, C.Revoke(pid, First(turns).fault));
    RevokesAlike(limit, Met(h, turns, 0), Before(limit, s, m), id, pid, First(turns).fault);
  }

  lemma RevokesAlike(limit: int, met: History, s: C.State, id: string, pid: nat, fault: Fault)
    requires pid !in s.procs && ClientAt(Now(met), id) == s.current
    ensures var step := C.Revoke(pid, fault);
            var t := C.Next(Config(limit), s, step);
            && Played(met, CredentialCalls(s, step, id)) ==
               (if s.current.Some? && !fault.Lost?
                then met + [WithClient(Now(met), id, s.current.value.(active := false))] else met)
            && pid in t.procs
            && t.procs[pid] == C.Done(if fault != NoFault then C.Broken
                                      else if s.current.None? then C.Refused(C.ClientNotFound)
                                      else C.Accepted)
  {
    var calls := CredentialCalls(s, C.Revoke(pid, fault), id);
    if calls != [] {
      PlayedOne(met, calls[0]);
    }
  }

  /** The machine's step of one UpdateClient; a malformed request makes no table call. */
  function Replacing(limit: int, s: C.State, id: string, pid: nat, audiences: Audiences, m: Meeting,
      fault: Fault): C.State
  {
    if !ValidName(id) || !ValidAudiences(audiences) then C.Next(Config(limit), s, C.Reject(pid))
    else C.Next(Config(limit), Before(limit, s, m), C.Patch(pid, audiences, fault))
  }

  lemma UpdateRefines(limit: int, h: History, turns: seq<Turn>, s: C.State, id: string, pid: nat, audiences: Audiences,
      m: Meeting, r: Result<Record, Error>, after: seq<Items>)
    requires Tied(limit, h, s, id) && pid !in s.procs
    requires ValidName(id) && ValidAudiences(audiences) ==> Faces(limit, h, First(turns), s, id, pid, m)
    requires Replacement(h, turns, id, audiences, r, after)
    ensures var t := Replacing(limit, s, id, pid, audiences, m, First(turns).fault);
            Tied(limit, after, t, id) && pid in t.procs && t.procs[pid] == C.Done(AcceptanceOf(r))
  {
    if ValidName(id) && ValidAudiences(audiences) {
      UpdateTried(limit, h, turns, s, id, pid, audiences, m);
    } else {
      Rejects(limit, h, s, id, pid);
    }
    ReplacementOutcome(h, turns, id, audiences, r, after);
  }

  lemma ReplacementOutcome(h: History, turns: seq<Turn>, id: string, audiences: Audiences, r: Result<Record, Error>,
      after: seq<Items>)
    requires Replacement(h, turns, id, audiences, r, after)
    ensures AcceptanceOf(r) == if !ValidName(id) || !ValidAudiences(audiences) then C.Refused(C.BadFormat)
                               else if First(turns).fault != NoFault then C.Broken
                               else if ClientAt(Now(Met(h, turns, 0)), id).None? then C.Refused(C.ClientNotFound)
                               else C.Accepted
  {
  }

  lemma UpdateTried(limit: int, h: History, turns: seq<Turn>, s: C.State, id: string, pid: nat, audiences: Audiences,
      m: Meeting)
    requires Tied(limit, h, s, id) && pid !in s.procs && Faces(limit, h, First(turns), s, id, pid, m)
    requires ValidAudiences(audiences)
    ensures var met, fault := Met(h, turns, 0), First(turns).fault;
            var stored := ClientAt(Now(met), id);
            var t := C.Next(Config(limit), Before(limit, s, m), C.Patch(pid, audiences, fault));
            && Tied(limit, if stored.Some? && !fault.Lost?
                    then met + [WithClient(Now(met), id, stored.value.(audiences := audiences))] else met, t, id)
            && pid in t.procs
            && t.procs[pid] == C.Done(if fault != NoFault then C.Broken
                                      else if stored.None? then C.Refused(C.ClientNotFound)
                                      else C.Accepted)
  {
    OneCall(limit, h, First(turns), s, id, pid, m, C.Patch(pid, audiences, First(turns).fault));
    ReplacesAlike(limit, Met(h, turns, 0), Before(limit, s, m), id, pid, audiences, First(turns).fault);
  }

  lemma ReplacesAlike(limit: int, met: History, s: C.State, id: string, pid: nat, audiences: Audiences, fault: Fault)
    requires pid !in s.procs && ClientAt(Now(met), id) == s.current && ValidAudiences(audiences)
    ensures var step := C.Patch(pid, audiences, fault);
            var t := C.Next(Config(limit), s, step);
            && Played(met, CredentialCalls(s, step, id)) ==
               (if s.current.Some? && !fault.Lost?
                then met + [WithClient(Now(met), id, s.current.value.(audiences := audiences))] else met)
            && pid in t.procs
            && t.procs[pid] == C.Done(if fault != NoFault then C.Broken
                                      else if s.current.None? then C.Refused(C.ClientNotFound)
                                      else C.Accepted)
  {
    var calls := CredentialCalls(s, C.Patch(pid, audiences, fault), id);
    if calls != [] {
      PlayedOne(met, calls[0]);
    }
  }

  // ---------------------------------------------------------------------------------------
  // Exchange
  // ---------------------------------------------------------------------------------------

  function VerdictOf(r: Result<MachineToken, Error>): C.Outcome {
    match r
    case Success(_) => C.Minted
    case Failure(InvalidCredentials) => C.Refused(C.InvalidCredentials)
    case Failure(AudienceNotAllowed) => C.Refused(C.AudienceNotAllowed)
    case Failure(RateLimited) => C.Refused(C.RateLimited)
    case Failure(_) => C.Broken
  }

  /** The machine's steps of one Exchange. */
  function Exchanging(limit: int, s: C.State, pid: nat, secret: string, audience: string, now: int, signs: bool,
      turns: seq<Turn>, m0: Meeting, m1: Meeting, m2: Meeting): C.State
  {
    var read := ExchangeRead(limit, s, pid, secret, audience, turns, m0);
    if pid !in read.procs || !read.procs[pid].Bumping? then read
    else Concluding(limit, Counting(limit, read, pid, now, Rest(turns), m1, m2), pid, signs)
  }

  function ExchangeRead(limit: int, s: C.State, pid: nat, secret: string, audience: string, turns: seq<Turn>,
      m: Meeting): C.State
  {
    C.Next(Config(limit), Before(limit, s, m), C.ExchangeRead(pid, m.version, secret, audience, First(turns).fault))
  }

  function Counting(limit: int, s: C.State, pid: nat, now: int, turns: seq<Turn>, m1: Meeting, m2: Meeting): C.State {
    var tried := C.Next(Config(limit), Before(limit, s, m1), C.ExchangeTry(pid, now, First(turns).fault));
    if pid !in tried.procs || !tried.procs[pid].Adding? then tried
    else C.Next(Config(limit), Before(limit, tried, m2), C.ExchangeAdd(pid, First(Rest(turns)).fault))
  }

  function Concluding(limit: int, s: C.State, pid: nat, signs: bool): C.State {
    if pid !in s.procs || !s.procs[pid].Admitted? then s else C.Next(Config(limit), s, C.ExchangeFinish(pid, signs))
  }

  /** What precedes the two updates of the count. */
  ghost predicate FacesCount(limit: int, h: History, turns: seq<Turn>, s: C.State, id: string, pid: nat, now: int,
      m1: Meeting, m2: Meeting)
  {
    var tried := C.Next(Config(limit), Before(limit, s, m1), C.ExchangeTry(pid, now, First(turns).fault));
    && Faces(limit, h, First(turns), s, id, pid, m1)
    && (pid in tried.procs && tried.procs[pid].Adding? ==>
          Faces(limit, Met(h, turns, 0), First(Rest(turns)), tried, id, pid, m2))
  }

  /** What the exchange does with the answer to its count. */
  function Counted(limit: int, count: int, version: nat, snapshot: Record, secret: string, audience: string): C.Proc {
    if count > limit then C.Done(C.Refused(C.RateLimited)) else C.Admitted(version, snapshot, secret, audience)
  }

  lemma StoredBump(met: History, call: Call, id: string, now: int)
    requires call == StartWindow(id, now) || call == AddWindow(id, now)
    ensures RateAt(Now(Written(met, call)), id) == RateStep(RateAt(Now(met), id), id, call)
    ensures Condition(Now(met), call) <==> call.AddWindow? || L.Startable(RateAt(Now(met), id), now)
  {
    ApplySteps(Now(met), call, id);
  }

  lemma TriesCall(limit: int, met: History, s: C.State, id: string, pid: nat, now: int, fault: Fault)
    requires pid in s.procs && s.procs[pid].Bumping? && pid !in s.limiter.calls
    ensures Played(met, CredentialCalls(s, C.ExchangeTry(pid, now, fault), id)) ==
            if fault.Lost? then met else Written(met, StartWindow(id, now))
  {
    if !fault.Lost? {
      PlayedOne(met, StartWindow(id, now));
    }
  }

  lemma TriesAlike(limit: int, met: History, s: C.State, id: string, pid: nat, now: int, fault: Fault)
    requires pid in s.procs && s.procs[pid].Bumping? && pid !in s.limiter.calls
    requires RateAt(Now(met), id) == s.limiter.item
    ensures var p, t := s.procs[pid], C.Next(Config(limit), s, C.ExchangeTry(pid, now, fault));
            var after := if fault.Lost? then met else Written(met, StartWindow(id, now));
            var live := !L.Startable(RateAt(Now(met), id), now);
            && pid in t.procs
            && t.procs[pid] == (if fault != NoFault then C.Done(C.Broken)
                                else if live then C.Adding(p.version, p.snapshot, p.secret, p.audience)
                                else Counted(limit, CountAt(after, id), p.version, p.snapshot, p.secret, p.audience))
            && (t.procs[pid].Adding? ==> pid in t.limiter.calls && t.limiter.calls[pid] == L.Missed(now))
  {
    StoredBump(met, StartWindow(id, now), id, now);
  }

  lemma AddsCall(limit: int, met: History, s: C.State, id: string, pid: nat, now: int, fault: Fault)
    requires pid in s.procs && s.procs[pid].Adding? && pid in s.limiter.calls && s.limiter.calls[pid] == L.Missed(now)
    ensures Played(met, CredentialCalls(s, C.ExchangeAdd(pid, fault), id)) ==
            if fault.Lost? then met else Written(met, AddWindow(id, now))
  {
    if !fault.Lost? {
      PlayedOne(met, AddWindow(id, now));
    }
  }

  lemma AddsAlike(limit: int, met: History, s: C.State, id: string, pid: nat, now: int, fault: Fault)
    requires pid in s.procs && s.procs[pid].Adding? && pid in s.limiter.calls && s.limiter.calls[pid] == L.Missed(now)
    requires RateAt(Now(met), id) == s.limiter.item
    ensures var p, t := s.procs[pid], C.Next(Config(limit), s, C.ExchangeAdd(pid, fault));
            var after := if fault.Lost? then met else Written(met, AddWindow(id, now));
            && pid in t.procs
            && t.procs[pid] == (if fault != NoFault then C.Done(C.Broken)
                                else Counted(limit, CountAt(after, id), p.version, p.snapshot, p.secret, p.audience))
  {
    StoredBump(met, AddWindow(id, now), id, now);
  }

  lemma CountRefines(limit: int, h: History, turns: seq<Turn>, s: C.State, id: string, pid: nat, now: int, m1: Meeting,
      m2: Meeting)
    requires Tied(limit, h, s, id) && pid in s.procs && s.procs[pid].Bumping? && pid !in s.limiter.calls
    requires FacesCount(limit, h, turns, s, id, pid, now, m1, m2)
    ensures var p, t := s.procs[pid], Counting(limit, s, pid, now, turns, m1, m2);
            && Tied(limit, AfterCount(h, turns, id, now), t, id) && pid in t.procs
            && t.procs[pid] ==
               if CountAnswered(h, turns, id, now)
               then Counted(limit, CountAt(AfterCount(h, turns, id, now), id),
                            p.version, p.snapshot, p.secret, p.audience)
               else C.Done(C.Broken)
  {
    TryRefines(limit, h, turns, s, id, pid, now, m1);
    var tried := C.Next(Config(limit), Before(limit, s, m1), C.ExchangeTry(pid, now, First(turns).fault));
    if tried.procs[pid].Adding? {
      AddRefines(limit, Met(h, turns, 0), Rest(turns), tried, id, pid, now, m2);
    }
  }

  lemma TryRefines(limit: int, h: History, turns: seq<Turn>, s: C.State, id: string, pid: nat, now: int, m1: Meeting)
    requires Tied(limit, h, s, id) && pid in s.procs && s.procs[pid].Bumping? && pid !in s.limiter.calls
    requires Faces(limit, h, First(turns), s, id, pid, m1)
    ensures var p, fault, met := s.procs[pid], First(turns).fault, Met(h, turns, 0);
            var t := C.Next(Config(limit), Before(limit, s, m1), C.ExchangeTry(pid, now, fault));
            var after := if fault.Lost? then met else Written(met, StartWindow(id, now));
            && Tied(limit, after, t, id) && pid in t.procs
            && t.procs[pid] == (if fault != NoFault then C.Done(C.Broken)
                                else if WindowLive(h, turns, id, now)
                                then C.Adding(p.version, p.snapshot, p.secret, p.audience)
                                else Counted(limit, CountAt(after, id), p.version, p.snapshot, p.secret, p.audience))
            && (t.procs[pid].Adding? ==>
                  after == met && pid in t.limiter.calls && t.limiter.calls[pid] == L.Missed(now))
  {
    OneCall(limit, h, First(turns), s, id, pid, m1, C.ExchangeTry(pid, now, First(turns).fault));
    TriesCall(limit, Met(h, turns, 0), Before(limit, s, m1), id, pid, now, First(turns).fault);
    TriesAlike(limit, Met(h, turns, 0), Before(limit, s, m1), id, pid, now, First(turns).fault);
  }

  lemma AddRefines(limit: int, h: History, turns: seq<Turn>, s: C.State, id: string, pid: nat, now: int, m2: Meeting)
    requires Tied(limit, h, s, id) && pid in s.procs && s.procs[pid].Adding?
    requires pid in s.limiter.calls && s.limiter.calls[pid] == L.Missed(now)
    requires Faces(limit, h, First(turns), s, id, pid, m2)
    ensures var p, fault, met := s.procs[pid], First(turns).fault, Met(h, turns, 0);
            var t := C.Next(Config(limit), Before(limit, s, m2), C.ExchangeAdd(pid, fault));
            var after := if fault.Lost? then met else Written(met, AddWindow(id, now));
            && Tied(limit, after, t, id) && pid in t.procs
            && t.procs[pid] == (if fault != NoFault then C.Done(C.Broken)
                                else Counted(limit, CountAt(after, id), p.version, p.snapshot, p.secret, p.audience))
  {
    OneCall(limit, h, First(turns), s, id, pid, m2, C.ExchangeAdd(pid, First(turns).fault));
    AddsCall(limit, Met(h, turns, 0), Before(limit, s, m2), id, pid, now, First(turns).fault);
    AddsAlike(limit, Met(h, turns, 0), Before(limit, s, m2), id, pid, now, First(turns).fault);
  }

  lemma StartsAlike(limit: int, s: C.State, pid: nat, version: nat, secret: string, audience: string, fault: Fault)
    requires pid !in s.procs
    ensures var v := C.Version(s, version);
            var t := C.Next(Config(limit), s, C.ExchangeRead(pid, version, secret, audience, fault));
            && pid in t.procs && t.limiter == s.limiter
            && t.procs[pid] == (if fault != NoFault then C.Done(C.Broken)
                                else if !Usable(v) then C.Done(C.Refused(C.InvalidCredentials))
                                else C.Bumping(C.ReadAt(s, version), v.value, secret, audience))
  {
  }

  lemma FinishesAlike(limit: int, s: C.State, id: string, pid: nat, signs: bool, count: int)
    requires pid in s.procs && s.procs[pid].Admitted? && count <= limit
    ensures var p, t := s.procs[pid], C.Next(Config(limit), s, C.ExchangeFinish(pid, signs));
            var r := Judgement(count, limit, p.snapshot, id, p.secret, p.audience, signs);
            && pid in t.procs && t.procs[pid] == C.Done(VerdictOf(r))
            && (r.Success? ==>
                  && pid in t.tokens
                  && t.tokens[pid] == C.Token(p.version, p.secret, r.value.audience, r.value.scopes))
  {
  }

  /** After the count: the token of the finished exchange, if it minted one, is the one the code returns. */
  lemma ConcludeRefines(limit: int, after: History, s: C.State, id: string, pid: nat, answered: bool, version: nat,
      snapshot: Record, secret: string, audience: string, signs: bool)
    requires Tied(limit, after, s, id) && pid in s.procs
    requires s.procs[pid] ==
             if answered then Counted(limit, CountAt(after, id), version, snapshot, secret, audience)
             else C.Done(C.Broken)
    ensures var t := Concluding(limit, s, pid, signs);
            var r := if answered
                     then Judgement(CountAt(after, id), limit, snapshot, id, secret, audience, signs)
                     else Failure(Failed);
            && Tied(limit, after, t, id) && pid in t.procs && t.procs[pid] == C.Done(VerdictOf(r))
            && (r.Success? ==>
                  pid in t.tokens && t.tokens[pid] == C.Token(version, secret, r.value.audience, r.value.scopes))
  {
    if answered && CountAt(after, id) <= limit {
      FinishesAlike(limit, s, id, pid, signs, CountAt(after, id));
      Begins(limit, after, s, id, C.ExchangeFinish(pid, signs));
    }
  }

  lemma ExchangeRefines(limit: int, h: History, turns: seq<Turn>, s: C.State, id: string, pid: nat, secret: string,
      audience: string, now: int, signs: bool, m0: Meeting, m1: Meeting, m2: Meeting, r: Result<MachineToken, Error>,
      after: seq<Items>)
    requires Tied(limit, h, s, id) && pid !in s.procs
    requires Exchanged(h, turns, limit, id, secret, audience, now, signs, r, after)
    requires Faces(limit, h, First(turns), s, id, pid, m0)
    requires var read := ExchangeRead(limit, s, pid, secret, audience, turns, m0);
             pid in read.procs && read.procs[pid].Bumping? ==>
               FacesCount(limit, Met(h, turns, 0), Rest(turns), read, id, pid, now, m1, m2)
    ensures var t := Exchanging(limit, s, pid, secret, audience, now, signs, turns, m0, m1, m2);
            && Tied(limit, after, t, id) && pid in t.procs && t.procs[pid] == C.Done(VerdictOf(r))
            && (r.Success? ==>
                  && pid in t.tokens && r.value.clientId == id
                  && t.tokens[pid].secret == secret
                  && t.tokens[pid].audience == r.value.audience == audience
                  && t.tokens[pid].scopes == r.value.scopes)
  {
    ExchangeReads(limit, h, turns, s, id, pid, secret, audience, m0);
    var read, snapshot := ExchangeRead(limit, s, pid, secret, audience, turns, m0), Snapshot(h, turns, id);
    if First(turns).fault == NoFault && Usable(snapshot) {
      AttemptRefines(limit, Met(h, turns, 0), Rest(turns), read, id, pid, now, signs, m1, m2);
    }
  }

  lemma AttemptRefines(limit: int, h: History, turns: seq<Turn>, s: C.State, id: string, pid: nat, now: int,
      signs: bool, m1: Meeting, m2: Meeting)
    requires Tied(limit, h, s, id) && pid in s.procs && s.procs[pid].Bumping? && pid !in s.limiter.calls
    requires FacesCount(limit, h, turns, s, id, pid, now, m1, m2)
    ensures var p, t := s.procs[pid], Concluding(limit, Counting(limit, s, pid, now, turns, m1, m2), pid, signs);
            var after := AfterCount(h, turns, id, now);
            var r := if CountAnswered(h, turns, id, now)
                     then Judgement(CountAt(after, id), limit, p.snapshot, id, p.secret, p.audience, signs)
                     else Failure(Failed);
            && Tied(limit, after, t, id) && pid in t.procs && t.procs[pid] == C.Done(VerdictOf(r))
            && (r.Success? ==>
                  pid in t.tokens && t.tokens[pid] == C.Token(p.version, p.secret, r.value.audience, r.value.scopes))
  {
    CountRefines(limit, h, turns, s, id, pid, now, m1, m2);
    var p := s.procs[pid];
    ConcludeRefines(limit, AfterCount(h, turns, id, now), Counting(limit, s, pid, now, turns, m1, m2), id, pid,
                    CountAnswered(h, turns, id, now), p.version, p.snapshot, p.secret, p.audience, signs);
  }

  lemma ExchangeReads(limit: int, h: History, turns: seq<Turn>, s: C.State, id: string, pid: nat, secret: string,
      audience: string, m0: Meeting)
    requires Tied(limit, h, s, id) && pid !in s.procs && Faces(limit, h, First(turns), s, id, pid, m0)
    ensures var t, v := ExchangeRead(limit, s, pid, secret, audience, turns, m0), Snapshot(h, turns, id);
            && Tied(limit, Met(h, turns, 0), t, id) && pid in t.procs && pid !in t.limiter.calls
            && t.procs[pid] == (if First(turns).fault != NoFault then C.Done(C.Broken)
                                else if !Usable(v) then C.Done(C.Refused(C.InvalidCredentials))
                                else C.Bumping(C.ReadAt(Before(limit, s, m0), m0.version), v.value, secret, audience))
  {
    var step := C.ExchangeRead(pid, m0.version, secret, audience, First(turns).fault);
    OneRead(limit, h, First(turns), s, id, pid, m0, step);
    StartsAlike(limit, Before(limit, s, m0), pid, m0.version, secret, audience, First(turns).fault);
    E.NewcomerIsClean(Config(limit), s, pid);
  }

  // ---------------------------------------------------------------------------------------
  // What callers can rely on
  // ---------------------------------------------------------------------------------------

  /**
    A secret that CreateClient or RotateClient returned is accepted by the stored record, however
    much later and after whatever traffic, exactly until two more hashes have been committed.
   */
  lemma ReturnedSecretWorks(limit: int, h: History, s: C.State, id: string, pid: nat, secret: string,
      events: seq<Event>) returns (g: nat)
    requires Tied(limit, h, s, id) && ElsewhereOnly(events, id)
    requires pid in s.procs && s.procs[pid] == C.Done(C.Secret(secret))
    ensures var t, later := After(limit, s, events), Played(h, Calls(limit, s, id, events));
            var hashes, stored := C.Hashes(t.log), ClientAt(Now(later), id);
            && g < |hashes| && hashes[g] == Hash(pid, secret)
            && stored.Some? && (Verifies(stored.value.rounds, secret) <==> g + 2 >= |hashes|)
  {
    var t := After(limit, s, events);
    CredentialsOnTable(limit, h, s, id, events);
    AfterIsRun(limit, s, events);
    C.RunReached(Config(limit), s, OwnSteps(events));
    F.DoneIsFinal(Config(limit), s, OwnSteps(events), pid);
    F.ReturnedMeansCommitted(Config(limit), t, pid);
    g :| 0 <= g < |C.Hashes(t.log)| && C.Hashes(t.log)[g] == Hash(pid, secret);
    assert t.log != [];
    F.CurrentFolds(Config(limit), t);
    F.SurvivesOneRotation(Config(limit), t, g);
  }

  /** No call of any kind makes an inactive record active again, or removes it. */
  lemma {:induction false} InactiveForever(h: History, calls: seq<Call>, id: string, i: nat)
    requires ClientAt(Now(h), id).Some? && !ClientAt(Now(h), id).value.active
    requires |h| - 1 <= i < |Played(h, calls)|
    ensures var stored := ClientAt(Played(h, calls)[i], id); stored.Some? && !stored.value.active
  {
    if calls == [] {
    } else {
      var before, last := calls[..|calls| - 1], calls[|calls| - 1];
      var mid := Played(h, before);
      InactiveForever(h, before, id, |mid| - 1);
      if i < |mid| {
        InactiveForever(h, before, id, i);
      } else {
        ApplySteps(Now(mid), last, id);
      }
    }
  }

  lemma InactiveSnapshot(h: History, turns: seq<Turn>, id: string)
    requires ClientAt(Now(h), id).Some? && !ClientAt(Now(h), id).value.active
    requires First(turns).lag <= |Met(h, turns, 0)| - |h|
    ensures !Usable(Snapshot(h, turns, id))
  {
    InactiveForever(h, First(turns).others, id, |Met(h, turns, 0)| - 1 - First(turns).lag);
  }

  lemma UnusableIsRefused(h: History, turns: seq<Turn>, limit: int, id: string, secret: string, audience: string,
      now: int, signs: bool, r: Result<MachineToken, Error>, after: seq<Items>)
    requires !Usable(Snapshot(h, turns, id))
    requires Exchanged(h, turns, limit, id, secret, audience, now, signs, r, after)
    ensures r.Failure? && r.error in {InvalidCredentials, Failed} && after == Met(h, turns, 0)
  {
  }

  /**
    Once the stored record is inactive, an exchange whose read is not older than that gets no
    token and leaves the table as it met it, counter included.
   */
  lemma RevokedClientIsRefused(h: History, turns: seq<Turn>, limit: int, id: string, secret: string, audience: string,
      now: int, signs: bool, r: Result<MachineToken, Error>, after: seq<Items>)
    requires ClientAt(Now(h), id).Some? && !ClientAt(Now(h), id).value.active
    requires First(turns).lag <= |Met(h, turns, 0)| - |h|
    requires Exchanged(h, turns, limit, id, secret, audience, now, signs, r, after)
    ensures r.Failure? && r.error in {InvalidCredentials, Failed} && after == Met(h, turns, 0)
  {
    InactiveSnapshot(h, turns, id);
    UnusableIsRefused(h, turns, limit, id, secret, audience, now, signs, r, after);
  }
}
