/**
  Refresh-token rotation: logins (api/google.go), refreshes (api/refresh.go), logouts
  (api/session.go) and the TTL sweeper over the REFRESH_TOKEN# records (dynamo/refresh_token.go).

  Times are in nanoseconds on one clock that never runs backwards.  Every table call is one
  step, and may fail with its effect applied or not.  A read may see an older version.
 */
module Sessions {
  import opened Wrappers
  import opened Faults

  const SECOND: int := 1_000_000_000

  /** Go's Time.Unix(): whole seconds, rounded down. */
  function Unix(time: int): (seconds: int)
    ensures seconds * 1_000_000_000 <= time < (seconds + 1) * 1_000_000_000
  {
    time / SECOND
  }

  datatype Role = Role(name: string)

  /** The user data of one session. */
  datatype Session = Session(email: string, picture: string, roles: seq<Role>)

  /** A stored refresh token; roles are kept as strings, ttl in whole seconds. */
  datatype Stored = Stored(email: string, picture: string, roles: seq<string>, expiresAt: int, ttl: int)

  function RoleNames(roles: seq<Role>): (names: seq<string>)
    ensures |names| == |roles|
  {
    seq(|roles|, i requires 0 <= i < |roles| => roles[i].name)
  }

  function NamedRoles(names: seq<string>): (roles: seq<Role>)
    ensures |roles| == |names|
  {
    seq(|names|, i requires 0 <= i < |names| => Role(names[i]))
  }

  /** What Save writes. */
  function Saved(data: Session, expiresAt: int): Stored {
    Stored(data.email, data.picture, RoleNames(data.roles), expiresAt, Unix(expiresAt))
  }

  /** What Get reads back. */
  function Loaded(item: Stored): Session {
    Session(item.email, item.picture, NamedRoles(item.roles))
  }

  /** Saving and loading returns the same session, role for role. */
  lemma LoadedSaved(data: Session, expiresAt: int)
    ensures Loaded(Saved(data, expiresAt)) == data
  {
    assert NamedRoles(RoleNames(data.roles)) == data.roles;
  }

  /** The application's own expiry check: time.Now().After(expiresAt). */
  predicate Expired(item: Stored, now: int) {
    now > item.expiresAt
  }

  /** The sweeper may remove a record whose ttl lies strictly before the current second. */
  predicate Sweepable(item: Stored, now: int) {
    item.ttl < Unix(now)
  }

  // ---------------------------------------------------------------------------------------
  // The machine
  // ---------------------------------------------------------------------------------------

  datatype Answer = Ok(id: string, data: Session) | Unauthorized | LoggedOut

  /**
    Where a request stands between its table calls.  `login` names the login that a session's
    data comes from, and `refreshing` tells a refresh from a login.
   */
  datatype Proc =
    | Held(id: string, data: Session, login: nat)
    | Ready(data: Session, login: nat, refreshing: bool)
    | Saving(id: string, expiresAt: int, data: Session, login: nat, refreshing: bool)
    | Stored200(id: string, data: Session)
    | Done(answer: Answer)

  /**
    `ever` holds every token ever saved, `used` every token id ever generated or presented,
    `gone` those a Delete was applied to, `origin` the login behind each saved token, and
    `logins` the data of each login.
   */
  datatype State = State(
    store: map<string, Stored>,
    ever: map<string, Stored>,
    clock: int,
    procs: map<nat, Proc>,
    used: set<string>,
    gone: set<string>,
    origin: map<string, nat>,
    logins: map<nat, Session>,
    tally: Tally
  )

  /** Login saves applied, refresh deletes that failed, and refresh deletes that found nothing. */
  datatype Tally = Tally(loginSaves: nat, failedDeletes: nat, emptyDeletes: nat)

  /**
    What a read that need not be consistent sees.  A token is saved once and never changed, so
    an older version of its record is the record as saved, or no record.
   */
  datatype View = Current | AsSaved | Absent

  datatype Step =
    | Tick(elapsed: nat)
    | Sweep(swept: string)
    | Login(pid: nat, data: Session)
    | Get(pid: nat, id: string, view: View, fault: Fault)
    | Drop(pid: nat, fault: Fault)
    | Generate(pid: nat, ok: bool, id: string, expiresAt: int)
    | Save(pid: nat, fault: Fault)
    | Reply(pid: nat, ok: bool)
    | Logout(pid: nat, id: string, fault: Fault)

  function Start(now: int): State {
    State(map[], map[], now, map[], {}, {}, map[], map[], Tally(0, 0, 0))
  }

  function Moved(s: State, pid: nat, proc: Proc): State {
    s.(procs := s.procs[pid := proc])
  }

  /** A generated id is known to nobody before its token has been stored. */
  predicate Secret(s: State, id: string) {
    exists p :: p in s.procs && s.procs[p].Saving? && s.procs[p].id == id
  }

  function Deleted(s: State, id: string): State {
    s.(store := s.store - {id}, gone := s.gone + {id})
  }

  /** The old token is deleted; the refresh goes on whether that worked or not. */
  function Dropped(s: State, pid: nat, fault: Fault): State
    requires pid in s.procs && s.procs[pid].Held?
  {
    var p := s.procs[pid];
    var t := if fault.Lost? then s else Deleted(s, p.id);
    var tally :=
      if fault != NoFault then s.tally.(failedDeletes := s.tally.failedDeletes + 1)
      else if p.id !in s.store then s.tally.(emptyDeletes := s.tally.emptyDeletes + 1)
      else s.tally;
    Moved(t, pid, Ready(p.data, p.login, true)).(tally := tally)
  }

  /** A logout answers 200 whether its Delete worked or not. */
  function Ended(s: State, pid: nat, id: string, fault: Fault): State {
    var t := s.(used := s.used + {id});
    Moved(if fault.Lost? then t else Deleted(t, id), pid, Done(LoggedOut))
  }

  /** The new token is stored under its fresh id. */
  function SavedNew(s: State, pid: nat, fault: Fault): State
    requires pid in s.procs && s.procs[pid].Saving?
  {
    var p := s.procs[pid];
    if fault.Lost? then Moved(s, pid, Done(Unauthorized))
    else
      Moved(s, pid, if fault.Unacked? then Done(Unauthorized) else Stored200(p.id, p.data)).(
        store := s.store[p.id := Saved(p.data, p.expiresAt)],
        ever := s.ever[p.id := Saved(p.data, p.expiresAt)],
        origin := s.origin[p.id := p.login],
        tally := if p.refreshing then s.tally else s.tally.(loginSaves := s.tally.loginSaves + 1))
  }

  function Lookup(items: map<string, Stored>, id: string): Option<Stored> {
    if id in items then Some(items[id]) else None
  }

  /** The version of a token that a read returns. */
  function Viewed(s: State, id: string, view: View): Option<Stored> {
    match view
    case Current => Lookup(s.store, id)
    case AsSaved => Lookup(s.ever, id)
    case Absent => None
  }

  /** Where a refresh stands after its Get. */
  function Got(s: State, id: string, view: View, fault: Fault): Proc {
    var item := Viewed(s, id, view);
    if fault != NoFault || item.None? || Expired(item.value, s.clock) then Done(Unauthorized)
    else Held(id, Loaded(item.value), if id in s.origin then s.origin[id] else 0)
  }

  /** A request that has a new token, not yet stored. */
  function Generated(s: State, pid: nat, id: string, expiresAt: int): State
    requires pid in s.procs && s.procs[pid].Ready?
  {
    var p := s.procs[pid];
    Moved(s, pid, Saving(id, expiresAt, p.data, p.login, p.refreshing)).(used := s.used + {id})
  }

  /** One step.  A step that its request is not ready for changes nothing. */
  function Next(s: State, step: Step): State {
    match step
    case Tick(elapsed) => s.(clock := s.clock + elapsed)
    case Sweep(id) =>
      if id in s.store && Sweepable(s.store[id], s.clock) then s.(store := s.store - {id}) else s
    case Login(pid, data) =>
      if pid in s.procs then s
      else Moved(s, pid, Ready(data, pid, false)).(logins := s.logins[pid := data])
    case Get(pid, id, view, fault) =>
      if pid in s.procs || Secret(s, id) then s
      else Moved(s.(used := s.used + {id}), pid, Got(s, id, view, fault))
    case Drop(pid, fault) =>
      if pid in s.procs && s.procs[pid].Held? then Dropped(s, pid, fault) else s
    case Generate(pid, ok, id, expiresAt) =>
      if pid !in s.procs || !s.procs[pid].Ready? then s
      else if !ok then Moved(s, pid, Done(Unauthorized))
      else if id in s.used then s
      else Generated(s, pid, id, expiresAt)
    case Save(pid, fault) =>
      if pid in s.procs && s.procs[pid].Saving? then SavedNew(s, pid, fault) else s
    case Reply(pid, ok) =>
      if pid !in s.procs || !s.procs[pid].Stored200? then s
      else Moved(s, pid, Done(if ok then Ok(s.procs[pid].id, s.procs[pid].data) else Unauthorized))
    case Logout(pid, id, fault) =>
      if pid in s.procs || Secret(s, id) then s else Ended(s, pid, id, fault)
  }

  function Run(s: State, steps: seq<Step>): State {
    if steps == [] then s
    else Next(Run(s, steps[..|steps| - 1]), steps[|steps| - 1])
  }

  // ---------------------------------------------------------------------------------------
  // Invariant
  // ---------------------------------------------------------------------------------------

  /** The session data is exactly what some login saved. */
  ghost predicate Genuine(s: State, data: Session, login: nat) {
    login in s.logins && s.logins[login] == data
  }

  ghost predicate BornOfLogin(s: State, data: Session) {
    exists login :: Genuine(s, data, login)
  }

  /** Each token was saved once, with the data of a login. */
  ghost predicate EverInv(s: State) {
    forall id :: id in s.ever ==>
      && id in s.used && id in s.origin && Genuine(s, Loaded(s.ever[id]), s.origin[id])
      && s.ever[id].ttl == Unix(s.ever[id].expiresAt)
  }

  /** A saved token stays as it was until a Delete of it is applied or it has expired. */
  ghost predicate StoreInv(s: State) {
    && (forall id :: id in s.store ==> id in s.ever && s.store[id] == s.ever[id])
    && (forall id :: id in s.gone ==> id in s.used && id !in s.store)
    && (forall id :: id in s.ever && id !in s.gone ==> id in s.store || Expired(s.ever[id], s.clock))
  }

  ghost predicate ProcInv(s: State, p: nat)
    requires p in s.procs
  {
    match s.procs[p]
    case Held(id, data, login) => id in s.used && Genuine(s, data, login)
    case Ready(data, login, _) => Genuine(s, data, login)
    case Saving(id, _, data, login, _) =>
      id in s.used && id !in s.gone && id !in s.ever && Genuine(s, data, login)
    case Stored200(_, data) => BornOfLogin(s, data)
    case Done(answer) => answer.Ok? ==> BornOfLogin(s, answer.data)
  }

  /** A generated id that is not stored yet belongs to one request alone. */
  ghost predicate Apart(a: Proc, b: Proc) {
    (a.Saving? && (b.Saving? || b.Held?)) || (a.Held? && b.Saving?) ==> a.id != b.id
  }

  ghost predicate IdsApart(s: State) {
    forall p, q :: p in s.procs && q in s.procs && p != q ==> Apart(s.procs[p], s.procs[q])
  }

  /** What a session was born of stays known. */
  lemma BirthKept(s: State, t: State, data: Session)
    requires BornOfLogin(s, data) && forall p :: p in s.logins ==> p in t.logins && t.logins[p] == s.logins[p]
    ensures BornOfLogin(t, data)
  {
    var login :| Genuine(s, data, login);
    assert Genuine(t, data, login);
  }

  lemma ProcKept(s: State, t: State, p: nat)
    requires p in s.procs && p in t.procs && t.procs[p] == s.procs[p] && ProcInv(s, p)
    requires forall q :: q in s.logins ==> q in t.logins && t.logins[q] == s.logins[q]
    requires s.used <= t.used && (s.procs[p].Saving? ==> s.procs[p].id !in t.gone && s.procs[p].id !in t.ever)
    ensures ProcInv(t, p)
  {
    match s.procs[p]
    case Stored200(_, data) => BirthKept(s, t, data);
    case Done(answer) =>
      if answer.Ok? {
        BirthKept(s, t, answer.data);
      }
    case _ =>
  }

  ghost predicate ProcsInv(s: State) {
    && (forall p :: p in s.logins ==> p in s.procs)
    && (forall p :: p in s.procs ==> ProcInv(s, p))
    && IdsApart(s)
  }

  ghost predicate Inv(s: State) {
    EverInv(s) && StoreInv(s) && ProcsInv(s)
  }

  /** A step of one request that leaves the table alone. */
  lemma MoveKeepsInv(s: State, t: State, pid: nat)
    requires Inv(s)
    requires t.store == s.store && t.ever == s.ever && t.clock == s.clock
    requires t.gone == s.gone && t.origin == s.origin && t.logins == s.logins && s.used <= t.used
    requires pid in t.procs && t.procs == s.procs[pid := t.procs[pid]] && ProcInv(t, pid)
    requires forall q :: q in s.procs && q != pid ==> Apart(t.procs[pid], s.procs[q])
    ensures Inv(t)
  {
    forall p | p in t.procs ensures ProcInv(t, p) {
      if p != pid {
        ProcKept(s, t, p);
      }
    }
    forall p, q | p in t.procs && q in t.procs && p != q ensures Apart(t.procs[p], t.procs[q]) {
      if p != pid && q != pid {
        assert Apart(s.procs[p], s.procs[q]);
      }
    }
  }

  /** Steps of the clock and the sweeper leave every request where it was. */
  lemma ProcsKept(s: State, t: State)
    requires ProcsInv(s)
    requires t.procs == s.procs && t.logins == s.logins && t.used == s.used && t.gone == s.gone && t.ever == s.ever
    ensures ProcsInv(t)
  {
    forall p | p in t.procs ensures ProcInv(t, p) {
      ProcKept(s, t, p);
    }
    assert forall p, q :: p in t.procs && q in t.procs && p != q ==> Apart(s.procs[p], s.procs[q]);
  }

  lemma TickKeepsStore(s: State, elapsed: nat)
    requires EverInv(s) && StoreInv(s)
    ensures EverInv(Next(s, Tick(elapsed))) && StoreInv(Next(s, Tick(elapsed)))
  {
  }

  lemma TickKeepsInv(s: State, elapsed: nat)
    requires Inv(s)
    ensures Inv(Next(s, Tick(elapsed)))
  {
    TickKeepsStore(s, elapsed);
    ProcsKept(s, Next(s, Tick(elapsed)));
  }

  lemma SweepKeepsStore(s: State, id: string)
    requires EverInv(s) && StoreInv(s) && id in s.store && Sweepable(s.store[id], s.clock)
    ensures EverInv(s.(store := s.store - {id})) && StoreInv(s.(store := s.store - {id}))
  {
  }

  lemma SweepKeepsInv(s: State, id: string)
    requires Inv(s) && id in s.store && Sweepable(s.store[id], s.clock)
    ensures Inv(s.(store := s.store - {id}))
  {
    SweepKeepsStore(s, id);
    ProcsKept(s, s.(store := s.store - {id}));
  }

  lemma LoginKeepsProcs(s: State, pid: nat, data: Session)
    requires ProcsInv(s) && pid !in s.procs
    ensures ProcsInv(Next(s, Login(pid, data)))
  {
    var t := Next(s, Login(pid, data));
    forall p | p in t.procs ensures ProcInv(t, p) {
      if p != pid {
        ProcKept(s, t, p);
      }
    }
    forall p, q | p in t.procs && q in t.procs && p != q ensures Apart(t.procs[p], t.procs[q]) {
      if p != pid && q != pid {
        assert Apart(s.procs[p], s.procs[q]);
      }
    }
  }

  lemma LoginKeepsInv(s: State, pid: nat, data: Session)
    requires Inv(s) && pid !in s.procs
    ensures Inv(Next(s, Login(pid, data)))
  {
    LoginKeepsProcs(s, pid, data);
  }

  lemma GetKeepsInv(s: State, pid: nat, id: string, view: View, fault: Fault)
    requires Inv(s) && pid !in s.procs && !Secret(s, id)
    ensures Inv(Next(s, Get(pid, id, view, fault)))
  {
    var t := Next(s, Get(pid, id, view, fault));
    assert ProcInv(t, pid);
    MoveKeepsInv(s, t, pid);
  }

  lemma GenerateKeepsInv(s: State, pid: nat, ok: bool, id: string, expiresAt: int)
    requires Inv(s) && pid in s.procs && s.procs[pid].Ready? && (ok ==> id !in s.used)
    ensures Inv(Next(s, Generate(pid, ok, id, expiresAt)))
  {
    GenerateNext(s, pid, ok, id, expiresAt);
    if ok {
      GeneratedKeepsInv(s, pid, id, expiresAt);
    } else {
      AnswerKeepsInv(s, pid, Unauthorized);
    }
  }

  lemma GenerateNext(s: State, pid: nat, ok: bool, id: string, expiresAt: int)
    requires pid in s.procs && s.procs[pid].Ready? && (ok ==> id !in s.used)
    ensures Next(s, Generate(pid, ok, id, expiresAt)) ==
            if ok then Generated(s, pid, id, expiresAt) else Moved(s, pid, Done(Unauthorized))
  {
  }

  lemma GeneratedKeepsInv(s: State, pid: nat, id: string, expiresAt: int)
    requires Inv(s) && pid in s.procs && s.procs[pid].Ready? && id !in s.used
    ensures Inv(Generated(s, pid, id, expiresAt))
  {
    var t := Generated(s, pid, id, expiresAt);
    assert ProcInv(s, pid);
    forall q | q in s.procs && q != pid ensures Apart(t.procs[pid], s.procs[q]) {
      assert ProcInv(s, q);
    }
    MoveKeepsInv(s, t, pid);
  }

  /** An applied Delete; an id that is still secret cannot be the one deleted. */
  lemma DeleteKeepsInv(s: State, id: string)
    requires Inv(s) && id in s.used && !Secret(s, id)
    ensures Inv(Deleted(s, id))
  {
    var t := Deleted(s, id);
    forall p | p in t.procs ensures ProcInv(t, p) {
      ProcKept(s, t, p);
    }
  }

  lemma DropKeepsInv(s: State, pid: nat, fault: Fault)
    requires Inv(s) && pid in s.procs && s.procs[pid].Held?
    ensures Inv(Dropped(s, pid, fault))
  {
    var p := s.procs[pid];
    assert ProcInv(s, pid);
    var t := if fault.Lost? then s else Deleted(s, p.id);
    if !fault.Lost? {
      assert forall q :: q in s.procs && q != pid ==> Apart(s.procs[q], s.procs[pid]);
      DeleteKeepsInv(s, p.id);
    }
    MoveKeepsInv(t, Dropped(s, pid, fault), pid);
  }

  lemma LogoutKeepsInv(s: State, pid: nat, id: string, fault: Fault)
    requires Inv(s) && pid !in s.procs && !Secret(s, id)
    ensures Inv(Ended(s, pid, id, fault))
  {
    var t := s.(used := s.used + {id});
    forall p | p in t.procs ensures ProcInv(t, p) {
      ProcKept(s, t, p);
    }
    if !fault.Lost? {
      DeleteKeepsInv(t, id);
    }
    MoveKeepsInv(if fault.Lost? then t else Deleted(t, id), Ended(s, pid, id, fault), pid);
  }

  /** A Save that does not reach the table. */
  lemma LostSaveKeepsInv(s: State, pid: nat)
    requires Inv(s) && pid in s.procs && s.procs[pid].Saving?
    ensures Inv(SavedNew(s, pid, Lost))
  {
    MoveKeepsInv(s, SavedNew(s, pid, Lost), pid);
  }

  /** The table part of a Save: a fresh id, so no other record and no deleted id is touched. */
  lemma SaveKeepsStore(s: State, pid: nat, fault: Fault)
    requires EverInv(s) && StoreInv(s) && pid in s.procs && s.procs[pid].Saving? && ProcInv(s, pid) && !fault.Lost?
    ensures EverInv(SavedNew(s, pid, fault)) && StoreInv(SavedNew(s, pid, fault))
  {
    LoadedSaved(s.procs[pid].data, s.procs[pid].expiresAt);
  }

  lemma SaveKeepsProcs(s: State, pid: nat, fault: Fault)
    requires ProcsInv(s) && pid in s.procs && s.procs[pid].Saving? && !fault.Lost?
    ensures ProcsInv(SavedNew(s, pid, fault))
  {
    var t, p := SavedNew(s, pid, fault), s.procs[pid];
    assert ProcInv(s, pid);
    assert Genuine(t, p.data, p.login);
    forall q | q in t.procs ensures ProcInv(t, q) {
      if q != pid {
        assert Apart(s.procs[pid], s.procs[q]);
        ProcKept(s, t, q);
      }
    }
    assert IdsApart(t);
  }

  lemma SaveKeepsInv(s: State, pid: nat, fault: Fault)
    requires Inv(s) && pid in s.procs && s.procs[pid].Saving?
    ensures Inv(SavedNew(s, pid, fault))
  {
    if fault.Lost? {
      LostSaveKeepsInv(s, pid);
    } else {
      assert ProcInv(s, pid);
      SaveKeepsStore(s, pid, fault);
      SaveKeepsProcs(s, pid, fault);
    }
  }

  lemma Replied(s: State, pid: nat, ok: bool)
    requires pid in s.procs && s.procs[pid].Stored200?
    ensures Next(s, Reply(pid, ok)) ==
            Moved(s, pid, Done(if ok then Ok(s.procs[pid].id, s.procs[pid].data) else Unauthorized))
  {
  }

  /** A request that answers with a session of some login, or with a refusal. */
  lemma AnswerKeepsInv(s: State, pid: nat, answer: Answer)
    requires Inv(s) && pid in s.procs && (answer.Ok? ==> BornOfLogin(s, answer.data))
    ensures Inv(Moved(s, pid, Done(answer)))
  {
    var t := Moved(s, pid, Done(answer));
    if answer.Ok? {
      BirthKept(s, t, answer.data);
    }
    MoveKeepsInv(s, t, pid);
  }

  lemma ReplyKeepsInv(s: State, pid: nat, ok: bool)
    requires Inv(s) && pid in s.procs && s.procs[pid].Stored200?
    ensures Inv(Next(s, Reply(pid, ok)))
  {
    assert ProcInv(s, pid);
    Replied(s, pid, ok);
    AnswerKeepsInv(s, pid, if ok then Ok(s.procs[pid].id, s.procs[pid].data) else Unauthorized);
  }

  /** The steps that touch no more than one request. */
  predicate Quiet(step: Step) {
    step.Login? || step.Get? || step.Generate? || step.Reply?
  }

  lemma QuietKeepsInv(s: State, step: Step)
    requires Inv(s) && Quiet(step)
    ensures Inv(Next(s, step))
  {
    if Next(s, step) != s {
      match step
      case Login(pid, data) => LoginKeepsInv(s, pid, data);
      case Get(pid, id, view, fault) => GetKeepsInv(s, pid, id, view, fault);
      case Generate(pid, ok, id, expiresAt) => GenerateKeepsInv(s, pid, ok, id, expiresAt);
      case Reply(pid, ok) => ReplyKeepsInv(s, pid, ok);
    }
  }

  lemma NextKeepsInv(s: State, step: Step)
    requires Inv(s)
    ensures Inv(Next(s, step))
  {
    if Quiet(step) {
      QuietKeepsInv(s, step);
    } else if Next(s, step) != s {
      match step
      case Tick(elapsed) => TickKeepsInv(s, elapsed);
      case Sweep(id) => SweepKeepsInv(s, id);
      case Drop(pid, fault) => DropKeepsInv(s, pid, fault);
      case Save(pid, fault) => SaveKeepsInv(s, pid, fault);
      case Logout(pid, id, fault) => LogoutKeepsInv(s, pid, id, fault);
    }
  }

  ghost predicate Reached(s: State) {
    exists now, steps :: s == Run(Start(now), steps)
  }

  lemma {:induction false} RunKeepsInv(s: State, steps: seq<Step>)
    requires Inv(s)
    ensures Inv(Run(s, steps))
  {
    if steps == [] {
    } else {
      RunKeepsInv(s, steps[..|steps| - 1]);
      NextKeepsInv(Run(s, steps[..|steps| - 1]), steps[|steps| - 1]);
    }
  }

  lemma ReachedInv(s: State)
    requires Reached(s)
    ensures Inv(s)
  {
    var now, steps :| s == Run(Start(now), steps);
    RunKeepsInv(Start(now), steps);
  }
}
