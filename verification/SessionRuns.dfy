/**
  The sequential login code refines the refresh-token machine: on the one string-keyed table,
  whatever the others do between its calls, each request is a stretch of a run of the machine
  that ends with the same answer and the same tokens.
 */
module SessionRuns {
  import opened Wrappers
  import opened Faults
  import opened Table
  import opened RefreshTokens
  import S = Sessions
  import T = SessionTheorems

  // ---------------------------------------------------------------------------------------
  // The machine on the table
  // ---------------------------------------------------------------------------------------

  /** The table write of one step of the refresh-token machine: none or one. */
  function SessionCalls(s: S.State, step: S.Step): seq<Call> {
    match step
    case Sweep(id) => [Expire(TokenKey(id), S.Unix(s.clock))]
    case Drop(pid, fault) =>
      if pid in s.procs && s.procs[pid].Held? && !fault.Lost? then [DeleteToken(s.procs[pid].id)] else []
    case Save(pid, fault) =>
      if pid in s.procs && s.procs[pid].Saving? && !fault.Lost?
      then [PutToken(s.procs[pid].id, S.Saved(s.procs[pid].data, s.procs[pid].expiresAt))] else []
    case Logout(pid, id, fault) =>
      if pid !in s.procs && !S.Secret(s, id) && !fault.Lost? then [DeleteToken(id)] else []
    case _ => []
  }

  /** Each step changes each token as its table write does. */
  lemma SessionStep(s: S.State, step: S.Step, id: string)
    ensures S.Lookup(S.Next(s, step).store, id) == FoldToken(S.Lookup(s.store, id), id, SessionCalls(s, step))
  {
    var calls := SessionCalls(s, step);
    if calls != [] {
      assert FoldToken(S.Lookup(s.store, id), id, calls) == TokenStep(S.Lookup(s.store, id), id, calls[0]);
      if step.Sweep? {
        KeysApart(step.swept, id);
      }
    }
  }

  /** A step of the machine, or anybody's call on another kind of item. */
  datatype Event = Own(step: S.Step) | Foreign(call: Call)

  /** A call on another kind of item. */
  predicate Elsewhere(call: Call) {
    match call
    case PutToken(_, _) => false
    case DeleteToken(_) => false
    case Expire(key, _) => !("REFRESH_TOKEN#" <= key)
    case _ => true
  }

  ghost predicate ElsewhereOnly(events: seq<Event>) {
    forall i :: 0 <= i < |events| && events[i].Foreign? ==> Elsewhere(events[i].call)
  }

  function After(s: S.State, events: seq<Event>): S.State {
    if events == [] then s
    else
      var before := After(s, events[..|events| - 1]);
      match events[|events| - 1]
      case Own(step) => S.Next(before, step)
      case Foreign(_) => before
  }

  function Calls(s: S.State, events: seq<Event>): seq<Call> {
    if events == [] then []
    else
      var before := events[..|events| - 1];
      Calls(s, before) +
      match events[|events| - 1]
      case Own(step) => SessionCalls(After(s, before), step)
      case Foreign(call) => [call]
  }

  /** The table's token items are exactly the machine's store. */
  ghost predicate Holds(items: Items, s: S.State) {
    forall id :: TokenAt(items, id) == S.Lookup(s.store, id)
  }

  lemma StepHolds(h: History, s: S.State, step: S.Step)
    requires Holds(Now(h), s)
    ensures Holds(Now(Played(h, SessionCalls(s, step))), S.Next(s, step))
  {
    var calls := SessionCalls(s, step);
    PlayedApplies(h, calls);
    forall id ensures TokenAt(ApplyAll(Now(h), calls), id) == S.Lookup(S.Next(s, step).store, id) {
      OwnCalls(Now(h), calls, id);
      SessionStep(s, step, id);
    }
  }

  lemma ForeignHolds(items: Items, s: S.State, call: Call)
    requires Holds(items, s) && Elsewhere(call)
    ensures Holds(Apply(items, call), s)
  {
    forall id ensures TokenAt(Apply(items, call), id) == S.Lookup(s.store, id) {
      ApplySteps(items, call, id);
      assert "REFRESH_TOKEN#" <= TokenKey(id);
    }
  }

  lemma CallsSnoc(s: S.State, events: seq<Event>, h: History)
    requires events != []
    ensures var before := events[..|events| - 1];
            var mid := Played(h, Calls(s, before));
            Played(h, Calls(s, events)) ==
            match events[|events| - 1]
            case Own(step) => Played(mid, SessionCalls(After(s, before), step))
            case Foreign(call) => Written(mid, call)
  {
    var before := events[..|events| - 1];
    var calls, mid := Calls(s, before), Played(h, Calls(s, before));
    match events[|events| - 1]
    case Own(step) =>
      var own := SessionCalls(After(s, before), step);
      if own == [] {
        assert calls + own == calls;
      } else {
        assert own == [own[0]];
        PlayedSnoc(h, calls, own[0]);
        PlayedOne(mid, own[0]);
      }
    case Foreign(call) =>
      PlayedSnoc(h, calls, call);
  }

  lemma NextReached(s: S.State, step: S.Step)
    requires S.Reached(s)
    ensures S.Reached(S.Next(s, step))
  {
    T.RunSnoc(s, [], step);
    assert [] + [step] == [step];
    T.RunReached(s, [step]);
  }

  /** Every version of the table shows a token as it was saved, or not at all. */
  ghost predicate ShowsSaved(h: History, s: S.State) {
    forall i :: 0 <= i < |h| ==> Shows(h[i], s)
  }

  ghost predicate Shows(items: Items, s: S.State) {
    forall id :: TokenAt(items, id).None? || TokenAt(items, id) == S.Lookup(s.ever, id)
  }

  ghost predicate Tied(h: seq<Items>, s: S.State) {
    |h| > 0 && S.Reached(s) && Holds(h[|h| - 1], s) && ShowsSaved(h, s)
  }

  lemma HeldIsShown(items: Items, s: S.State)
    requires S.Reached(s) && Holds(items, s)
    ensures Shows(items, s)
  {
    forall id ensures TokenAt(items, id).None? || TokenAt(items, id) == S.Lookup(s.ever, id) {
      T.ReachedStore(s, id);
    }
  }

  lemma ShownStays(items: Items, s: S.State, step: S.Step)
    requires S.Reached(s) && Shows(items, s)
    ensures Shows(items, S.Next(s, step))
  {
    var t := S.Next(s, step);
    forall id ensures TokenAt(items, id).None? || TokenAt(items, id) == S.Lookup(t.ever, id) {
      if id in s.ever {
        T.EverKept(s, step, id);
      }
    }
  }

  /** A longer history, by at most the version that the machine holds now. */
  lemma NewestShown(h: History, g: History, s: S.State)
    requires h <= g && |g| <= |h| + 1 && ShowsSaved(h, s) && S.Reached(s) && Holds(Now(g), s)
    ensures ShowsSaved(g, s)
  {
    HeldIsShown(Now(g), s);
  }

  lemma OneStep(h: History, s: S.State, step: S.Step)
    requires Tied(h, s)
    ensures Tied(Played(h, SessionCalls(s, step)), S.Next(s, step))
  {
    var calls, t := SessionCalls(s, step), S.Next(s, step);
    StepHolds(h, s, step);
    NextReached(s, step);
    forall i | 0 <= i < |h| ensures Shows(h[i], t) {
      ShownStays(h[i], s, step);
    }
    if calls != [] {
      PlayedOne(h, calls[0]);
    }
    NewestShown(h, Played(h, calls), t);
  }

  lemma ForeignTied(h: History, s: S.State, call: Call)
    requires Tied(h, s) && Elsewhere(call)
    ensures Tied(Written(h, call), s)
  {
    ForeignHolds(Now(h), s, call);
    NewestShown(h, Written(h, call), s);
  }

  /**
    In every run, next to any other traffic, the table's token items are exactly the machine's
    store, and every read, however stale, sees a token as it was saved or not at all.
   */
  lemma {:induction false} SessionsOnTable(h: History, s: S.State, events: seq<Event>)
    requires Tied(h, s) && ElsewhereOnly(events)
    ensures Tied(Played(h, Calls(s, events)), After(s, events))
  {
    if events == [] {
    } else {
      var before, last := events[..|events| - 1], events[|events| - 1];
      assert ElsewhereOnly(before);
      SessionsOnTable(h, s, before);
      CallsSnoc(s, events, h);
      match last
      case Own(step) => OneStep(Played(h, Calls(s, before)), After(s, before), step);
      case Foreign(call) =>
        assert Elsewhere(events[|events| - 1].call);
        ForeignTied(Played(h, Calls(s, before)), After(s, before), call);
    }
  }

  // ---------------------------------------------------------------------------------------
  // One call
  // ---------------------------------------------------------------------------------------

  ghost predicate OthersOnly(events: seq<Event>, pid: nat) {
    forall i :: 0 <= i < |events| && events[i].Own? ==> T.Pid(events[i].step) != Some(pid)
  }

  ghost predicate SameProc(s: S.State, t: S.State, pid: nat) {
    (pid in t.procs <==> pid in s.procs) && (pid in s.procs ==> t.procs[pid] == s.procs[pid])
  }

  lemma StepSpares(s: S.State, step: S.Step, pid: nat)
    requires T.Pid(step) != Some(pid)
    ensures SameProc(s, S.Next(s, step), pid)
  {
    if S.Quiet(step) {
      QuietStepSpares(s, step, pid);
    }
  }

  lemma QuietStepSpares(s: S.State, step: S.Step, pid: nat)
    requires T.Pid(step) != Some(pid) && S.Quiet(step)
    ensures SameProc(s, S.Next(s, step), pid)
  {
  }

  lemma {:induction false} EventsSpare(s: S.State, events: seq<Event>, pid: nat)
    requires OthersOnly(events, pid)
    ensures SameProc(s, After(s, events), pid)
  {
    if events == [] {
    } else {
      var before, last := events[..|events| - 1], events[|events| - 1];
      assert OthersOnly(before, pid);
      EventsSpare(s, before, pid);
      assert last == events[|events| - 1];
      if last.Own? {
        StepSpares(After(s, before), last.step, pid);
      }
    }
  }

  /** The turn is made of these events, none of them the request's own. */
  ghost predicate Faces(turn: Turn, s: S.State, pid: nat, events: seq<Event>) {
    turn.others == Calls(s, events) && ElsewhereOnly(events) && OthersOnly(events, pid)
  }

  /** Before anything has happened. */
  lemma EmptyTableIsTied(now: int)
    ensures Tied([map[]], S.Start(now))
  {
    assert S.Start(now) == S.Run(S.Start(now), []);
  }

  /** The others' events, then one step of the request with its table call. */
  lemma OneCall(h: History, turn: Turn, s: S.State, pid: nat, events: seq<Event>, step: S.Step)
    requires Tied(h, s) && Faces(turn, s, pid, events)
    ensures var met, t := Played(h, turn.others), After(s, events);
            && Tied(met, t) && SameProc(s, t, pid)
            && Tied(Played(met, SessionCalls(t, step)), S.Next(t, step))
  {
    SessionsOnTable(h, s, events);
    EventsSpare(s, events, pid);
    OneStep(Played(h, turn.others), After(s, events), step);
  }

  lemma QuietCall(h: History, turn: Turn, s: S.State, pid: nat, events: seq<Event>, step: S.Step)
    requires Tied(h, s) && Faces(turn, s, pid, events) && SessionCalls(After(s, events), step) == []
    ensures var met, t := Played(h, turn.others), After(s, events);
            Tied(met, t) && SameProc(s, t, pid) && Tied(met, S.Next(t, step))
  {
    OneCall(h, turn, s, pid, events, step);
  }

  // ---------------------------------------------------------------------------------------
  // Save and answer
  // ---------------------------------------------------------------------------------------

  /** The machine's answer is the handler's reply. */
  ghost predicate Answers(reply: Reply, proc: S.Proc) {
    match reply
    case Reply401 => proc == S.Done(S.Unauthorized)
    case Reply200(user, token) =>
      proc.Done? && proc.answer.Ok? && proc.answer.id == token.id && InfoOf(proc.answer.data, user.expiresAt) == user
  }

  /** The machine's steps from a generated token to the answer. */
  function SavingOn(s: S.State, pid: nat, signer: Signer, fault: Fault, events: seq<Event>): S.State
    requires Works(signer)
  {
    var made := signer.refresh.value;
    var saved := S.Next(After(S.Next(s, S.Generate(pid, true, made.id, made.expiresAt)), events), S.Save(pid, fault));
    if pid !in saved.procs || !saved.procs[pid].Stored200? then saved
    else S.Next(saved, S.Reply(pid, signer.validates.Some?))
  }

  lemma SaveRefines(h: History, turns: seq<Turn>, s: S.State, pid: nat, signer: Signer, events: seq<Event>,
      reply: Reply, after: seq<Items>)
    requires Works(signer) && Tied(h, s) && pid in s.procs && s.procs[pid].Ready? && signer.refresh.value.id !in s.used
    requires var made := signer.refresh.value;
             Faces(First(turns), S.Next(s, S.Generate(pid, true, made.id, made.expiresAt)), pid, events)
    requires SavedAndAnswered(h, turns, s.procs[pid].data, signer, reply, after)
    ensures var t := SavingOn(s, pid, signer, First(turns).fault, events);
            Tied(after, t) && pid in t.procs && Answers(reply, t.procs[pid])
  {
    var made, fault := signer.refresh.value, First(turns).fault;
    var generated := S.Next(s, S.Generate(pid, true, made.id, made.expiresAt));
    Generates(h, s, pid, made);
    SaveTried(h, turns, generated, pid, events);
    var saved := S.Next(After(generated, events), S.Save(pid, fault));
    if saved.procs[pid].Stored200? {
      Replies(after, saved, pid, signer.validates.Some?);
    }
  }

  lemma Generates(h: History, s: S.State, pid: nat, made: Generated)
    requires Tied(h, s) && pid in s.procs && s.procs[pid].Ready? && made.id !in s.used
    ensures var p, t := s.procs[pid], S.Next(s, S.Generate(pid, true, made.id, made.expiresAt));
            && Tied(h, t) && pid in t.procs
            && t.procs[pid] == S.Saving(made.id, made.expiresAt, p.data, p.login, p.refreshing)
  {
    OneStep(h, s, S.Generate(pid, true, made.id, made.expiresAt));
  }

  lemma SaveTried(h: History, turns: seq<Turn>, s: S.State, pid: nat, events: seq<Event>)
    requires Tied(h, s) && pid in s.procs && s.procs[pid].Saving? && Faces(First(turns), s, pid, events)
    ensures var p, met, fault := s.procs[pid], Met(h, turns, 0), First(turns).fault;
            var t := S.Next(After(s, events), S.Save(pid, fault));
            && Tied(if fault.Lost? then met else Written(met, PutToken(p.id, S.Saved(p.data, p.expiresAt))), t)
            && pid in t.procs
            && t.procs[pid] == if fault == NoFault then S.Stored200(p.id, p.data) else S.Done(S.Unauthorized)
  {
    OneCall(h, First(turns), s, pid, events, S.Save(pid, First(turns).fault));
    SavesAlike(Met(h, turns, 0), After(s, events), pid, First(turns).fault);
  }

  lemma Replies(h: History, s: S.State, pid: nat, ok: bool)
    requires Tied(h, s) && pid in s.procs && s.procs[pid].Stored200?
    ensures var p, t := s.procs[pid], S.Next(s, S.Reply(pid, ok));
            && Tied(h, t) && pid in t.procs
            && t.procs[pid] == S.Done(if ok then S.Ok(p.id, p.data) else S.Unauthorized)
  {
    OneStep(h, s, S.Reply(pid, ok));
  }

  lemma SavesAlike(met: History, s: S.State, pid: nat, fault: Fault)
    requires pid in s.procs && s.procs[pid].Saving?
    ensures var p, t, step := s.procs[pid], S.Next(s, S.Save(pid, fault)), S.Save(pid, fault);
            && Played(met, SessionCalls(s, step)) ==
               (if fault.Lost? then met else Written(met, PutToken(p.id, S.Saved(p.data, p.expiresAt))))
            && pid in t.procs
            && t.procs[pid] == if fault == NoFault then S.Stored200(p.id, p.data) else S.Done(S.Unauthorized)
  {
    var calls := SessionCalls(s, S.Save(pid, fault));
    if calls != [] {
      PlayedOne(met, calls[0]);
    }
  }

  // ---------------------------------------------------------------------------------------
  // The requests
  // ---------------------------------------------------------------------------------------

  /** PostLoginGoogle, from the moment the Google token has validated. */
  function LoggingIn(s: S.State, pid: nat, data: S.Session, signer: Signer, fault: Fault, events: seq<Event>): S.State {
    var begun := S.Next(s, S.Login(pid, data));
    if Works(signer) then SavingOn(begun, pid, signer, fault, events)
    else S.Next(begun, S.Generate(pid, false, "", 0))
  }

  lemma LoginRefines(h: History, turns: seq<Turn>, s: S.State, pid: nat, google: (string, string), isAdmin: bool,
      signer: Signer, events: seq<Event>, reply: Reply, after: seq<Items>)
    requires Tied(h, s) && pid !in s.procs && LoggedIn(h, turns, Some(google), isAdmin, signer, reply, after)
    requires Works(signer) ==>
               var made, begun := signer.refresh.value, S.Next(s, S.Login(pid, SessionOf(google, isAdmin)));
               && made.id !in s.used
               && Faces(First(turns), S.Next(begun, S.Generate(pid, true, made.id, made.expiresAt)), pid, events)
    ensures var t := LoggingIn(s, pid, SessionOf(google, isAdmin), signer, First(turns).fault, events);
            Tied(after, t) && pid in t.procs && Answers(reply, t.procs[pid])
  {
    LoginBegins(h, s, pid, SessionOf(google, isAdmin));
    var begun := S.Next(s, S.Login(pid, SessionOf(google, isAdmin)));
    if Works(signer) {
      SaveRefines(h, turns, begun, pid, signer, events, reply, after);
    } else {
      GivesUp(h, begun, pid);
    }
  }

  lemma LoginBegins(h: History, s: S.State, pid: nat, data: S.Session)
    requires Tied(h, s) && pid !in s.procs
    ensures var t := S.Next(s, S.Login(pid, data));
            Tied(h, t) && pid in t.procs && t.procs[pid] == S.Ready(data, pid, false) && t.used == s.used
  {
    OneStep(h, s, S.Login(pid, data));
  }

  /** No token could be made. */
  lemma GivesUp(h: History, s: S.State, pid: nat)
    requires Tied(h, s) && pid in s.procs && s.procs[pid].Ready?
    ensures var t := S.Next(s, S.Generate(pid, false, "", 0));
            Tied(h, t) && pid in t.procs && t.procs[pid] == S.Done(S.Unauthorized)
  {
    OneStep(h, s, S.Generate(pid, false, "", 0));
  }

  /** The machine's steps of one PostLoginRefresh. */
  function Refreshing(s: S.State, pid: nat, id: string, view: S.View, signer: Signer, turns: seq<Turn>, e0: seq<Event>,
      e1: seq<Event>, e2: seq<Event>): S.State
  {
    var got := S.Next(After(s, e0), S.Get(pid, id, view, First(turns).fault));
    if pid !in got.procs || !got.procs[pid].Held? then got
    else
      var dropped := S.Next(After(got, e1), S.Drop(pid, First(Rest(turns)).fault));
      if Works(signer) then SavingOn(dropped, pid, signer, First(Rest(Rest(turns))).fault, e2)
      else S.Next(dropped, S.Generate(pid, false, "", 0))
  }

  /** What precedes the Delete and the Save; the new token's id is fresh when it is generated. */
  ghost predicate FacesRotation(turns: seq<Turn>, got: S.State, pid: nat, signer: Signer, e1: seq<Event>,
      e2: seq<Event>)
  {
    var dropped := S.Next(After(got, e1), S.Drop(pid, First(turns).fault));
    && Faces(First(turns), got, pid, e1)
    && (Works(signer) ==>
          var made := signer.refresh.value;
          && made.id !in dropped.used
          && Faces(First(Rest(turns)), S.Next(dropped, S.Generate(pid, true, made.id, made.expiresAt)), pid, e2))
  }

  /** Every read that can happen is one of the machine's views. */
  lemma SomeViewIsRead(h: History, s: S.State, id: string, lag: nat) returns (view: S.View)
    requires Tied(h, s)
    ensures S.Viewed(s, id, view) == TokenAt(Seen(h, lag), id)
  {
    var i := if lag < |h| then |h| - 1 - lag else 0;
    assert Shows(h[i], s);
    view := if TokenAt(h[i], id).None? then S.Absent else S.AsSaved;
  }

  /**
    The read may be stale: `view` names what it sees.  The clock is the machine's, and nobody can
    present an id before it is stored.
   */
  lemma RefreshRefines(h: History, turns: seq<Turn>, s: S.State, pid: nat, id: string, view: S.View, now: int,
      signer: Signer, e0: seq<Event>, e1: seq<Event>, e2: seq<Event>, reply: Reply, after: seq<Items>)
    requires Tied(h, s) && pid !in s.procs && Refreshed(h, turns, id, now, signer, reply, after)
    requires Faces(First(turns), s, pid, e0)
    requires var t, met := After(s, e0), Met(h, turns, 0);
             && now == t.clock && !S.Secret(t, id)
             && S.Viewed(t, id, view) == TokenAt(Seen(met, First(turns).lag), id)
    requires var got := S.Next(After(s, e0), S.Get(pid, id, view, First(turns).fault));
             pid in got.procs && got.procs[pid].Held? ==> FacesRotation(Rest(turns), got, pid, signer, e1, e2)
    ensures var t := Refreshing(s, pid, id, view, signer, turns, e0, e1, e2);
            Tied(after, t) && pid in t.procs && Answers(reply, t.procs[pid])
  {
    GetTried(h, turns, s, pid, id, view, e0);
    var got := S.Next(After(s, e0), S.Get(pid, id, view, First(turns).fault));
    if got.procs[pid].Held? {
      RotationRefines(Met(h, turns, 0), Rest(turns), got, pid, signer, e1, e2, reply, after);
    }
  }

  lemma GetTried(h: History, turns: seq<Turn>, s: S.State, pid: nat, id: string, view: S.View, e0: seq<Event>)
    requires Tied(h, s) && pid !in s.procs && Faces(First(turns), s, pid, e0)
    requires var t, met := After(s, e0), Met(h, turns, 0);
             !S.Secret(t, id) && S.Viewed(t, id, view) == TokenAt(Seen(met, First(turns).lag), id)
    ensures var t := S.Next(After(s, e0), S.Get(pid, id, view, First(turns).fault));
            var found := Found(h, turns, id, After(s, e0).clock);
            && Tied(Met(h, turns, 0), t) && pid in t.procs
            && (found.Failure? ==> t.procs[pid] == S.Done(S.Unauthorized))
            && (found.Success? ==> t.procs[pid].Held? && t.procs[pid].id == id && t.procs[pid].data == found.value)
  {
    GetTied(h, turns, s, pid, id, view, e0);
    GetsAlike(After(s, e0), pid, id, view, First(turns).fault);
  }

  lemma GetTied(h: History, turns: seq<Turn>, s: S.State, pid: nat, id: string, view: S.View, e0: seq<Event>)
    requires Tied(h, s) && pid !in s.procs && Faces(First(turns), s, pid, e0)
    ensures Tied(Met(h, turns, 0), S.Next(After(s, e0), S.Get(pid, id, view, First(turns).fault)))
    ensures pid !in After(s, e0).procs
  {
    QuietCall(h, First(turns), s, pid, e0, S.Get(pid, id, view, First(turns).fault));
  }

  lemma GetsAlike(s: S.State, pid: nat, id: string, view: S.View, fault: Fault)
    requires pid !in s.procs && !S.Secret(s, id)
    ensures var t := S.Next(s, S.Get(pid, id, view, fault));
            var found := if fault != NoFault then Failure(TokenStoreFailed)
                  else Answered(S.Viewed(s, id, view), s.clock);
            && pid in t.procs
            && (found.Failure? ==> t.procs[pid] == S.Done(S.Unauthorized))
            && (found.Success? ==> t.procs[pid].Held? && t.procs[pid].id == id && t.procs[pid].data == found.value)
  {
  }

  /** From a held token to the answer. */
  lemma RotationRefines(h: History, turns: seq<Turn>, got: S.State, pid: nat, signer: Signer, e1: seq<Event>,
      e2: seq<Event>, reply: Reply, after: seq<Items>)
    requires Tied(h, got) && pid in got.procs && got.procs[pid].Held?
    requires FacesRotation(turns, got, pid, signer, e1, e2)
    requires var dropped := Deleting(h, turns, got.procs[pid].id);
             if Works(signer) then SavedAndAnswered(dropped, Rest(turns), got.procs[pid].data, signer, reply, after)
             else reply == Reply401 && after == dropped
    ensures var dropped := S.Next(After(got, e1), S.Drop(pid, First(turns).fault));
            var t := if Works(signer) then SavingOn(dropped, pid, signer, First(Rest(turns)).fault, e2)
                     else S.Next(dropped, S.Generate(pid, false, "", 0));
            Tied(after, t) && pid in t.procs && Answers(reply, t.procs[pid])
  {
    var drop := S.Drop(pid, First(turns).fault);
    OneCall(h, First(turns), got, pid, e1, drop);
    DropsAlike(Met(h, turns, 0), After(got, e1), pid, First(turns).fault);
    var dropped := S.Next(After(got, e1), drop);
    if Works(signer) {
      SaveRefines(Deleting(h, turns, got.procs[pid].id), Rest(turns), dropped, pid, signer, e2, reply, after);
    } else {
      GivesUp(after, dropped, pid);
    }
  }

  lemma DropsAlike(met: History, s: S.State, pid: nat, fault: Fault)
    requires pid in s.procs && s.procs[pid].Held?
    ensures var p, t, step := s.procs[pid], S.Next(s, S.Drop(pid, fault)), S.Drop(pid, fault);
            && Played(met, SessionCalls(s, step)) == (if fault.Lost? then met else Written(met, DeleteToken(p.id)))
            && pid in t.procs && t.procs[pid] == S.Ready(p.data, p.login, true)
  {
    var calls := SessionCalls(s, S.Drop(pid, fault));
    if calls != [] {
      PlayedOne(met, calls[0]);
    }
  }

  /** A logout with a token id; nobody can present an id before it is stored. */
  lemma LogoutRefines(h: History, turns: seq<Turn>, s: S.State, pid: nat, id: string, events: seq<Event>)
    requires Tied(h, s) && pid !in s.procs && Faces(First(turns), s, pid, events) && !S.Secret(After(s, events), id)
    ensures var t := S.Next(After(s, events), S.Logout(pid, id, First(turns).fault));
            Tied(Deleting(h, turns, id), t) && pid in t.procs && t.procs[pid] == S.Done(S.LoggedOut)
  {
    OneCall(h, First(turns), s, pid, events, S.Logout(pid, id, First(turns).fault));
    LogoutsAlike(Met(h, turns, 0), After(s, events), pid, id, First(turns).fault);
  }

  lemma LogoutsAlike(met: History, s: S.State, pid: nat, id: string, fault: Fault)
    requires pid !in s.procs && !S.Secret(s, id)
    ensures var step := S.Logout(pid, id, fault);
            var t := S.Next(s, step);
            && Played(met, SessionCalls(s, step)) == (if fault.Lost? then met else Written(met, DeleteToken(id)))
            && pid in t.procs && t.procs[pid] == S.Done(S.LoggedOut)
  {
    var calls := SessionCalls(s, S.Logout(pid, id, fault));
    if calls != [] {
      PlayedOne(met, calls[0]);
    }
  }

  // ---------------------------------------------------------------------------------------
  // What callers can rely on
  // ---------------------------------------------------------------------------------------

  /** Whatever user a 200 reply describes has logged in, with exactly this email, picture and roles. */
  lemma RepliesComeFromLogins(h: seq<Items>, s: S.State, pid: nat, reply: Reply)
    requires Tied(h, s) && pid in s.procs && Answers(reply, s.procs[pid]) && reply.Reply200?
    ensures exists login :: login in s.logins && InfoOf(s.logins[login], reply.user.expiresAt) == reply.user
  {
    T.AnswersComeFromLogins(s, pid);
  }
}
