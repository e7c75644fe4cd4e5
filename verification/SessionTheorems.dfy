/** What every run of the refresh-token machine guarantees. */
module SessionTheorems {
  import opened Wrappers
  import opened Faults
  import opened Sessions

  // ---------------------------------------------------------------------------------------
  // Lineage
  // ---------------------------------------------------------------------------------------

  /**
    Every token, stored now or ever, holds the email, picture and role sequence of one earlier
    login, through any number of refreshes, interleavings, failures and stale reads.
   */
  lemma Lineage(s: State, id: string)
    requires Reached(s) && (id in s.store || id in s.ever)
    ensures id in s.ever && (id in s.store ==> s.store[id] == s.ever[id])
    ensures id in s.origin && s.origin[id] in s.logins && Loaded(s.ever[id]) == s.logins[s.origin[id]]
  {
    ReachedInv(s);
  }

  /** So does every session that a login or refresh answers with. */
  lemma AnswersComeFromLogins(s: State, pid: nat)
    requires Reached(s) && pid in s.procs && s.procs[pid].Done? && s.procs[pid].answer.Ok?
    ensures exists login :: login in s.logins && s.logins[login] == s.procs[pid].answer.data
  {
    ReachedInv(s);
    assert ProcInv(s, pid);
    var login :| Genuine(s, s.procs[pid].answer.data, login);
  }

  // ---------------------------------------------------------------------------------------
  // No reuse after deletion
  // ---------------------------------------------------------------------------------------

  lemma {:induction false} GoneStaysGone(s: State, steps: seq<Step>)
    ensures s.gone <= Run(s, steps).gone
  {
    if steps == [] {
    } else {
      GoneStaysGone(s, steps[..|steps| - 1]);
      GoneGrows(Run(s, steps[..|steps| - 1]), steps[|steps| - 1]);
    }
  }

  lemma GoneGrows(s: State, step: Step)
    ensures s.gone <= Next(s, step).gone
  {
    if Quiet(step) {
      QuietKeepsGone(s, step);
    }
  }

  lemma QuietKeepsGone(s: State, step: Step)
    requires Quiet(step)
    ensures Next(s, step).gone == s.gone
  {
  }

  lemma RunSnoc(s: State, steps: seq<Step>, last: Step)
    ensures Run(s, steps + [last]) == Next(Run(s, steps), last)
  {
    assert (steps + [last])[..|steps|] == steps;
  }

  lemma {:induction false} RunReached(s: State, more: seq<Step>)
    requires Reached(s)
    ensures Reached(Run(s, more))
  {
    if more == [] {
    } else {
      var init, last := more[..|more| - 1], more[|more| - 1];
      RunReached(s, init);
      var now, steps :| Run(s, init) == Run(Start(now), steps);
      RunSnoc(Start(now), steps, last);
    }
  }

  lemma {:induction false} DoneIsFinal(s: State, steps: seq<Step>, pid: nat)
    requires pid in s.procs && s.procs[pid].Done?
    ensures pid in Run(s, steps).procs && Run(s, steps).procs[pid] == s.procs[pid]
  {
    if steps == [] {
    } else {
      DoneIsFinal(s, steps[..|steps| - 1], pid);
      NextKeepsDone(Run(s, steps[..|steps| - 1]), steps[|steps| - 1], pid);
    }
  }

  lemma NextKeepsDone(s: State, step: Step, pid: nat)
    requires pid in s.procs && s.procs[pid].Done?
    ensures pid in Next(s, step).procs && Next(s, step).procs[pid] == s.procs[pid]
  {
    if Quiet(step) {
      QuietKeepsDone(s, step, pid);
    }
  }

  lemma QuietKeepsDone(s: State, step: Step, pid: nat)
    requires pid in s.procs && s.procs[pid].Done? && Quiet(step)
    ensures pid in Next(s, step).procs && Next(s, step).procs[pid] == s.procs[pid]
  {
  }

  /**
    Once a Delete of an id has been applied, by a refresh or a logout, the id is never stored
    again and a refresh whose Get comes later answers 401, in every interleaving, unless that Get
    sees a version older than the Delete.
   */
  lemma NoReuseAfterDelete(s: State, between: seq<Step>, pid: nat, id: string, view: View, fault: Fault,
      after: seq<Step>)
    requires Reached(s) && id in s.gone
    requires pid !in Run(s, between).procs && !view.AsSaved?
    ensures var t := Run(s, between);
            && id !in t.store
            && var u := Run(Next(t, Get(pid, id, view, fault)), after);
               pid in u.procs && u.procs[pid] == Done(Unauthorized)
  {
    var t := Run(s, between);
    GoneStaysGone(s, between);
    RunReached(s, between);
    ReachedInv(t);
    assert forall p :: p in t.procs ==> ProcInv(t, p);
    DoneIsFinal(Next(t, Get(pid, id, view, fault)), after, pid);
  }

  /** A saved token is never saved again, so its record as saved stays what it was. */
  lemma EverKept(s: State, step: Step, id: string)
    requires Reached(s) && id in s.ever
    ensures id in Next(s, step).ever && Next(s, step).ever[id] == s.ever[id]
  {
    if Quiet(step) {
      QuietKeepsEver(s, step);
    } else if step.Save? && step.pid in s.procs && s.procs[step.pid].Saving? {
      SavingIsNew(s, step.pid);
    }
  }

  lemma SavingIsNew(s: State, pid: nat)
    requires Reached(s) && pid in s.procs && s.procs[pid].Saving?
    ensures s.procs[pid].id !in s.ever
  {
    ReachedInv(s);
    assert ProcInv(s, pid);
  }

  lemma QuietKeepsEver(s: State, step: Step)
    requires Quiet(step)
    ensures Next(s, step).ever == s.ever
  {
  }

  lemma ReachedStore(s: State, id: string)
    requires Reached(s)
    ensures id in s.store ==> id in s.ever && s.store[id] == s.ever[id] && id !in s.gone
    ensures id in s.ever && id !in s.gone ==> id in s.store || Expired(s.ever[id], s.clock)
  {
    ReachedInv(s);
  }

  /**
    Exactly which Gets are accepted, in every run, swept or not.  A token can be used any number
    of times until it expires, as long as no Delete of it has been applied; and after that only
    by a read that still sees the record as it was saved.
   */
  lemma AcceptedIff(s: State, pid: nat, id: string, view: View)
    requires Reached(s) && pid !in s.procs && !Secret(s, id)
    ensures var t := Next(s, Get(pid, id, view, NoFault));
            var accepted := && id in s.ever && s.clock <= s.ever[id].expiresAt
                            && (view.AsSaved? || (view.Current? && id !in s.gone));
            && pid in t.procs
            && (accepted ==> t.procs[pid].Held? && t.procs[pid].id == id && t.procs[pid].data == Loaded(s.ever[id]))
            && (!accepted ==> t.procs[pid] == Done(Unauthorized))
  {
    ReachedStore(s, id);
  }

  // ---------------------------------------------------------------------------------------
  // TTL transparency
  // ---------------------------------------------------------------------------------------

  /** ttl = floor(expiresAt) and a strict comparison of whole seconds: only expired records go. */
  lemma SweepableIsExpired(item: Stored, now: int)
    requires item.ttl == Unix(item.expiresAt) && Sweepable(item, now)
    ensures now > item.expiresAt
  {
  }

  /** The two stores agree on every record that has not expired. */
  ghost predicate Agree(swept: State, plain: State) {
    && swept.clock == plain.clock && swept.procs == plain.procs && swept.used == plain.used && swept.ever == plain.ever
    && swept.gone == plain.gone && swept.origin == plain.origin && swept.logins == plain.logins
    && (forall id :: id in swept.store ==> id in plain.store && swept.store[id] == plain.store[id])
    && (forall id :: id in plain.store && plain.clock <= plain.store[id].expiresAt ==> id in swept.store)
  }

  /** The run without its sweeps. */
  function Unswept(steps: seq<Step>): seq<Step> {
    if steps == [] then []
    else
      var last := steps[|steps| - 1];
      if last.Sweep? then Unswept(steps[..|steps| - 1]) else Unswept(steps[..|steps| - 1]) + [last]
  }

  lemma SweepKeepsAgreement(swept: State, plain: State, id: string)
    requires EverInv(swept) && StoreInv(swept) && Agree(swept, plain)
    ensures Agree(Next(swept, Sweep(id)), plain)
  {
    if id in swept.store && Sweepable(swept.store[id], swept.clock) {
      SweepableIsExpired(swept.store[id], swept.clock);
    }
  }

  lemma StepKeepsAgreement(swept: State, plain: State, step: Step)
    requires Agree(swept, plain) && !step.Sweep?
    ensures Agree(Next(swept, step), Next(plain, step))
  {
    match step
    case Get(_, _, _, _) => GetKeepsAgreement(swept, plain, step);
    case Drop(_, _) => DropKeepsAgreement(swept, plain, step);
    case Save(_, _) => SaveKeepsAgreement(swept, plain, step);
    case Logout(_, _, _) => LogoutKeepsAgreement(swept, plain, step);
    case _ => OthersKeepAgreement(swept, plain, step);
  }

  lemma OthersKeepAgreement(swept: State, plain: State, step: Step)
    requires Agree(swept, plain) && (step.Tick? || step.Login? || step.Generate? || step.Reply?)
    ensures Agree(Next(swept, step), Next(plain, step))
  {
    if step.Generate? {
      GenerateKeepsAgreement(swept, plain, step);
    }
  }

  lemma GenerateKeepsAgreement(swept: State, plain: State, step: Step)
    requires Agree(swept, plain) && step.Generate?
    ensures Agree(Next(swept, step), Next(plain, step))
  {
    if step.pid in swept.procs && swept.procs[step.pid].Ready? {
      GeneratedAgrees(swept, plain, step.pid, step.id, step.expiresAt);
    }
  }

  lemma GeneratedAgrees(swept: State, plain: State, pid: nat, id: string, expiresAt: int)
    requires Agree(swept, plain) && pid in swept.procs && swept.procs[pid].Ready?
    ensures Agree(Generated(swept, pid, id, expiresAt), Generated(plain, pid, id, expiresAt))
  {
  }

  /** A Get sees the same record in both stores, or an expired one in the unswept store only. */
  lemma GetKeepsAgreement(swept: State, plain: State, step: Step)
    requires Agree(swept, plain) && step.Get?
    ensures Agree(Next(swept, step), Next(plain, step))
  {
    assert Secret(swept, step.id) <==> Secret(plain, step.id);
    GotAlike(swept, plain, step.id, step.view, step.fault);
  }

  lemma GotAlike(swept: State, plain: State, id: string, view: View, fault: Fault)
    requires Agree(swept, plain)
    ensures Got(swept, id, view, fault) == Got(plain, id, view, fault)
  {
  }

  lemma DropKeepsAgreement(swept: State, plain: State, step: Step)
    requires Agree(swept, plain) && step.Drop?
    ensures Agree(Next(swept, step), Next(plain, step))
  {
  }

  lemma SaveKeepsAgreement(swept: State, plain: State, step: Step)
    requires Agree(swept, plain) && step.Save?
    ensures Agree(Next(swept, step), Next(plain, step))
  {
    if step.pid in swept.procs && swept.procs[step.pid].Saving? {
      SavedNewAgrees(swept, plain, step.pid, step.fault);
    }
  }

  lemma SavedNewAgrees(swept: State, plain: State, pid: nat, fault: Fault)
    requires Agree(swept, plain) && pid in swept.procs && swept.procs[pid].Saving?
    ensures Agree(SavedNew(swept, pid, fault), SavedNew(plain, pid, fault))
  {
  }

  lemma LogoutKeepsAgreement(swept: State, plain: State, step: Step)
    requires Agree(swept, plain) && step.Logout?
    ensures Agree(Next(swept, step), Next(plain, step))
  {
    assert Secret(swept, step.id) <==> Secret(plain, step.id);
    EndedKeepsAgreement(swept, plain, step.pid, step.id, step.fault);
  }

  lemma EndedKeepsAgreement(swept: State, plain: State, pid: nat, id: string, fault: Fault)
    requires Agree(swept, plain)
    ensures Agree(Ended(swept, pid, id, fault), Ended(plain, pid, id, fault))
  {
  }

  /**
    The sweeper is invisible: with and without sweeps every request stands at the same point
    with the same answer, and the stores agree on all unexpired records.
   */
  lemma {:induction false} TtlTransparency(now: int, steps: seq<Step>)
    ensures Agree(Run(Start(now), steps), Run(Start(now), Unswept(steps)))
  {
    if steps == [] {
    } else {
      var before, last := steps[..|steps| - 1], steps[|steps| - 1];
      TtlTransparency(now, before);
      var swept, plain := Run(Start(now), before), Run(Start(now), Unswept(before));
      if last.Sweep? {
        RunKeepsInv(Start(now), before);
        SweepKeepsAgreement(swept, plain, last.swept);
      } else {
        assert Unswept(steps)[..|Unswept(steps)| - 1] == Unswept(before);
        StepKeepsAgreement(swept, plain, last);
      }
    }
  }

  // ---------------------------------------------------------------------------------------
  // Accounting
  // ---------------------------------------------------------------------------------------

  /** Refreshes that have dropped their old token and not yet stored the new one. */
  function InFlight(procs: map<nat, Proc>): set<nat> {
    set p | p in procs && ((procs[p].Ready? && procs[p].refreshing) || (procs[p].Saving? && procs[p].refreshing))
  }

  function Credit(t: Tally): nat {
    t.loginSaves + t.failedDeletes + t.emptyDeletes
  }

  ghost predicate Balanced(s: State) {
    |s.store| + |InFlight(s.procs)| <= Credit(s.tally)
  }

  predicate Flying(proc: Proc) {
    (proc.Ready? && proc.refreshing) || (proc.Saving? && proc.refreshing)
  }

  lemma InFlightMove(procs: map<nat, Proc>, pid: nat, proc: Proc)
    ensures InFlight(procs[pid := proc]) == InFlight(procs) - {pid} + (if Flying(proc) then {pid} else {})
    ensures var before := if pid in procs && Flying(procs[pid]) then 1 else 0;
            var after := if Flying(proc) then 1 else 0;
            |InFlight(procs[pid := proc])| == |InFlight(procs)| - before + after
  {
    var moved := InFlight(procs) - {pid} + (if Flying(proc) then {pid} else {});
    assert InFlight(procs[pid := proc]) == moved;
    assert |InFlight(procs) - {pid}| == |InFlight(procs)| - if pid in InFlight(procs) then 1 else 0;
  }

  lemma RemoveSize(store: map<string, Stored>, id: string)
    ensures |store - {id}| == |store| - if id in store then 1 else 0
  {
    assert (store - {id}).Keys == store.Keys - {id};
    assert |store| == |store.Keys| && |store - {id}| == |(store - {id}).Keys|;
  }

  lemma AddSize(store: map<string, Stored>, id: string, item: Stored)
    ensures |store[id := item]| <= |store| + 1
  {
    assert store[id := item].Keys == store.Keys + {id};
    assert |store| == |store.Keys| && |store[id := item]| == |store[id := item].Keys|;
  }

  /** A request's own progress changes the balance by whether it is in flight. */
  lemma DropKeepsBalance(s: State, pid: nat, fault: Fault)
    requires Balanced(s) && pid in s.procs && s.procs[pid].Held?
    ensures Balanced(Dropped(s, pid, fault))
  {
    InFlightMove(s.procs, pid, Dropped(s, pid, fault).procs[pid]);
    RemoveSize(s.store, s.procs[pid].id);
  }

  lemma SaveKeepsBalance(s: State, pid: nat, fault: Fault)
    requires Balanced(s) && pid in s.procs && s.procs[pid].Saving?
    ensures Balanced(SavedNew(s, pid, fault))
  {
    InFlightMove(s.procs, pid, SavedNew(s, pid, fault).procs[pid]);
    AddSize(s.store, s.procs[pid].id, Saved(s.procs[pid].data, s.procs[pid].expiresAt));
  }

  lemma MoveKeepsBalance(s: State, t: State, pid: nat)
    requires Balanced(s) && pid in t.procs && t.procs == s.procs[pid := t.procs[pid]]
    requires |t.store| <= |s.store| && t.tally == s.tally
    requires Flying(t.procs[pid]) ==> pid in s.procs && Flying(s.procs[pid])
    ensures Balanced(t)
  {
    InFlightMove(s.procs, pid, t.procs[pid]);
  }

  lemma QuietSteps(s: State, step: Step)
    requires Quiet(step) && Next(s, step) != s
    ensures var t, pid := Next(s, step), step.pid;
            && pid in t.procs && t.procs == s.procs[pid := t.procs[pid]] && t.store == s.store && t.tally == s.tally
            && (Flying(t.procs[pid]) ==> pid in s.procs && Flying(s.procs[pid]))
  {
    if step.Generate? {
      GenerateFlies(s, step);
    } else if step.Get? {
      GetGrounded(s, step);
    }
  }

  lemma GenerateFlies(s: State, step: Step)
    requires step.Generate? && Next(s, step) != s
    ensures var t, pid := Next(s, step), step.pid;
            && pid in t.procs && t.procs == s.procs[pid := t.procs[pid]] && t.store == s.store && t.tally == s.tally
            && (Flying(t.procs[pid]) ==> pid in s.procs && Flying(s.procs[pid]))
  {
  }

  lemma GetGrounded(s: State, step: Step)
    requires step.Get? && Next(s, step) != s
    ensures var t, pid := Next(s, step), step.pid;
            && pid in t.procs && t.procs == s.procs[pid := t.procs[pid]] && t.store == s.store && t.tally == s.tally
            && !Flying(t.procs[pid])
  {
  }

  lemma QuietKeepsBalance(s: State, step: Step)
    requires Balanced(s) && Quiet(step) && Next(s, step) != s
    ensures Balanced(Next(s, step))
  {
    QuietSteps(s, step);
    MoveKeepsBalance(s, Next(s, step), step.pid);
  }

  lemma SweepKeepsBalance(s: State, id: string)
    requires Balanced(s)
    ensures Balanced(Next(s, Sweep(id)))
  {
    RemoveSize(s.store, id);
  }

  lemma LogoutKeepsBalance(s: State, pid: nat, id: string, fault: Fault)
    requires Balanced(s) && pid !in s.procs
    ensures Balanced(Ended(s, pid, id, fault))
  {
    RemoveSize(s.store, id);
    MoveKeepsBalance(s, Ended(s, pid, id, fault), pid);
  }

  lemma NextKeepsBalance(s: State, step: Step)
    requires Balanced(s)
    ensures Balanced(Next(s, step))
  {
    if Next(s, step) != s {
      match step
      case Tick(_) =>
      case Sweep(id) => SweepKeepsBalance(s, id);
      case Drop(pid, fault) => DropKeepsBalance(s, pid, fault);
      case Save(pid, fault) => SaveKeepsBalance(s, pid, fault);
      case Logout(pid, id, fault) => LogoutKeepsBalance(s, pid, id, fault);
      case _ => QuietKeepsBalance(s, step);
    }
  }

  /**
    In every interleaving the live records, with the refreshes about to store one, never exceed
    the login saves plus the refresh deletes that failed or found nothing left to delete.
   */
  lemma {:induction false} LiveRecordsBounded(now: int, steps: seq<Step>)
    ensures Balanced(Run(Start(now), steps))
  {
    if steps == [] {
      assert InFlight(Start(now).procs) == {};
    } else {
      LiveRecordsBounded(now, steps[..|steps| - 1]);
      NextKeepsBalance(Run(Start(now), steps[..|steps| - 1]), steps[|steps| - 1]);
    }
  }

  function Pid(step: Step): Option<nat> {
    if step.Tick? || step.Sweep? then None else Some(step.pid)
  }

  /** One request at a time: a step belongs to the request under way,
        if there is one.  The clock and the sweeper run on. */
  ghost predicate Serial(now: int, steps: seq<Step>) {
    forall i {:trigger steps[i]} :: 0 <= i < |steps| ==> SerialStep(Run(Start(now), steps[..i]), steps[i])
  }

  ghost predicate SerialStep(s: State, step: Step) {
    forall p :: p in s.procs && !s.procs[p].Done? ==> step.Tick? || step.Sweep? || Pid(step) == Some(p)
  }

  /** The step does not read a version older than a Delete. */
  predicate Fresh(step: Step) {
    step.Get? ==> !step.view.AsSaved?
  }

  ghost predicate SerialInv(s: State) {
    && s.tally.emptyDeletes == 0
    && forall p :: p in s.procs && s.procs[p].Held? ==> s.procs[p].id in s.store
  }

  lemma SerialStepKeeps(s: State, step: Step)
    requires SerialInv(s) && SerialStep(s, step) && !step.Sweep? && Fresh(step)
    ensures SerialInv(Next(s, step))
  {
    if Quiet(step) {
      SerialQuietStepKeeps(s, step);
    }
  }

  lemma SerialQuietStepKeeps(s: State, step: Step)
    requires SerialInv(s) && Quiet(step) && Fresh(step)
    ensures SerialInv(Next(s, step))
  {
  }

  lemma SerialPrefix(now: int, steps: seq<Step>)
    requires Serial(now, steps) && steps != []
    ensures Serial(now, steps[..|steps| - 1])
  {
    var before := steps[..|steps| - 1];
    forall i | 0 <= i < |before| ensures SerialStep(Run(Start(now), before[..i]), before[i]) {
      assert before[i] == steps[i] && before[..i] == steps[..i];
    }
  }

  lemma SerialSnoc(now: int, steps: seq<Step>, last: Step)
    requires Serial(now, steps) && SerialStep(Run(Start(now), steps), last)
    ensures Serial(now, steps + [last])
  {
    var all := steps + [last];
    forall i | 0 <= i < |all| ensures SerialStep(Run(Start(now), all[..i]), all[i]) {
      if i < |steps| {
        assert all[i] == steps[i] && all[..i] == steps[..i];
      } else {
        assert all[..i] == steps;
      }
    }
  }

  /** A sequential run stays one without its sweeps, and saves and fails the same. */
  lemma {:induction false} UnsweptIsSerial(now: int, steps: seq<Step>)
    requires Serial(now, steps)
    ensures Serial(now, Unswept(steps))
    ensures SameCredit(Run(Start(now), steps).tally, Run(Start(now), Unswept(steps)).tally)
  {
    if steps == [] {
    } else {
      var before, last := steps[..|steps| - 1], steps[|steps| - 1];
      SerialPrefix(now, steps);
      UnsweptIsSerial(now, before);
      TtlTransparency(now, before);
      var swept, plain := Run(Start(now), before), Run(Start(now), Unswept(before));
      if !last.Sweep? {
        assert SerialStep(swept, last);
        SerialSnoc(now, Unswept(before), last);
        RunSnoc(Start(now), Unswept(before), last);
        StepKeepsCredit(swept, plain, last);
      }
    }
  }

  ghost predicate SameCredit(a: Tally, b: Tally) {
    a.loginSaves == b.loginSaves && a.failedDeletes == b.failedDeletes
  }

  lemma StepKeepsCredit(swept: State, plain: State, step: Step)
    requires Agree(swept, plain) && SameCredit(swept.tally, plain.tally) && !step.Sweep?
    ensures SameCredit(Next(swept, step).tally, Next(plain, step).tally)
  {
    if !step.Drop? && !step.Save? {
      TallyKept(swept, step);
      TallyKept(plain, step);
    }
  }

  lemma TallyKept(s: State, step: Step)
    requires !step.Drop? && !step.Save?
    ensures Next(s, step).tally == s.tally
  {
  }

  lemma {:induction false} SerialKeeps(now: int, steps: seq<Step>)
    requires Serial(now, steps) && forall i :: 0 <= i < |steps| ==> !steps[i].Sweep? && Fresh(steps[i])
    ensures SerialInv(Run(Start(now), steps))
  {
    if steps == [] {
    } else {
      SerialPrefix(now, steps);
      SerialKeeps(now, steps[..|steps| - 1]);
      SerialStepKeeps(Run(Start(now), steps[..|steps| - 1]), steps[|steps| - 1]);
    }
  }

  lemma {:induction false} UnsweptHasNoSweeps(steps: seq<Step>)
    requires forall i :: 0 <= i < |steps| ==> Fresh(steps[i])
    ensures forall i :: 0 <= i < |Unswept(steps)| ==> !Unswept(steps)[i].Sweep? && Fresh(Unswept(steps)[i])
  {
    if steps == [] {
    } else {
      UnsweptHasNoSweeps(steps[..|steps| - 1]);
    }
  }

  lemma {:induction false} SubstoreSize(a: map<string, Stored>, b: map<string, Stored>)
    requires forall id :: id in a ==> id in b
    ensures |a| <= |b|
  {
    if a == map[] {
    } else {
      var id :| id in a;
      RemoveSize(a, id);
      RemoveSize(b, id);
      SubstoreSize(a - {id}, b - {id});
    }
  }

  /**
    In sequential runs, swept or not, whose reads are not older than a Delete, live records never
    exceed login saves plus failed deletes.
   */
  lemma SequentialAccounting(now: int, steps: seq<Step>)
    requires Serial(now, steps) && forall i :: 0 <= i < |steps| ==> Fresh(steps[i])
    ensures var s := Run(Start(now), steps); |s.store| <= s.tally.loginSaves + s.tally.failedDeletes
  {
    var plain := Run(Start(now), Unswept(steps));
    UnsweptIsSerial(now, steps);
    UnsweptHasNoSweeps(steps);
    SerialKeeps(now, Unswept(steps));
    LiveRecordsBounded(now, Unswept(steps));
    TtlTransparency(now, steps);
    SubstoreSize(Run(Start(now), steps).store, plain.store);
  }

  // ---------------------------------------------------------------------------------------
  // Whole refreshes
  // ---------------------------------------------------------------------------------------

  lemma StoredIsKnown(s: State, id: string)
    requires Reached(s) && id in s.store
    ensures !Secret(s, id) && id in s.origin && id in s.used
  {
    ReachedInv(s);
    StoredIsPublic(s, id);
  }

  lemma StoredIsPublic(s: State, id: string)
    requires ProcsInv(s) && id in s.ever
    ensures !Secret(s, id)
  {
    assert forall p :: p in s.procs ==> ProcInv(s, p);
  }

  lemma UnusedIsNotStored(s: State, id: string)
    requires Reached(s) && id !in s.used
    ensures id !in s.store
  {
    ReachedInv(s);
  }

  lemma ReplacedSize(store: map<string, Stored>, id: string, newId: string, item: Stored)
    requires id in store && newId !in store
    ensures |(store - {id})[newId := item]| == |store|
  {
    RemoveSize(store, id);
    AddedSize(store - {id}, newId, item);
  }

  lemma AddedSize(store: map<string, Stored>, id: string, item: Stored)
    requires id !in store
    ensures |store[id := item]| == |store| + 1
  {
    assert store[id := item].Keys == store.Keys + {id};
    assert |store| == |store.Keys| && |store[id := item]| == |store[id := item].Keys|;
  }

  /** A Get that finds an unexpired token. */
  lemma Holds(s: State, pid: nat, id: string)
    requires id in s.store && !Expired(s.store[id], s.clock) && pid !in s.procs && !Secret(s, id) && id in s.origin
    ensures Next(s, Get(pid, id, Current, NoFault)) ==
            s.(used := s.used + {id}, procs := s.procs[pid := Held(id, Loaded(s.store[id]), s.origin[id])])
  {
  }

  lemma StaysKnown(s: State, pid: nat, id: string, held: Proc)
    requires !Secret(s, id) && held.Held?
    ensures !Secret(s.(used := s.used + {id}, procs := s.procs[pid := held]), id)
  {
  }

  lemma Drops(s: State, pid: nat)
    requires pid in s.procs && s.procs[pid].Held?
    ensures var p, t := s.procs[pid], Next(s, Drop(pid, NoFault));
            && t.store == s.store - {p.id} && t.used == s.used
            && t.procs == s.procs[pid := Ready(p.data, p.login, true)]
            && t.tally == if p.id in s.store then s.tally else s.tally.(emptyDeletes := s.tally.emptyDeletes + 1)
  {
  }

  /** From a dropped token to the stored new one. */
  lemma GeneratedThenSaved(s: State, pid: nat, id: string, expiresAt: int)
    requires pid in s.procs && s.procs[pid].Ready? && s.procs[pid].refreshing && id !in s.used
    ensures var p := s.procs[pid];
            var t := Next(Next(s, Generate(pid, true, id, expiresAt)), Save(pid, NoFault));
            && t.store == s.store[id := Saved(p.data, expiresAt)]
            && t.procs == s.procs[pid := Stored200(id, p.data)]
            && t.used == s.used + {id} && t.tally == s.tally
  {
  }

  /** The five steps of a refresh that nothing disturbs. */
  function Refreshed(s: State, pid: nat, id: string, newId: string, expiresAt: int): State {
    var dropped := Next(Next(s, Get(pid, id, Current, NoFault)), Drop(pid, NoFault));
    Next(Next(Next(dropped, Generate(pid, true, newId, expiresAt)), Save(pid, NoFault)), Reply(pid, true))
  }

  /**
    A fault-free refresh answers 200 with the session of the old token, replaces the old record
    by one with the same data under the new id, and leaves the number of records unchanged.
   */
  lemma FaultFreeRefresh(s: State, pid: nat, id: string, newId: string, expiresAt: int)
    requires Reached(s) && id in s.store && s.clock <= s.store[id].expiresAt && pid !in s.procs
    requires newId !in s.used
    ensures var t := Refreshed(s, pid, id, newId, expiresAt);
            && newId in t.store && t.store == (s.store - {id})[newId := t.store[newId]]
            && t.store[newId].email == s.store[id].email && t.store[newId].picture == s.store[id].picture
            && t.store[newId].roles == s.store[id].roles && t.store[newId].expiresAt == expiresAt
            && |t.store| == |s.store|
            && pid in t.procs && t.procs[pid] == Done(Ok(newId, Loaded(s.store[id])))
  {
    StoredIsKnown(s, id);
    UnusedIsNotStored(s, newId);
    var held := Next(s, Get(pid, id, Current, NoFault));
    Holds(s, pid, id);
    var dropped := Next(held, Drop(pid, NoFault));
    Drops(held, pid);
    var saved := Next(Next(dropped, Generate(pid, true, newId, expiresAt)), Save(pid, NoFault));
    GeneratedThenSaved(dropped, pid, newId, expiresAt);
    Replies(saved, pid);
    ReplacedSize(s.store, id, newId, Saved(Loaded(s.store[id]), expiresAt));
  }

  /**
    A refresh of a deleted token whose Get still sees it answers 200 and leaves one record more,
    with no login saved and no delete failed; so the sequential bound needs its reads fresh.
   */
  lemma StaleRefreshAddsRecord(s: State, pid: nat, id: string, newId: string, expiresAt: int)
    requires Reached(s) && id in s.ever && id in s.gone && s.clock <= s.ever[id].expiresAt && pid !in s.procs
    requires newId !in s.used
    ensures var dropped := Next(Next(s, Get(pid, id, AsSaved, NoFault)), Drop(pid, NoFault));
            var saved := Next(Next(dropped, Generate(pid, true, newId, expiresAt)), Save(pid, NoFault));
            var t := Next(saved, Reply(pid, true));
            && |t.store| == |s.store| + 1
            && t.tally == s.tally.(emptyDeletes := s.tally.emptyDeletes + 1)
            && pid in t.procs && t.procs[pid] == Done(Ok(newId, Loaded(s.ever[id])))
  {
    EverIsKnown(s, id);
    UnusedIsNotStored(s, newId);
    var held := Next(s, Get(pid, id, AsSaved, NoFault));
    HoldsStale(s, pid, id);
    var dropped := Next(held, Drop(pid, NoFault));
    Drops(held, pid);
    assert dropped.store == s.store;
    GeneratedThenSaved(dropped, pid, newId, expiresAt);
    Replies(Next(Next(dropped, Generate(pid, true, newId, expiresAt)), Save(pid, NoFault)), pid);
    AddedSize(s.store, newId, Saved(Loaded(s.ever[id]), expiresAt));
  }

  lemma EverIsKnown(s: State, id: string)
    requires Reached(s) && id in s.ever
    ensures !Secret(s, id) && id in s.origin && id in s.used
    ensures id in s.gone ==> id !in s.store
  {
    ReachedInv(s);
    StoredIsPublic(s, id);
  }

  lemma HoldsStale(s: State, pid: nat, id: string)
    requires id in s.ever && !Expired(s.ever[id], s.clock) && pid !in s.procs && !Secret(s, id) && id in s.origin
    ensures Next(s, Get(pid, id, AsSaved, NoFault)) ==
            s.(used := s.used + {id}, procs := s.procs[pid := Held(id, Loaded(s.ever[id]), s.origin[id])])
  {
  }

  lemma Replies(s: State, pid: nat)
    requires pid in s.procs && s.procs[pid].Stored200?
    ensures Next(s, Reply(pid, true)) == s.(procs := s.procs[pid := Done(Ok(s.procs[pid].id, s.procs[pid].data))])
  {
  }

  /**
    Two refreshes of one token that both read it before either deletes it both answer 200 with
    its session, and leave one record more than before; so a token is not single-use, and the
    sequential bound needs its runs to be sequential.
   */
  lemma RacingRefreshesDuplicate(s: State, p: nat, q: nat, id: string, idP: string, idQ: string, expiresAt: int)
    requires Reached(s) && id in s.store && s.clock <= s.store[id].expiresAt
    requires p != q && p !in s.procs && q !in s.procs && idP !in s.used && idQ !in s.used && idP != idQ
    ensures var read := Next(Next(s, Get(p, id, Current, NoFault)), Get(q, id, Current, NoFault));
            var dropped := Next(Next(read, Drop(p, NoFault)), Drop(q, NoFault));
            var savedP := Next(Next(dropped, Generate(p, true, idP, expiresAt)), Save(p, NoFault));
            var savedQ := Next(Next(savedP, Generate(q, true, idQ, expiresAt)), Save(q, NoFault));
            var t := Next(Next(savedQ, Reply(p, true)), Reply(q, true));
            && |t.store| == |s.store| + 1 && t.tally == s.tally.(emptyDeletes := s.tally.emptyDeletes + 1)
            && p in t.procs && t.procs[p] == Done(Ok(idP, Loaded(s.store[id])))
            && q in t.procs && t.procs[q] == Done(Ok(idQ, Loaded(s.store[id])))
  {
    RacersDrop(s, p, q, id);
    UnusedIsNotStored(s, idP);
    UnusedIsNotStored(s, idQ);
    StoredIsKnown(s, id);
    var read := Next(Next(s, Get(p, id, Current, NoFault)), Get(q, id, Current, NoFault));
    var dropped := Next(Next(read, Drop(p, NoFault)), Drop(q, NoFault));
    RacersSave(s, dropped, p, q, id, idP, idQ, expiresAt);
    var savedP := Next(Next(dropped, Generate(p, true, idP, expiresAt)), Save(p, NoFault));
    RacersReply(Next(Next(savedP, Generate(q, true, idQ, expiresAt)), Save(q, NoFault)), p, q);
  }

  lemma RacersReply(s: State, p: nat, q: nat)
    requires p != q && p in s.procs && s.procs[p].Stored200? && q in s.procs && s.procs[q].Stored200?
    ensures var t := Next(Next(s, Reply(p, true)), Reply(q, true));
            && t.store == s.store && t.tally == s.tally && p in t.procs && q in t.procs
            && t.procs[p] == Done(Ok(s.procs[p].id, s.procs[p].data))
            && t.procs[q] == Done(Ok(s.procs[q].id, s.procs[q].data))
  {
    Replies(s, p);
    Replies(Next(s, Reply(p, true)), q);
  }

  lemma RacersDrop(s: State, p: nat, q: nat, id: string)
    requires Reached(s) && id in s.store && s.clock <= s.store[id].expiresAt
    requires p != q && p !in s.procs && q !in s.procs
    ensures var read := Next(Next(s, Get(p, id, Current, NoFault)), Get(q, id, Current, NoFault));
            var dropped := Next(Next(read, Drop(p, NoFault)), Drop(q, NoFault));
            Racing(s, dropped, p, q, id)
  {
    StoredIsKnown(s, id);
    var readP := Next(s, Get(p, id, Current, NoFault));
    Holds(s, p, id);
    StaysKnown(s, p, id, readP.procs[p]);
    Holds(readP, q, id);
    var read := Next(readP, Get(q, id, Current, NoFault));
    Drops(read, p);
    Drops(Next(read, Drop(p, NoFault)), q);
  }

  /** Both racers have dropped the token, one of them in vain. */
  ghost predicate Racing(s: State, dropped: State, p: nat, q: nat, id: string)
    requires id in s.store
  {
    && p != q && p in dropped.procs && q in dropped.procs
    && dropped.procs[p].Ready? && dropped.procs[p].refreshing && dropped.procs[p].data == Loaded(s.store[id])
    && dropped.procs[q].Ready? && dropped.procs[q].refreshing && dropped.procs[q].data == Loaded(s.store[id])
    && dropped.store == s.store - {id} && dropped.used == s.used + {id}
    && dropped.tally == s.tally.(emptyDeletes := s.tally.emptyDeletes + 1)
  }

  lemma RacersSave(s: State, dropped: State, p: nat, q: nat, id: string, idP: string, idQ: string, expiresAt: int)
    requires id in s.store && id in s.used && Racing(s, dropped, p, q, id)
    requires idP !in s.used && idQ !in s.used && idP !in s.store && idQ !in s.store && idP != idQ
    ensures var savedP := Next(Next(dropped, Generate(p, true, idP, expiresAt)), Save(p, NoFault));
            var t := Next(Next(savedP, Generate(q, true, idQ, expiresAt)), Save(q, NoFault));
            && |t.store| == |s.store| + 1 && t.tally == dropped.tally
            && p in t.procs && t.procs[p] == Stored200(idP, Loaded(s.store[id]))
            && q in t.procs && t.procs[q] == Stored200(idQ, Loaded(s.store[id]))
  {
    GeneratedThenSaved(dropped, p, idP, expiresAt);
    var savedP := Next(Next(dropped, Generate(p, true, idP, expiresAt)), Save(p, NoFault));
    GeneratedThenSaved(savedP, q, idQ, expiresAt);
    var item := Saved(Loaded(s.store[id]), expiresAt);
    ReplacedSize(s.store, id, idP, item);
    AddedSize((s.store - {id})[idP := item], idQ, item);
  }
}
