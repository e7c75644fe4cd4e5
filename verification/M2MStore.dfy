/** The machine-credential and rate-limit store (dynamo/m2m.go). */
module M2MStore {
  import opened Wrappers
  import opened Faults
  import opened Validation
  import opened Records
  import opened RateLimiter
  import opened Table

  datatype StoreError = ClientExists | ClientNotFound | RoundsConflict | StoreFailed

  /** Nobody's sweep removes this counter. */
  ghost predicate Unswept(turns: seq<Turn>, key: string) {
    forall i, j :: 0 <= i < |turns| && 0 <= j < |turns[i].others| ==> !SweepsAway(turns[i].others[j], key)
  }

  ghost predicate SweepsAway(call: Call, key: string) {
    call.Expire? && call.key == key
  }

  /** Whatever others do short of sweeping, a window that is live for a reading stays so. */
  lemma {:induction false} LiveWhilePlayed(h: History, calls: seq<Call>, id: string, now: int)
    requires !Startable(RateAt(Now(h), id), now)
    requires forall j :: 0 <= j < |calls| ==> !SweepsAway(calls[j], RateKey(id))
    ensures !Startable(RateAt(Now(Played(h, calls)), id), now)
  {
    if calls == [] {
    } else {
      var before, last := calls[..|calls| - 1], calls[|calls| - 1];
      LiveWhilePlayed(h, before, id, now);
      assert !SweepsAway(last, RateKey(id));
      ApplySteps(Now(Played(h, before)), last, id);
      KeysApart(id, id);
    }
  }

  /** A window that a call opened can be opened anew exactly from 60 seconds after that call's reading. */
  lemma WindowLasts(items: Items, id: string, start: int, now: int)
    requires Condition(items, StartWindow(id, start))
    ensures Condition(Apply(items, StartWindow(id, start)), StartWindow(id, now)) <==> now >= start + 60
  {
    ApplySteps(items, StartWindow(id, start), id);
  }

  /** The counter as one indivisible bump leaves it. */
  function BumpedItems(items: Items, id: string, now: int): Items {
    items[RateKey(id) := RateItem(Bumped(RateAt(items, id), now, WINDOW_SECONDS))]
  }

  /** Whether the call's first update finds its window live and leaves the counting to the second. */
  predicate WindowLive(h: History, turns: seq<Turn>, id: string, now: int) {
    !Startable(RateAt(Now(Met(h, turns, 0)), id), now)
  }

  /** What the update that counts the call finds. */
  function MetByCount(h: History, turns: seq<Turn>, id: string, now: int): History {
    Met(h, turns, if WindowLive(h, turns, id, now) then 1 else 0)
  }

  /** What the call leaves: its counting update is made unless it, or the update before it, fails. */
  function AfterCount(h: History, turns: seq<Turn>, id: string, now: int): History {
    if First(turns).fault == NoFault && WindowLive(h, turns, id, now) then
      var met := Met(h, turns, 1);
      if First(Rest(turns)).fault.Lost? then met else Written(met, AddWindow(id, now))
    else
      var met := Met(h, turns, 0);
      if First(turns).fault.Lost? then met else Written(met, StartWindow(id, now))
  }

  predicate CountAnswered(h: History, turns: seq<Turn>, id: string, now: int) {
    First(turns).fault == NoFault && (WindowLive(h, turns, id, now) ==> First(Rest(turns)).fault == NoFault)
  }

  function WithClient(items: Items, id: string, record: Record): Items {
    items[ClientKey(id) := ClientItem(record)]
  }

  /** How a call's error surfaces when its condition can only fail for one reason. */
  function Surfaced(error: CallError, reason: StoreError): StoreError {
    if error.ConditionFailed? then reason else StoreFailed
  }

  class M2MStore {
    const table: Table
    const windowLimit: int

    constructor (table: Table, windowLimit: int := WINDOW_LIMIT)
      ensures this.table == table && this.windowLimit == windowLimit
    {
      this.table := table;
      this.windowLimit := windowLimit;
    }

    method GetClient(id: string) returns (r: Result<Option<Record>, StoreError>)
      requires table.Valid()
      modifies table
      ensures table.Valid() && table.turns == Rest(old(table.turns))
      ensures table.history == Met(old(table.history), old(table.turns), 0)
      ensures r == if First(old(table.turns)).fault != NoFault then Failure(StoreFailed)
                   else Success(ClientAt(Seen(table.history, First(old(table.turns)).lag), id))
    {
      var got := table.Get(ClientKey(id));
      match got
      case Failure(_) => return Failure(StoreFailed);
      case Success(item) =>
        return Success(if item.Some? && item.value.ClientItem? then Some(item.value.record) else None);
    }

    /**
      The two updates of BumpWindow, with anything happening in between.  A counted call leaves
      the table it met with its one update applied, and that update is an indivisible bump made
      at that moment, as long as nobody sweeps the counter.  A failed call counted once or not
      at all.
     */
    method BumpWindow(id: string, now: int) returns (r: Result<int, StoreError>)
      requires table.Valid()
      modifies table
      ensures table.Valid()
      ensures var turns, history := old(table.turns), old(table.history);
              var met := MetByCount(history, turns, id, now);
              && table.turns == (if First(turns).fault == NoFault && WindowLive(history, turns, id, now)
                                 then Rest(Rest(turns)) else Rest(turns))
              && table.history == AfterCount(history, turns, id, now)
              && (r.Success? <==> CountAnswered(history, turns, id, now))
              && (r.Failure? ==> r.error == StoreFailed)
              && (r.Success? ==>
                    && RateAt(Now(table.history), id).Some?
                    && RateAt(Now(table.history), id).value.count == Some(r.value)
                    && (Unswept(turns, RateKey(id)) ==> table.history == met + [BumpedItems(Now(met), id, now)]))
    {
      ghost var turns, history := table.turns, table.history;
      var started := table.Write(StartWindow(id, now));
      if started.Success? {
        return Success(Count(started.value));
      }
      if started.error != ConditionFailed {
        return Failure(StoreFailed);
      }
      var added := table.Write(AddWindow(id, now));
      if added.Failure? {
        return Failure(StoreFailed);
      }
      if Unswept(turns, RateKey(id)) {
        OthersSpare(turns, id);
        LiveWhilePlayed(Met(history, turns, 0), First(Rest(turns)).others, id, now);
      }
      return Success(Count(added.value));
    }

    /** rateWindowFromAttributes: a missing count reads as zero. */
    static function Count(item: Option<Item>): int {
      if item.Some? && item.value.RateItem? then item.value.rate.count.GetOr(0) else 0
    }

    /** Creates once: an existing id, revoked or not, is reported and left alone. */
    method CreateClient(id: string, record: Record) returns (r: Result<(), StoreError>)
      requires table.Valid()
      modifies table
      ensures table.Valid() && table.turns == Rest(old(table.turns))
      ensures var turn, met := First(old(table.turns)), Met(old(table.history), old(table.turns), 0);
              var stored := ClientAt(Now(met), id);
              && (r.Success? <==> turn.fault == NoFault && stored.None?)
              && (r.Failure? ==> r.error == if turn.fault == NoFault then ClientExists else StoreFailed)
              && table.history ==
                 if stored.None? && !turn.fault.Lost? then met + [WithClient(Now(met), id, record)] else met
    {
      var written := table.Write(WriteClient(id, Put(record)));
      match written
      case Success(_) => return Success(());
      case Failure(error) => return Failure(Surfaced(error, ClientExists));
    }

    /** Marks the record inactive; nothing else in it changes, and repeating it succeeds. */
    method DeactivateClient(id: string) returns (r: Result<Record, StoreError>)
      requires table.Valid()
      modifies table
      ensures table.Valid() && table.turns == Rest(old(table.turns))
      ensures var turn, met := First(old(table.turns)), Met(old(table.history), old(table.turns), 0);
              var stored := ClientAt(Now(met), id);
              && (r.Success? <==> turn.fault == NoFault && stored.Some?)
              && (r.Success? ==> r.value == stored.value.(active := false))
              && (r.Failure? ==> r.error == if turn.fault == NoFault then ClientNotFound else StoreFailed)
              && table.history ==
                 if stored.Some? && !turn.fault.Lost?
                 then met + [WithClient(Now(met), id, stored.value.(active := false))] else met
    {
      var written := table.Write(WriteClient(id, Deactivate));
      match written
      case Success(item) => return Success(item.value.record);
      case Failure(error) => return Failure(Surfaced(error, ClientNotFound));
    }

    /** Replaces the whole audiences map; secrets and active state are untouched. */
    method UpdateAudiences(id: string, audiences: Audiences) returns (r: Result<Record, StoreError>)
      requires table.Valid()
      modifies table
      ensures table.Valid() && table.turns == Rest(old(table.turns))
      ensures var turn, met := First(old(table.turns)), Met(old(table.history), old(table.turns), 0);
              var stored := ClientAt(Now(met), id);
              && (r.Success? <==> turn.fault == NoFault && stored.Some?)
              && (r.Success? ==> r.value == stored.value.(audiences := audiences))
              && (r.Failure? ==> r.error == if turn.fault == NoFault then ClientNotFound else StoreFailed)
              && table.history ==
                 if stored.Some? && !turn.fault.Lost?
                 then met + [WithClient(Now(met), id, stored.value.(audiences := audiences))] else met
    {
      var written := table.Write(WriteClient(id, Replace(audiences)));
      match written
      case Success(item) => return Success(item.value.record);
      case Failure(error) => return Failure(Surfaced(error, ClientNotFound));
    }

    /**
      Compare-and-swap of the rounds.  When the condition fails one more read tells a missing
      record from a concurrent change; neither writes anything.
     */
    method UpdateRounds(id: string, expected: seq<Hash>, next: seq<Hash>) returns (r: Result<(), StoreError>)
      requires table.Valid()
      modifies table
      ensures table.Valid()
      ensures var turns := old(table.turns);
              var met0, met1 := Met(old(table.history), turns, 0), Met(old(table.history), turns, 1);
              var stored := ClientAt(Now(met0), id);
              var matches := stored.Some? && stored.value.rounds == expected;
              var rereads := First(turns).fault == NoFault && !matches;
              && (r.Success? <==> First(turns).fault == NoFault && matches)
              && (r.Failure? ==>
                    r.error ==
                    if !rereads || First(Rest(turns)).fault != NoFault then StoreFailed
                    else if ClientAt(Seen(met1, First(Rest(turns)).lag), id).None? then ClientNotFound
                    else RoundsConflict)
              && table.history ==
                 if rereads then met1
                 else if matches && !First(turns).fault.Lost?
                 then met0 + [WithClient(Now(met0), id, stored.value.(rounds := next))]
                 else met0
    {
      var written := table.Write(WriteClient(id, Swap(expected, next)));
      if written.Success? {
        return Success(());
      }
      if written.error != ConditionFailed {
        return Failure(StoreFailed);
      }
      var current := GetClient(id);
      match current
      case Failure(_) => return Failure(StoreFailed);
      case Success(record) => return Failure(if record.None? then ClientNotFound else RoundsConflict);
    }
  }

  lemma OthersSpare(turns: seq<Turn>, id: string)
    requires Unswept(turns, RateKey(id))
    ensures forall j :: 0 <= j < |First(Rest(turns)).others| ==> !SweepsAway(First(Rest(turns)).others[j], RateKey(id))
  {
    if |turns| > 1 {
      assert First(Rest(turns)) == turns[1];
    }
  }
}
