/**
  The one table all stores share (dynamo/): items under prefixed string keys, the atomic calls
  made on them, and a table object whose calls interleave with everybody else's.
 */
module Table {
  import opened Wrappers
  import opened Faults
  import opened Records
  import opened RateLimiter
  import opened Sessions

  datatype Item = ClientItem(record: Record) | RateItem(rate: Rate) | TokenItem(token: Stored)

  type Items = map<string, Item>

  function ClientKey(id: string): string {
    "CLIENT#" + id
  }

  function RateKey(id: string): string {
    "RATE#" + id
  }

  function TokenKey(id: string): string {
    "REFRESH_TOKEN#" + id
  }

  /** Key building is injective and the three prefixes never meet, whatever the ids. */
  lemma KeysApart(a: string, b: string)
    ensures ClientKey(a) == ClientKey(b) <==> a == b
    ensures RateKey(a) == RateKey(b) <==> a == b
    ensures TokenKey(a) == TokenKey(b) <==> a == b
    ensures ClientKey(a) != RateKey(b) && ClientKey(a) != TokenKey(b) && RateKey(a) != TokenKey(b)
  {
    assert ClientKey(a)[7..] == a && ClientKey(b)[7..] == b;
    assert RateKey(a)[5..] == a && RateKey(b)[5..] == b;
    assert TokenKey(a)[14..] == a && TokenKey(b)[14..] == b;
    assert ClientKey(a)[0] == 'C' && RateKey(b)[0] == 'R' && TokenKey(b)[0] == 'R';
    assert RateKey(a)[1] == 'A' && TokenKey(b)[1] == 'E';
  }

  /** The writes made to the table, each atomic; `Expire` is the table's own TTL sweeper. */
  datatype Call =
    | StartWindow(id: string, now: int)
    | AddWindow(id: string, now: int)
    | WriteClient(id: string, change: Change)
    | PutToken(id: string, token: Stored)
    | DeleteToken(id: string)
    | Expire(key: string, seconds: int)

  function KeyOf(call: Call): string {
    match call
    case StartWindow(id, _) => RateKey(id)
    case AddWindow(id, _) => RateKey(id)
    case WriteClient(id, _) => ClientKey(id)
    case PutToken(id, _) => TokenKey(id)
    case DeleteToken(id) => TokenKey(id)
    case Expire(key, _) => key
  }

  function ClientAt(items: Items, id: string): Option<Record> {
    var key := ClientKey(id);
    if key in items && items[key].ClientItem? then Some(items[key].record) else None
  }

  function RateAt(items: Items, id: string): Option<Rate> {
    var key := RateKey(id);
    if key in items && items[key].RateItem? then Some(items[key].rate) else None
  }

  function TokenAt(items: Items, id: string): Option<Stored> {
    var key := TokenKey(id);
    if key in items && items[key].TokenItem? then Some(items[key].token) else None
  }

  function TtlOf(item: Item): Option<int> {
    match item
    case ClientItem(_) => None
    case RateItem(rate) => rate.ttl
    case TokenItem(token) => Some(token.ttl)
  }

  predicate Condition(items: Items, call: Call) {
    match call
    case StartWindow(id, now) => Startable(RateAt(items, id), now)
    case AddWindow(_, _) => true
    case WriteClient(id, change) => Allows(ClientAt(items, id), change)
    case PutToken(_, _) => true
    case DeleteToken(_) => true
    case Expire(key, seconds) => key in items && TtlOf(items[key]).Some? && TtlOf(items[key]).value < seconds
  }

  /** The table after the call; a call whose condition fails changes nothing. */
  function Apply(items: Items, call: Call): Items {
    if !Condition(items, call) then items
    else
      match call
      case StartWindow(id, now) => items[RateKey(id) := RateItem(Started(RateAt(items, id), now + WINDOW_SECONDS))]
      case AddWindow(id, now) => items[RateKey(id) := RateItem(Added(RateAt(items, id), now + WINDOW_SECONDS))]
      case WriteClient(id, change) => items[ClientKey(id) := ClientItem(Changed(ClientAt(items, id), change))]
      case PutToken(id, token) => items[TokenKey(id) := TokenItem(token)]
      case DeleteToken(id) => items - {TokenKey(id)}
      case Expire(key, _) => items - {key}
  }

  function ApplyAll(items: Items, calls: seq<Call>): Items {
    if calls == [] then items
    else Apply(ApplyAll(items, calls[..|calls| - 1]), calls[|calls| - 1])
  }

  // ---------------------------------------------------------------------------------------
  // One table, independent records
  // ---------------------------------------------------------------------------------------

  /** What a call does to one client record, one counter, one token. */
  function ClientStep(r: Option<Record>, id: string, call: Call): Option<Record> {
    if call.WriteClient? && call.id == id && Allows(r, call.change) then Some(Changed(r, call.change)) else r
  }

  function RateStep(r: Option<Rate>, id: string, call: Call): Option<Rate> {
    match call
    case StartWindow(i, now) => if i == id && Startable(r, now) then Some(Started(r, now + WINDOW_SECONDS)) else r
    case AddWindow(i, now) => if i == id then Some(Added(r, now + WINDOW_SECONDS)) else r
    case Expire(key, seconds) =>
      if key == RateKey(id) && r.Some? && r.value.ttl.Some? && r.value.ttl.value < seconds then None else r
    case _ => r
  }

  function TokenStep(r: Option<Stored>, id: string, call: Call): Option<Stored> {
    match call
    case PutToken(i, token) => if i == id then Some(token) else r
    case DeleteToken(i) => if i == id then None else r
    case Expire(key, seconds) => if key == TokenKey(id) && r.Some? && r.value.ttl < seconds then None else r
    case _ => r
  }

  /** A call leaves every key but its own as it was. */
  lemma ApplyFrame(items: Items, call: Call, key: string)
    requires key != KeyOf(call)
    ensures key in Apply(items, call) <==> key in items
    ensures key in items ==> Apply(items, call)[key] == items[key]
  {
  }

  lemma ApplySteps(items: Items, call: Call, id: string)
    ensures ClientAt(Apply(items, call), id) == ClientStep(ClientAt(items, id), id, call)
    ensures RateAt(Apply(items, call), id) == RateStep(RateAt(items, id), id, call)
    ensures TokenAt(Apply(items, call), id) == TokenStep(TokenAt(items, id), id, call)
  {
    KeysApart(id, id);
    match call
    case StartWindow(i, _) => KeysApart(i, id); KeysApart(id, i);
    case AddWindow(i, _) => KeysApart(i, id); KeysApart(id, i);
    case WriteClient(i, _) => KeysApart(i, id); KeysApart(id, i);
    case PutToken(i, _) => KeysApart(i, id); KeysApart(id, i);
    case DeleteToken(i) => KeysApart(i, id); KeysApart(id, i);
    case Expire(_, _) =>
  }

  function FoldClient(r: Option<Record>, id: string, calls: seq<Call>): Option<Record> {
    if calls == [] then r
    else ClientStep(FoldClient(r, id, calls[..|calls| - 1]), id, calls[|calls| - 1])
  }

  function FoldRate(r: Option<Rate>, id: string, calls: seq<Call>): Option<Rate> {
    if calls == [] then r
    else RateStep(FoldRate(r, id, calls[..|calls| - 1]), id, calls[|calls| - 1])
  }

  function FoldToken(r: Option<Stored>, id: string, calls: seq<Call>): Option<Stored> {
    if calls == [] then r
    else TokenStep(FoldToken(r, id, calls[..|calls| - 1]), id, calls[|calls| - 1])
  }

  /** The calls made on one key. */
  function On(calls: seq<Call>, key: string): seq<Call> {
    if calls == [] then []
    else
      var last := calls[|calls| - 1];
      if KeyOf(last) == key then On(calls[..|calls| - 1], key) + [last] else On(calls[..|calls| - 1], key)
  }

  /**
    The string-keyed table behaves as three families of independent records: any sequence of
    calls acts on each record as the calls on its own key alone.
   */
  lemma {:induction false} RecordsIndependent(items: Items, calls: seq<Call>, id: string)
    ensures ClientAt(ApplyAll(items, calls), id) == FoldClient(ClientAt(items, id), id, On(calls, ClientKey(id)))
    ensures RateAt(ApplyAll(items, calls), id) == FoldRate(RateAt(items, id), id, On(calls, RateKey(id)))
    ensures TokenAt(ApplyAll(items, calls), id) == FoldToken(TokenAt(items, id), id, On(calls, TokenKey(id)))
  {
    if calls == [] {
    } else {
      var before, last := calls[..|calls| - 1], calls[|calls| - 1];
      RecordsIndependent(items, before, id);
      ApplySteps(ApplyAll(items, before), last, id);
      StepsOnOwnKey(last, id);
    }
  }

  lemma OwnCalls(items: Items, calls: seq<Call>, id: string)
    requires |calls| <= 1
    ensures ClientAt(ApplyAll(items, calls), id) == FoldClient(ClientAt(items, id), id, calls)
    ensures RateAt(ApplyAll(items, calls), id) == FoldRate(RateAt(items, id), id, calls)
    ensures TokenAt(ApplyAll(items, calls), id) == FoldToken(TokenAt(items, id), id, calls)
  {
    if calls != [] {
      ApplySteps(items, calls[0], id);
    }
  }

  lemma StepsOnOwnKey(call: Call, id: string)
    ensures KeyOf(call) != ClientKey(id) ==> forall r :: ClientStep(r, id, call) == r
    ensures KeyOf(call) != RateKey(id) ==> forall r :: RateStep(r, id, call) == r
    ensures KeyOf(call) != TokenKey(id) ==> forall r :: TokenStep(r, id, call) == r
  {
  }

  // ---------------------------------------------------------------------------------------
  // The table object
  // ---------------------------------------------------------------------------------------

  datatype CallError = ConditionFailed | ServiceError

  /**
    What surrounds one of our calls: the calls others make first, whether ours fails with its
    effect lost or applied, and how many versions a read lags behind.
   */
  datatype Turn = Turn(others: seq<Call>, fault: Fault, lag: nat)

  function First(turns: seq<Turn>): Turn {
    if turns == [] then Turn([], NoFault, 0) else turns[0]
  }

  function Rest(turns: seq<Turn>): seq<Turn> {
    if turns == [] then [] else turns[1..]
  }

  /** The contents of a table over time, newest last. */
  type History = h: seq<Items> | |h| > 0 witness [map[]]

  function Now(h: History): Items {
    h[|h| - 1]
  }

  function Written(h: History, call: Call): (r: History)
    ensures h <= r
  {
    if Condition(Now(h), call) then h + [Apply(Now(h), call)] else h
  }

  function Played(h: History, calls: seq<Call>): (r: History)
    ensures h <= r
  {
    if calls == [] then h
    else Written(Played(h, calls[..|calls| - 1]), calls[|calls| - 1])
  }

  lemma {:induction false} PlayedApplies(h: History, calls: seq<Call>)
    ensures Now(Played(h, calls)) == ApplyAll(Now(h), calls)
  {
    if calls == [] {
    } else {
      PlayedApplies(h, calls[..|calls| - 1]);
    }
  }

  lemma PlayedOne(h: History, call: Call)
    ensures Played(h, [call]) == Written(h, call)
  {
    assert [call][..0] == [];
  }

  lemma PlayedSnoc(h: History, calls: seq<Call>, call: Call)
    ensures Played(h, calls + [call]) == Written(Played(h, calls), call)
  {
    assert (calls + [call])[..|calls|] == calls;
  }

  /** The history that the n-th of our next calls meets, if those before it write nothing. */
  function Met(h: History, turns: seq<Turn>, n: nat): (r: History)
    ensures h <= r
    decreases n
  {
    if n == 0 then Played(h, First(turns).others)
    else Met(Played(h, First(turns).others), Rest(turns), n - 1)
  }

  /** The version a lagging read returns. */
  function Seen(h: History, lag: nat): Items {
    if lag < |h| then h[|h| - 1 - lag] else h[0]
  }

  class Table {
    var history: seq<Items>
    var turns: seq<Turn>

    ghost predicate Valid()
      reads this
    {
      |history| > 0
    }

    constructor ()
      ensures Valid() && history == [map[]] && turns == []
    {
      history := [map[]];
      turns := [];
    }

    /** Everybody else's calls before ours. */
    method Yield() returns (turn: Turn)
      requires Valid()
      modifies this
      ensures Valid()
      ensures turn == First(old(turns)) && turns == Rest(old(turns))
      ensures history == Played(old(history), turn.others)
    {
      turn := First(turns);
      turns := Rest(turns);
      for i := 0 to |turn.others|
        invariant Valid() && turns == Rest(old(turns))
        invariant history == Played(old(history), turn.others[..i])
      {
        var call := turn.others[i];
        assert turn.others[..i + 1][..i] == turn.others[..i];
        if Condition(history[|history| - 1], call) {
          history := history + [Apply(history[|history| - 1], call)];
        }
      }
      assert turn.others[..|turn.others|] == turn.others;
    }

    /** GetItem, not strongly consistent. */
    method Get(key: string) returns (r: Result<Option<Item>, CallError>)
      requires Valid()
      modifies this
      ensures Valid() && turns == Rest(old(turns))
      ensures history == Met(old(history), old(turns), 0)
      ensures r.Failure? <==> First(old(turns)).fault != NoFault
      ensures r.Failure? ==> r.error == ServiceError
      ensures r.Success? ==>
                var seen := Seen(history, First(old(turns)).lag);
                r.value == if key in seen then Some(seen[key]) else None
    {
      var turn := Yield();
      if turn.fault != NoFault {
        return Failure(ServiceError);
      }
      var seen := Seen(history, turn.lag);
      return Success(if key in seen then Some(seen[key]) else None);
    }

    /** UpdateItem, PutItem or DeleteItem; on success, the item it leaves. */
    method Write(call: Call) returns (r: Result<Option<Item>, CallError>)
      requires Valid()
      modifies this
      ensures Valid() && turns == Rest(old(turns))
      ensures var turn, met := First(old(turns)), Met(old(history), old(turns), 0);
              && history == (if turn.fault.Lost? then met else Written(met, call))
              && (r.Success? <==> turn.fault == NoFault && Condition(Now(met), call))
              && (r.Failure? ==> r.error == if turn.fault != NoFault then ServiceError else ConditionFailed)
      ensures r.Success? ==>
                r.value == if KeyOf(call) in Now(history) then Some(Now(history)[KeyOf(call)]) else None
    {
      var turn := Yield();
      if turn.fault.Lost? {
        return Failure(ServiceError);
      }
      var items := history[|history| - 1];
      var allowed := Condition(items, call);
      if allowed {
        items := Apply(items, call);
        history := history + [items];
      }
      if turn.fault != NoFault {
        return Failure(ServiceError);
      }
      if !allowed {
        return Failure(ConditionFailed);
      }
      return Success(if KeyOf(call) in items then Some(items[KeyOf(call)]) else None);
    }
  }
}
