/**
  What the token endpoint tells a caller without a valid secret: nothing about which audiences a
  client has been given (m2m/service.go:86-91, api/m2m.go:55-57).
 */
module Secrecy {
  import opened Wrappers
  import opened Faults
  import opened Records
  import opened Validation
  import opened BasicAuth
  import opened Table
  import opened M2MStore
  import opened Services

  // ---------------------------------------------------------------------------------------
  // Tables that differ in one client's audiences
  // ---------------------------------------------------------------------------------------

  ghost predicate AlikeRecords(a: Option<Record>, b: Option<Record>) {
    match a
    case None => b.None?
    case Some(r) => b.Some? && r.rounds == b.value.rounds && r.active == b.value.active
  }

  /** Equal but for the audiences of client `id`. */
  ghost predicate AlikeItems(a: Items, b: Items, id: string) {
    && a.Keys == b.Keys
    && (forall key :: key in a && key != ClientKey(id) ==> a[key] == b[key])
    && (ClientKey(id) in a ==> AlikeItem(a[ClientKey(id)], b[ClientKey(id)]))
  }

  ghost predicate AlikeItem(a: Item, b: Item) {
    a == b || (a.ClientItem? && b.ClientItem? && AlikeRecords(Some(a.record), Some(b.record)))
  }

  ghost predicate Alike(g: seq<Items>, h: seq<Items>, id: string) {
    |g| == |h| && forall i :: 0 <= i < |g| ==> AlikeItems(g[i], h[i], id)
  }

  lemma LookupsAlike(a: Items, b: Items, id: string, other: string)
    requires AlikeItems(a, b, id)
    ensures AlikeRecords(ClientAt(a, id), ClientAt(b, id))
    ensures other != id ==> ClientAt(a, other) == ClientAt(b, other)
    ensures RateAt(a, other) == RateAt(b, other) && TokenAt(a, other) == TokenAt(b, other)
  {
    KeysApart(id, other);
    KeysApart(other, id);
  }

  /** Every call has the same condition on both tables. */
  lemma ConditionsAlike(a: Items, b: Items, id: string, call: Call)
    requires AlikeItems(a, b, id)
    ensures Condition(a, call) <==> Condition(b, call)
  {
    match call
    case StartWindow(i, _) => LookupsAlike(a, b, id, i);
    case WriteClient(i, _) => LookupsAlike(a, b, id, i);
    case _ =>
  }

  lemma ApplyAlike(a: Items, b: Items, id: string, call: Call)
    requires AlikeItems(a, b, id)
    ensures AlikeItems(Apply(a, call), Apply(b, call), id)
  {
    ConditionsAlike(a, b, id, call);
    match call
    case StartWindow(i, _) =>
      LookupsAlike(a, b, id, i);
      KeysApart(id, i);
    case AddWindow(i, _) =>
      LookupsAlike(a, b, id, i);
      KeysApart(id, i);
    case WriteClient(i, _) =>
      LookupsAlike(a, b, id, i);
      KeysApart(id, i);
    case PutToken(i, _) =>
      KeysApart(id, i);
    case _ =>
  }

  lemma WrittenAlike(g: History, h: History, id: string, call: Call)
    requires Alike(g, h, id)
    ensures Alike(Written(g, call), Written(h, call), id)
  {
    ConditionsAlike(Now(g), Now(h), id, call);
    ApplyAlike(Now(g), Now(h), id, call);
  }

  lemma {:induction false} PlayedAlike(g: History, h: History, id: string, calls: seq<Call>)
    requires Alike(g, h, id)
    ensures Alike(Played(g, calls), Played(h, calls), id)
  {
    if calls == [] {
    } else {
      PlayedAlike(g, h, id, calls[..|calls| - 1]);
      WrittenAlike(Played(g, calls[..|calls| - 1]), Played(h, calls[..|calls| - 1]), id, calls[|calls| - 1]);
    }
  }

  lemma {:induction false} MetAlike(g: History, h: History, turns: seq<Turn>, id: string, n: nat)
    requires Alike(g, h, id)
    ensures Alike(Met(g, turns, n), Met(h, turns, n), id)
    decreases n
  {
    PlayedAlike(g, h, id, First(turns).others);
    if n == 0 {
    } else {
      MetAlike(Played(g, First(turns).others), Played(h, First(turns).others), Rest(turns), id, n - 1);
    }
  }

  lemma SnapshotsAlike(g: History, h: History, turns: seq<Turn>, id: string)
    requires Alike(g, h, id)
    ensures AlikeRecords(Snapshot(g, turns, id), Snapshot(h, turns, id))
  {
    MetAlike(g, h, turns, id, 0);
    LookupsAlike(Seen(Met(g, turns, 0), First(turns).lag), Seen(Met(h, turns, 0), First(turns).lag), id, id);
  }

  /** Counting goes the same way on both tables. */
  lemma CountsAlike(g: History, h: History, turns: seq<Turn>, id: string, now: int)
    requires Alike(g, h, id)
    ensures CountAnswered(g, turns, id, now) <==> CountAnswered(h, turns, id, now)
    ensures Alike(AfterCount(g, turns, id, now), AfterCount(h, turns, id, now), id)
  {
    MetAlike(g, h, turns, id, 0);
    MetAlike(g, h, turns, id, 1);
    LookupsAlike(Now(Met(g, turns, 0)), Now(Met(h, turns, 0)), id, id);
    WrittenAlike(Met(g, turns, 0), Met(h, turns, 0), id, StartWindow(id, now));
    WrittenAlike(Met(g, turns, 1), Met(h, turns, 1), id, AddWindow(id, now));
  }

  // ---------------------------------------------------------------------------------------
  // The endpoint
  // ---------------------------------------------------------------------------------------

  lemma UnverifiedStatus(count: int, limit: int, snapshot: Record, id: string, secret: string, audience: string,
      signs: bool, lifetime: nat)
    requires !Verifies(snapshot.rounds, secret)
    ensures StatusOf(Judgement(count, limit, snapshot, id, secret, audience, signs), lifetime) ==
            if count > limit then Response429 else Response401
  {
  }

  /** The answer to a secret that does not verify, and the table it leaves; the audiences play no part. */
  lemma UnverifiedAnswer(h: History, turns: seq<Turn>, limit: int, lifetime: nat, id: string, secret: string,
      audience: string, now: int, signs: bool, r: Result<MachineToken, Error>, after: seq<Items>)
    requires Snapshot(h, turns, id).Some? ==> !Verifies(Snapshot(h, turns, id).value.rounds, secret)
    requires Exchanged(h, turns, limit, id, secret, audience, now, signs, r, after)
    ensures var read, rest := Met(h, turns, 0), Rest(turns);
            var counts := First(turns).fault == NoFault && Usable(Snapshot(h, turns, id));
            && after == (if counts then AfterCount(read, rest, id, now) else read)
            && StatusOf(r, lifetime) ==
               if First(turns).fault != NoFault then Response500
               else if !Usable(Snapshot(h, turns, id)) then Response401
               else if !CountAnswered(read, rest, id, now) then Response500
               else if CountAt(AfterCount(read, rest, id, now), id) > limit then Response429
               else Response401
  {
    if Usable(Snapshot(h, turns, id)) {
      UnverifiedStatus(CountAt(AfterCount(Met(h, turns, 0), Rest(turns), id, now), id), limit,
                       Snapshot(h, turns, id).value, id, secret, audience, signs, lifetime);
    }
  }

  lemma CountAtAlike(g: History, h: History, id: string)
    requires Alike(g, h, id)
    ensures CountAt(g, id) == CountAt(h, id)
  {
    LookupsAlike(Now(g), Now(h), id, id);
  }

  lemma PostedExchange(h: History, turns: seq<Turn>, limit: int, lifetime: nat, authorization: string, audience: string,
      now: int, signs: bool, response: Response, after: seq<Items>, id: string, secret: string)
    returns (r: Result<MachineToken, Error>)
    requires ParseBasicAuth(authorization) == Some((id, secret)) && |secret| <= MAX_SECRET_LENGTH && ValidName(audience)
    requires Posted(h, turns, limit, lifetime, authorization, audience, now, signs, response, after)
    ensures response == StatusOf(r, lifetime) && Exchanged(h, turns, limit, id, secret, audience, now, signs, r, after)
  {
    r :| response == StatusOf(r, lifetime) && Exchanged(h, turns, limit, id, secret, audience, now, signs, r, after);
  }

  /**
    Two tables, histories and all, that differ only in which audiences and scopes a client has
    been given, amid the same traffic: a request whose secret no round of the version read
    verifies gets the same response on both, and leaves them differing in no more than that.
   */
  lemma NoAudienceOracle(g: History, h: History, turns: seq<Turn>, limit: int, lifetime: nat, authorization: string,
      audience: string, now: int, signs: bool, responseG: Response, responseH: Response, afterG: seq<Items>,
      afterH: seq<Items>, id: string, secret: string)
    requires ParseBasicAuth(authorization) == Some((id, secret)) && Alike(g, h, id)
    requires Snapshot(h, turns, id).Some? ==> !Verifies(Snapshot(h, turns, id).value.rounds, secret)
    requires Posted(g, turns, limit, lifetime, authorization, audience, now, signs, responseG, afterG)
    requires Posted(h, turns, limit, lifetime, authorization, audience, now, signs, responseH, afterH)
    ensures responseG == responseH && Alike(afterG, afterH, id)
  {
    if |secret| <= MAX_SECRET_LENGTH && ValidName(audience) {
      var q := PostedExchange(g, turns, limit, lifetime, authorization, audience, now, signs, responseG, afterG,
                              id, secret);
      var r := PostedExchange(h, turns, limit, lifetime, authorization, audience, now, signs, responseH, afterH,
                              id, secret);
      SnapshotsAlike(g, h, turns, id);
      UnverifiedAnswer(g, turns, limit, lifetime, id, secret, audience, now, signs, q, afterG);
      UnverifiedAnswer(h, turns, limit, lifetime, id, secret, audience, now, signs, r, afterH);
      MetAlike(g, h, turns, id, 0);
      CountsAlike(Met(g, turns, 0), Met(h, turns, 0), Rest(turns), id, now);
      CountAtAlike(AfterCount(Met(g, turns, 0), Rest(turns), id, now),
                   AfterCount(Met(h, turns, 0), Rest(turns), id, now), id);
    }
  }
}
