/** From the empty table: what all this says about tables that the service itself has filled. */
module EndToEnd {
  import opened Wrappers
  import opened Faults
  import opened Validation
  import opened Records
  import opened Base64
  import opened Table
  import opened Services
  import opened CredentialTable
  import opened ServiceRuns
  import C = Credentials
  import E = Exchanges
  import F = Lifecycle
  import S = Sessions
  import T = SessionTheorems
  import R = SessionRuns

  // ---------------------------------------------------------------------------------------
  // Every table
  // ---------------------------------------------------------------------------------------

  /** The record is there exactly when some hash is, and holds the newest one or two, newest first. */
  ghost predicate HoldsNewest(stored: Option<Record>, hashes: seq<Hash>) {
    && (stored.Some? <==> hashes != [])
    && (stored.Some? ==>
          var rounds := stored.value.rounds;
          && |rounds| == (if |hashes| < 2 then 1 else 2)
          && forall i :: 0 <= i < |rounds| ==> rounds[i] == hashes[|hashes| - 1 - i])
  }

  lemma ReachedRounds(limit: int, t: C.State)
    requires C.Reached(Config(limit), t)
    ensures HoldsNewest(t.current, C.Hashes(t.log))
  {
    F.CurrentFolds(Config(limit), t);
    if t.log != [] {
      F.NewestElements(C.Hashes(t.log));
    }
  }

  lemma FilledTable(limit: int, id: string, events: seq<Event>)
    requires ElsewhereOnly(events, id)
    ensures C.Reached(Config(limit), After(limit, C.INIT, events))
    ensures ClientAt(Now(Played([map[]], Calls(limit, C.INIT, id, events))), id) == After(limit, C.INIT, events).current
  {
    EmptyTableIsTied(limit, id);
    CredentialsOnTable(limit, [map[]], C.INIT, id, events);
    AfterIsRun(limit, C.INIT, events);
    C.RunReached(Config(limit), C.INIT, OwnSteps(events));
  }

  /**
    On every table that machine operations and any other traffic have filled from nothing, a
    client's rounds are the newest min(2, n) of its n committed hashes, newest first.
   */
  lemma TableRounds(limit: int, id: string, events: seq<Event>)
    requires ElsewhereOnly(events, id)
    ensures HoldsNewest(ClientAt(Now(Played([map[]], Calls(limit, C.INIT, id, events))), id),
                        C.Hashes(After(limit, C.INIT, events).log))
  {
    FilledTable(limit, id, events);
    ReachedRounds(limit, After(limit, C.INIT, events));
  }

  ghost predicate SavedByLogin(t: S.State, token: S.Stored) {
    exists login :: login in t.logins && t.logins[login] == S.Loaded(token)
  }

  /** On every table so filled, each refresh token holds exactly what some login saved. */
  lemma TableTokens(now: int, events: seq<R.Event>, id: string)
    requires R.ElsewhereOnly(events)
    ensures var token := TokenAt(Now(Played([map[]], R.Calls(S.Start(now), events))), id);
            token.Some? ==> SavedByLogin(R.After(S.Start(now), events), token.value)
  {
    R.EmptyTableIsTied(now);
    R.SessionsOnTable([map[]], S.Start(now), events);
    TiedTokens(Played([map[]], R.Calls(S.Start(now), events)), R.After(S.Start(now), events), id);
  }

  lemma TiedTokens(h: History, t: S.State, id: string)
    requires R.Tied(h, t)
    ensures TokenAt(Now(h), id).Some? ==> SavedByLogin(t, TokenAt(Now(h), id).value)
  {
    assert TokenAt(Now(h), id) == S.Lookup(t.store, id);
    if id in t.store {
      T.Lineage(t, id);
      assert t.origin[id] in t.logins && t.logins[t.origin[id]] == S.Loaded(t.store[id]);
    }
  }

  // ---------------------------------------------------------------------------------------
  // One credential's beginning
  // ---------------------------------------------------------------------------------------

  /** An undisturbed call meets the newest version. */
  lemma QuietFaces(limit: int, h: History, s: C.State, id: string, pid: nat)
    requires Tied(limit, h, s, id)
    ensures Faces(limit, h, First([]), s, id, pid, Meeting([], |s.past|))
  {
  }

  lemma QuietCreation(id: string, audiences: Audiences, random: seq<Byte>, r: Result<string, Error>, after: seq<Items>)
    requires ValidName(id) && ValidAudiences(audiences)
    requires Creation([map[]], [], id, audiences, Some(random), 0, r, after)
    ensures r == Success(SecretOf(random))
    ensures ClientAt(Now(after), id) == Some(Record([Hash(0, SecretOf(random))], audiences, true))
    ensures RateAt(Now(after), id).None?
  {
    KeysApart(id, id);
  }

  lemma CreatingAlone(limit: int, id: string, audiences: Audiences, random: seq<Byte>, version: nat)
    requires ValidName(id) && ValidAudiences(audiences)
    ensures var t := Creating(limit, C.INIT, id, 0, Some(random), audiences, Meeting([], version), NoFault);
            t.procs.Keys == {0} && t.minted == map[0 := SecretOf(random)]
  {
  }

  lemma QuietCreate(limit: int, id: string, audiences: Audiences, random: seq<Byte>, r: Result<string, Error>,
      after: seq<Items>)
    returns (t: C.State)
    requires ValidName(id) && ValidAudiences(audiences)
    requires Creation([map[]], [], id, audiences, Some(random), 0, r, after)
    ensures r == Success(SecretOf(random)) && Tied(limit, after, t, id)
    ensures t.procs.Keys == {0} && t.minted == map[0 := SecretOf(random)]
    ensures ClientAt(Now(after), id) == Some(Record([Hash(0, SecretOf(random))], audiences, true))
    ensures RateAt(Now(after), id).None?
  {
    QuietCreation(id, audiences, random, r, after);
    EmptyTableIsTied(limit, id);
    CreateBegins(limit, [map[]], C.INIT, id, 0, Some(random), audiences);
    var begun := CreateBegun(limit, C.INIT, id, 0, Some(random), audiences);
    QuietFaces(limit, [map[]], begun, id, 0);
    CreateRefines(limit, [map[]], [], C.INIT, id, 0, audiences, Some(random), Meeting([], |begun.past|), r, after);
    CreatingAlone(limit, id, audiences, random, |begun.past|);
    t := Creating(limit, C.INIT, id, 0, Some(random), audiences, Meeting([], |begun.past|), NoFault);
  }

  lemma QuietRotate(limit: int, h: History, s: C.State, id: string, stored: Record, random: seq<Byte>,
      r: Result<string, Error>, after: seq<Items>) returns (t: C.State)
    requires Tied(limit, h, s, id) && ValidName(id) && 1 !in s.procs && C.Unused(s, SecretOf(random))
    requires ClientAt(Now(h), id) == Some(stored) && stored.active && RateAt(Now(h), id).None?
    requires Rotation(h, [], id, Some(random), 1, r, after)
    ensures r == Success(SecretOf(random)) && Tied(limit, after, t, id) && t.procs.Keys == s.procs.Keys + {1}
    ensures ClientAt(Now(after), id) == Some(stored.(rounds := NextRounds(Hash(1, SecretOf(random)), stored.rounds)))
    ensures RateAt(Now(after), id).None?
  {
    KeysApart(id, id);
    var read := QuietRead(limit, h, s, id, stored, random);
    var m1 := Meeting([], |read.past|);
    QuietFaces(limit, h, read, id, 1);
    SwapTried(limit, h, [], read, id, 1, m1, Hash(1, SecretOf(random)), stored.rounds);
    t := C.Next(Config(limit), read, C.RotateSwap(1, NoFault));
    SwapKeepsOthers(limit, read, 1);
  }

  lemma SwapKeepsOthers(limit: int, s: C.State, pid: nat)
    requires pid in s.procs
    ensures C.Next(Config(limit), s, C.RotateSwap(pid, NoFault)).procs.Keys == s.procs.Keys
  {
  }

  lemma QuietRead(limit: int, h: History, s: C.State, id: string, stored: Record,
      random: seq<Byte>) returns (read: C.State)
    requires Tied(limit, h, s, id) && 1 !in s.procs && C.Unused(s, SecretOf(random))
    requires ClientAt(Now(h), id) == Some(stored) && stored.active
    ensures Tied(limit, h, read, id) && read.procs.Keys == s.procs.Keys + {1}
    ensures read.procs[1] == C.Swapping(Hash(1, SecretOf(random)), stored.rounds)
  {
    var m0 := Meeting([], |s.past|);
    QuietFaces(limit, h, s, id, 1);
    RotationReads(limit, h, [], s, id, 1, Some(random), m0);
    ReadsAlike(limit, s, 1, |s.past|, Some(random), NoFault);
    read := RotationRead(limit, s, 1, Some(random), [], m0);
  }

  lemma QuietVerdict(limit: int, h: History, id: string, record: Record, secret: string, audience: string, now: int,
      r: Result<MachineToken, Error>, after: seq<Items>)
    requires limit >= 1 && ClientAt(Now(h), id) == Some(record) && record.active && RateAt(Now(h), id).None?
    requires audience in record.audiences && Verifies(record.rounds, secret)
    requires Exchanged(h, [], limit, id, secret, audience, now, true, r, after)
    ensures r == Success(MachineToken(id, audience, record.audiences[audience]))
  {
    KeysApart(id, id);
  }

  lemma QuietExchange(limit: int, h: History, s: C.State, id: string, record: Record, secret: string, audience: string,
      now: int, r: Result<MachineToken, Error>, after: seq<Items>) returns (t: C.State)
    requires Tied(limit, h, s, id) && 2 !in s.procs && limit >= 1
    requires ClientAt(Now(h), id) == Some(record) && record.active && RateAt(Now(h), id).None?
    requires audience in record.audiences && Verifies(record.rounds, secret)
    requires Exchanged(h, [], limit, id, secret, audience, now, true, r, after)
    ensures r == Success(MachineToken(id, audience, record.audiences[audience]))
    ensures Tied(limit, after, t, id) && 2 in t.tokens && t.tokens[2].secret == secret
  {
    QuietVerdict(limit, h, id, record, secret, audience, now, r, after);
    var m0 := Meeting([], |s.past|);
    QuietFaces(limit, h, s, id, 2);
    ExchangeReads(limit, h, [], s, id, 2, secret, audience, m0);
    var read := ExchangeRead(limit, s, 2, secret, audience, [], m0);
    var m1 := Meeting([], |read.past|);
    QuietFaces(limit, h, read, id, 2);
    TryRefines(limit, h, [], read, id, 2, now, m1);
    ExchangeRefines(limit, h, [], s, id, 2, secret, audience, now, true, m0, m1, m1, r, after);
    t := Exchanging(limit, s, 2, secret, audience, now, true, [], m0, m1, m1);
  }

  lemma TiedTokenIsSound(limit: int, h: History, t: C.State, id: string, pid: nat)
    requires Tied(limit, h, t, id) && pid in t.tokens
    ensures E.TokenSound(t, t.tokens[pid])
  {
    E.TokenProvenance(Config(limit), t, pid);
  }

  lemma SecondRoundVerifies(hash: Hash, salt: nat, secret: string)
    ensures Verifies(NextRounds(hash, [Hash(salt, secret)]), secret)
  {
    assert Matches(NextRounds(hash, [Hash(salt, secret)])[1], secret);
  }

  lemma SecretsDiffer(first: seq<Byte>, second: seq<Byte>)
    requires first != second
    ensures SecretOf(first) != SecretOf(second)
  {
    if SecretOf(first) == SecretOf(second) {
      EncodeInjective(RawURLEncoding, first, second);
    }
  }

  lemma QuietlyRotated(limit: int, id: string, audiences: Audiences, first: seq<Byte>, second: seq<Byte>,
      created: Result<string, Error>, h1: History, rotated: Result<string, Error>, h2: History) returns (t: C.State)
    requires ValidName(id) && ValidAudiences(audiences) && first != second
    requires Creation([map[]], [], id, audiences, Some(first), 0, created, h1)
    requires Rotation(h1, [], id, Some(second), 1, rotated, h2)
    ensures created == Success(SecretOf(first)) && rotated == Success(SecretOf(second))
    ensures Tied(limit, h2, t, id) && t.procs.Keys == {0, 1} && RateAt(Now(h2), id).None?
    ensures var rounds := NextRounds(Hash(1, SecretOf(second)), [Hash(0, SecretOf(first))]);
            ClientAt(Now(h2), id) == Some(Record(rounds, audiences, true))
  {
    var begun := QuietCreate(limit, id, audiences, first, created, h1);
    SecretsDiffer(first, second);
    t := QuietRotate(limit, h1, begun, id, Record([Hash(0, SecretOf(first))], audiences, true), second, rotated, h2);
  }

  /**
    From the empty table: a client is created and rotated, and its first secret still buys a
    token with exactly the scopes it was created with.  The token has a place in a run of the
    machine, so everything proved about minted tokens is true of it.
   */
  lemma OldSecretStillExchanges(limit: int, id: string, audiences: Audiences, audience: string, first: seq<Byte>,
      second: seq<Byte>, now: int, created: Result<string, Error>, h1: History, rotated: Result<string, Error>,
      h2: History, token: Result<MachineToken, Error>, h3: History) returns (t: C.State)
    requires limit >= 1 && ValidName(id) && ValidAudiences(audiences) && audience in audiences && first != second
    requires Creation([map[]], [], id, audiences, Some(first), 0, created, h1)
    requires Rotation(h1, [], id, Some(second), 1, rotated, h2)
    requires Exchanged(h2, [], limit, id, SecretOf(first), audience, now, true, token, h3)
    ensures created == Success(SecretOf(first)) && rotated == Success(SecretOf(second))
    ensures token == Success(MachineToken(id, audience, audiences[audience]))
    ensures Tied(limit, h3, t, id) && 2 in t.tokens && E.TokenSound(t, t.tokens[2])
  {
    var swapped := QuietlyRotated(limit, id, audiences, first, second, created, h1, rotated, h2);
    var rounds := NextRounds(Hash(1, SecretOf(second)), [Hash(0, SecretOf(first))]);
    SecondRoundVerifies(Hash(1, SecretOf(second)), 0, SecretOf(first));
    t := QuietExchange(limit, h2, swapped, id, Record(rounds, audiences, true), SecretOf(first), audience, now, token,
                       h3);
    TiedTokenIsSound(limit, h3, t, id, 2);
  }
}
