/**
  The provisioning policy (m2m/provision_service.go), the client-credentials exchange
  (m2m/service.go) and its HTTP adapter (api/m2m.go), as the sequential code they are.  Before
  each table call everybody else may do anything to the table.
 */
module Services {
  import opened Wrappers
  import opened Faults
  import opened Validation
  import opened Records
  import opened Base64
  import opened BasicAuth
  import opened Table
  import opened M2MStore

  const SECOND: nat := 1_000_000_000

  datatype Error =
    | Malformed(format: FormatError)
    | Exists | NotFound | Inactive | Conflict
    | InvalidCredentials | RateLimited | AudienceNotAllowed
    | Failed

  function Translated(error: StoreError): Error {
    match error
    case ClientExists => Exists
    case ClientNotFound => NotFound
    case RoundsConflict => Conflict
    case StoreFailed => Failed
  }

  /** The secret of 32 random bytes. */
  function SecretOf(raw: seq<Byte>): string {
    Encode(RawURLEncoding, raw)
  }

  /** The version of the record that an operation's first call reads. */
  function Snapshot(h: History, turns: seq<Turn>, id: string): Option<Record> {
    ClientAt(Seen(Met(h, turns, 0), First(turns).lag), id)
  }

  // What each operation leaves and returns, given the table it starts from and what surrounds
  // its calls.

  /** What a format error says is so: the id comes first, then some entry of the map. */
  ghost predicate Offends(id: string, audiences: Audiences, error: FormatError) {
    match error
    case InvalidClientId => !ValidName(id)
    case InvalidAudience => ValidName(id) && exists a :: a in audiences && !ValidName(a)
    case InvalidScopes => ValidName(id) && exists a :: a in audiences && ValidName(a) && !ValidScopes(audiences[a])
  }

  ghost predicate Rejected<T>(id: string, audiences: Audiences, r: Result<T, Error>) {
    r.Failure? && r.error.Malformed? && Offends(id, audiences, r.error.format)
  }

  ghost predicate Creation(h: History, turns: seq<Turn>, id: string, audiences: Audiences, random: Option<seq<Byte>>,
      salt: nat, r: Result<string, Error>, after: seq<Items>)
  {
    if !ValidName(id) || !ValidAudiences(audiences) then Rejected(id, audiences, r) && after == h
    else if random.None? then r == Failure(Failed) && after == h
    else
      var turn, met, secret := First(turns), Met(h, turns, 0), SecretOf(random.value);
      var stored := ClientAt(Now(met), id);
      && r == (if turn.fault != NoFault then Failure(Failed)
               else if stored.Some? then Failure(Exists)
               else Success(secret))
      && after ==
         if stored.None? && !turn.fault.Lost?
         then met + [WithClient(Now(met), id, Record([Hash(salt, secret)], audiences, true))] else met
  }

  ghost predicate Replacement(h: History, turns: seq<Turn>, id: string, audiences: Audiences, r: Result<Record, Error>,
      after: seq<Items>)
  {
    if !ValidName(id) || !ValidAudiences(audiences) then Rejected(id, audiences, r) && after == h
    else
      var turn, met := First(turns), Met(h, turns, 0);
      var stored := ClientAt(Now(met), id);
      && r == (if turn.fault != NoFault then Failure(Failed)
               else if stored.None? then Failure(NotFound)
               else Success(stored.value.(audiences := audiences)))
      && after ==
         if stored.Some? && !turn.fault.Lost?
         then met + [WithClient(Now(met), id, stored.value.(audiences := audiences))] else met
  }

  ghost predicate Revocation(h: History, turns: seq<Turn>, id: string, r: Result<Record, Error>, after: seq<Items>) {
    if !ValidName(id) then r == Failure(Malformed(InvalidClientId)) && after == h
    else
      var turn, met := First(turns), Met(h, turns, 0);
      var stored := ClientAt(Now(met), id);
      && r == (if turn.fault != NoFault then Failure(Failed)
               else if stored.None? then Failure(NotFound)
               else Success(stored.value.(active := false)))
      && after ==
         if stored.Some? && !turn.fault.Lost?
         then met + [WithClient(Now(met), id, stored.value.(active := false))] else met
  }

  ghost predicate Rotation(h: History, turns: seq<Turn>, id: string, random: Option<seq<Byte>>, salt: nat,
      r: Result<string, Error>, after: seq<Items>)
  {
    var read := Snapshot(h, turns, id);
    if !ValidName(id) then r == Failure(Malformed(InvalidClientId)) && after == h
    else if First(turns).fault != NoFault then r == Failure(Failed) && after == Met(h, turns, 0)
    else if read.None? then r == Failure(NotFound) && after == Met(h, turns, 0)
    else if !read.value.active then r == Failure(Inactive) && after == Met(h, turns, 0)
    else if random.None? then r == Failure(Failed) && after == Met(h, turns, 0)
    else Swapped(Met(h, turns, 0), Rest(turns), id, Hash(salt, SecretOf(random.value)), read.value.rounds, r, after)
  }

  /** The compare-and-swap of a rotation, and the read that explains its refusal. */
  ghost predicate Swapped(h: History, turns: seq<Turn>, id: string, hash: Hash, base: seq<Hash>,
      r: Result<string, Error>, after: seq<Items>)
  {
    var turn, met := First(turns), Met(h, turns, 0);
    var stored := ClientAt(Now(met), id);
    if stored.Some? && stored.value.rounds == base then
      && r == (if turn.fault == NoFault then Success(hash.secret) else Failure(Failed))
      && after ==
         if turn.fault.Lost? then met
         else met + [WithClient(Now(met), id, stored.value.(rounds := NextRounds(hash, base)))]
    else if turn.fault != NoFault then r == Failure(Failed) && after == met
    else
      && after == Met(met, Rest(turns), 0)
      && r == Failure(if First(Rest(turns)).fault != NoFault then Failed
                      else if Snapshot(met, Rest(turns), id).None? then NotFound
                      else Conflict)
  }

  // ---------------------------------------------------------------------------------------
  // Provisioning
  // ---------------------------------------------------------------------------------------

  /** No call of any kind removes a client record. */
  lemma {:induction false} ClientsStay(h: History, calls: seq<Call>, id: string)
    requires ClientAt(Now(h), id).Some?
    ensures ClientAt(Now(Played(h, calls)), id).Some?
  {
    if calls == [] {
    } else {
      var before, last := calls[..|calls| - 1], calls[|calls| - 1];
      ClientsStay(h, before, id);
      ApplySteps(Now(Played(h, before)), last, id);
    }
  }

  /** An id that exists, revoked or not, can never be created again, whatever anybody does in between. */
  lemma NeverRecreated(h: History, turns: seq<Turn>, id: string, audiences: Audiences, random: Option<seq<Byte>>,
      salt: nat, r: Result<string, Error>, after: seq<Items>)
    requires ClientAt(Now(h), id).Some? && Creation(h, turns, id, audiences, random, salt, r, after)
    ensures r.Failure? && (after == h || after == Met(h, turns, 0))
  {
    ClientsStay(h, First(turns).others, id);
  }

  class ProvisionService {
    const store: M2MStore

    constructor (store: M2MStore)
      ensures this.store == store
    {
      this.store := store;
    }

    /** `random` is the random source's answer and `salt` the hash function's fresh salt. */
    method NewSecretHash(random: Option<seq<Byte>>, salt: nat) returns (minted: Option<(string, Hash)>)
      requires random.Some? ==> |random.value| == CLIENT_SECRET_BYTES
      ensures minted == if random.None? then None
                        else Some((SecretOf(random.value), Hash(salt, SecretOf(random.value))))
    {
      var secret := GenerateClientSecret(random);
      return if secret.None? then None else Some((secret.value, Hash(salt, secret.value)));
    }

    /**
      On success the table holds, where it held nothing, an active record whose one round
      matches the returned secret; a malformed request or an existing id writes nothing.
     */
    method CreateClient(id: string, audiences: Audiences, random: Option<seq<Byte>>, salt: nat)
      returns (r: Result<string, Error>)
      requires store.table.Valid()
      requires random.Some? ==> |random.value| == CLIENT_SECRET_BYTES
      modifies store.table
      ensures store.table.Valid()
      ensures Creation(old(store.table.history), old(store.table.turns), id, audiences, random, salt,
                       r, store.table.history)
    {
      if !ValidName(id) {
        return Failure(Malformed(InvalidClientId));
      }
      var error := ValidateAudiences(audiences);
      if error.Some? {
        return Failure(Malformed(error.value));
      }
      var minted := NewSecretHash(random, salt);
      if minted.None? {
        return Failure(Failed);
      }
      var (secret, hash) := minted.value;
      var created := store.CreateClient(id, Record([hash], audiences, true));
      match created
      case Failure(e) => return Failure(Translated(e));
      case Success(_) => return Success(secret);
    }

    /**
      Replaces the audiences of an existing record with a validated map and nothing else.
     */
    method UpdateClient(id: string, audiences: Audiences) returns (r: Result<Record, Error>)
      requires store.table.Valid()
      modifies store.table
      ensures store.table.Valid()
      ensures Replacement(old(store.table.history), old(store.table.turns), id, audiences, r, store.table.history)
    {
      if !ValidName(id) {
        return Failure(Malformed(InvalidClientId));
      }
      var error := ValidateAudiences(audiences);
      if error.Some? {
        return Failure(Malformed(error.value));
      }
      var updated := store.UpdateAudiences(id, audiences);
      match updated
      case Failure(e) => return Failure(Translated(e));
      case Success(record) => return Success(record);
    }

    /** Deactivates an existing record, active or not, and changes nothing else in it. */
    method RevokeClient(id: string) returns (r: Result<Record, Error>)
      requires store.table.Valid()
      modifies store.table
      ensures store.table.Valid()
      ensures Revocation(old(store.table.history), old(store.table.turns), id, r, store.table.history)
    {
      if !ValidName(id) {
        return Failure(Malformed(InvalidClientId));
      }
      var revoked := store.DeactivateClient(id);
      match revoked
      case Failure(e) => return Failure(Translated(e));
      case Success(record) => return Success(record);
    }

    /**
      Read, mint, compare-and-swap.  A secret is returned exactly when the (possibly stale)
      version that was read is active and, at the moment of the swap, the record holds that
      version's rounds; then the only change is the new hash in front of them.  Any refusal
      writes nothing.
     */
    method RotateClient(id: string, random: Option<seq<Byte>>, salt: nat) returns (r: Result<string, Error>)
      requires store.table.Valid()
      requires random.Some? ==> |random.value| == CLIENT_SECRET_BYTES
      modifies store.table
      ensures store.table.Valid()
      ensures Rotation(old(store.table.history), old(store.table.turns), id, random, salt, r, store.table.history)
    {
      if !ValidName(id) {
        return Failure(Malformed(InvalidClientId));
      }
      var got := store.GetClient(id);
      if got.Failure? {
        return Failure(Failed);
      }
      if got.value.None? {
        return Failure(NotFound);
      }
      var client := got.value.value;
      if !client.active {
        return Failure(Inactive);
      }
      var minted := NewSecretHash(random, salt);
      if minted.None? {
        return Failure(Failed);
      }
      var (secret, hash) := minted.value;
      var next := [hash] + client.rounds;
      if |next| > MAX_SECRET_ROUNDS {
        next := next[..MAX_SECRET_ROUNDS];
      }
      var swapped := store.UpdateRounds(id, client.rounds, next);
      match swapped
      case Failure(e) => return Failure(Translated(e));
      case Success(_) => return Success(secret);
    }
  }

  // ---------------------------------------------------------------------------------------
  // The exchange
  // ---------------------------------------------------------------------------------------

  datatype MachineToken = MachineToken(clientId: string, audience: string, scopes: seq<string>)

  /** Only an active record with rounds is worth counting an attempt for. */
  predicate Usable(snapshot: Option<Record>) {
    snapshot.Some? && snapshot.value.rounds != [] && snapshot.value.active
  }

  /** The count that a table holds for a client. */
  function CountAt(h: History, id: string): int {
    var rate := RateAt(Now(h), id);
    if rate.Some? then rate.value.count.GetOr(0) else 0
  }

  /** What an exchange leaves and returns, given the table it starts from and what surrounds its calls. */
  ghost predicate Exchanged(h: History, turns: seq<Turn>, limit: int, id: string, secret: string, audience: string,
      now: int, signs: bool, r: Result<MachineToken, Error>, after: seq<Items>)
  {
    var read, rest, snapshot := Met(h, turns, 0), Rest(turns), Snapshot(h, turns, id);
    if First(turns).fault != NoFault then r == Failure(Failed) && after == read
    else if !Usable(snapshot) then r == Failure(InvalidCredentials) && after == read
    else
      && after == AfterCount(read, rest, id, now)
      && r == if CountAnswered(read, rest, id, now)
              then Judgement(CountAt(after, id), limit, snapshot.value, id, secret, audience, signs)
              else Failure(Failed)
  }

  /** The verdict on a counted attempt. */
  function Judgement(count: int, limit: int, snapshot: Record, id: string, secret: string, audience: string,
      signs: bool):
    (r: Result<MachineToken, Error>)
    ensures r.Success? <==>
            count <= limit && audience in snapshot.audiences && Verifies(snapshot.rounds, secret) && signs
    ensures r == Failure(RateLimited) <==> count > limit
  {
    if count > limit then Failure(RateLimited)
    else if audience !in snapshot.audiences then Failure(AudienceNotAllowed)
    else if !Verifies(snapshot.rounds, secret) then Failure(InvalidCredentials)
    else if !signs then Failure(Failed)
    else Success(MachineToken(id, audience, snapshot.audiences[audience]))
  }

  predicate ReplacesAudiences(call: Call, id: string) {
    call.WriteClient? && call.id == id && call.change.Replace?
  }

  /** Nothing but another replacement changes the audiences of a record. */
  lemma {:induction false} AudiencesStay(h: History, calls: seq<Call>, id: string, i: nat)
    requires ClientAt(Now(h), id).Some? && |h| - 1 <= i < |Played(h, calls)|
    requires forall j :: 0 <= j < |calls| ==> !ReplacesAudiences(calls[j], id)
    ensures var stored := ClientAt(Played(h, calls)[i], id);
            stored.Some? && stored.value.audiences == ClientAt(Now(h), id).value.audiences
  {
    if calls == [] {
    } else {
      var before, last := calls[..|calls| - 1], calls[|calls| - 1];
      var mid := Played(h, before);
      AudiencesStay(h, before, id, |mid| - 1);
      if i < |mid| {
        AudiencesStay(h, before, id, i);
      } else {
        assert !ReplacesAudiences(last, id);
        ApplySteps(Now(mid), last, id);
      }
    }
  }

  lemma UpdatedAudiences(h: History, turns: seq<Turn>, id: string, audiences: Audiences, r: Result<Record, Error>,
      updated: History)
    requires Replacement(h, turns, id, audiences, r, updated) && r.Success?
    ensures ClientAt(Now(updated), id).Some? && ClientAt(Now(updated), id).value.audiences == audiences
  {
  }

  /** A read that is not older sees the audiences that were there. */
  lemma FreshSnapshot(h: History, turns: seq<Turn>, id: string)
    requires ClientAt(Now(h), id).Some? && First(turns).lag <= |Met(h, turns, 0)| - |h|
    requires forall j :: 0 <= j < |First(turns).others| ==> !ReplacesAudiences(First(turns).others[j], id)
    ensures Snapshot(h, turns, id).Some?
    ensures Snapshot(h, turns, id).value.audiences == ClientAt(Now(h), id).value.audiences
  {
    AudiencesStay(h, First(turns).others, id, |Met(h, turns, 0)| - 1 - First(turns).lag);
  }

  lemma SnapshotToken(h: History, turns: seq<Turn>, limit: int, id: string, secret: string, audience: string, now: int,
      signs: bool, r: Result<MachineToken, Error>, after: seq<Items>)
    requires Exchanged(h, turns, limit, id, secret, audience, now, signs, r, after) && r.Success?
    ensures Snapshot(h, turns, id).Some? && audience in Snapshot(h, turns, id).value.audiences
    ensures r.value.scopes == Snapshot(h, turns, id).value.audiences[audience]
  {
  }

  /**
    Scopes granted to an existing client reach its tokens: after a successful UpdateClient,
    whatever else is called short of another one, a token of an exchange whose read is not older
    carries exactly the scopes given there, whatever the client was created with.
   */
  lemma ScopesGrantedLater(h: History, turns: seq<Turn>, id: string, audiences: Audiences, r: Result<Record, Error>,
      updated: History, more: seq<Turn>, limit: int, secret: string, audience: string, now: int, signs: bool,
      token: Result<MachineToken, Error>, after: seq<Items>)
    requires Replacement(h, turns, id, audiences, r, updated) && r.Success?
    requires forall j :: 0 <= j < |First(more).others| ==> !ReplacesAudiences(First(more).others[j], id)
    requires First(more).lag <= |Met(updated, more, 0)| - |updated|
    requires Exchanged(updated, more, limit, id, secret, audience, now, signs, token, after)
    ensures token.Success? ==> audience in audiences && token.value.scopes == audiences[audience]
  {
    UpdatedAudiences(h, turns, id, audiences, r, updated);
    FreshSnapshot(updated, more, id);
    if token.Success? {
      SnapshotToken(updated, more, limit, id, secret, audience, now, signs, token, after);
    }
  }

  class Service {
    const store: M2MStore
    /** In nanoseconds. */
    const lifetime: nat

    constructor (store: M2MStore, lifetime: nat)
      ensures this.store == store && this.lifetime == lifetime
    {
      this.store := store;
      this.lifetime := lifetime;
    }

    /**
      A token is minted exactly when the version that was read is active, has the audience and
      verifies the secret, and the attempt was counted within the limit; it carries that
      version's scopes for the audience.  An unusable client is refused without touching the
      counter, any other attempt counts before its secret is looked at, and nothing but the
      counter is ever written.
      `now` is the reading of the store's clock and `signs` says whether signing works.
     */
    method Exchange(id: string, secret: string, audience: string, now: int, signs: bool)
      returns (r: Result<MachineToken, Error>)
      requires store.table.Valid()
      modifies store.table
      ensures store.table.Valid()
      ensures Exchanged(old(store.table.history), old(store.table.turns), store.windowLimit,
                        id, secret, audience, now, signs, r, store.table.history)
    {
      var got := store.GetClient(id);
      if got.Failure? {
        return Failure(Failed);
      }
      if got.value.None? || got.value.value.rounds == [] || !got.value.value.active {
        return Failure(InvalidCredentials);
      }
      var client := got.value.value;
      var window := store.BumpWindow(id, now);
      if window.Failure? {
        return Failure(Failed);
      }
      if window.value > store.windowLimit {
        return Failure(RateLimited);
      }
      if audience !in client.audiences {
        return Failure(AudienceNotAllowed);
      }
      var ok, _ := VerifySecret(client.rounds, secret);
      if !ok {
        return Failure(InvalidCredentials);
      }
      return if signs then Success(MachineToken(id, audience, client.audiences[audience])) else Failure(Failed);
    }
  }

  // ---------------------------------------------------------------------------------------
  // Its HTTP adapter
  // ---------------------------------------------------------------------------------------

  datatype Response =
    | Response200(token: MachineToken, tokenType: string, expiresIn: nat)
    | Response400
    | Response401
    | Response429
    | Response500

  /** The token's lifetime is reported in whole seconds. */
  function StatusOf(r: Result<MachineToken, Error>, lifetime: nat): Response {
    match r
    case Success(token) => Response200(token, "Bearer", lifetime / SECOND)
    case Failure(InvalidCredentials) => Response401
    case Failure(AudienceNotAllowed) => Response401
    case Failure(RateLimited) => Response429
    case Failure(_) => Response500
  }

  /** A well-formed request is answered by exactly one exchange; any other never reaches the table. */
  ghost predicate Posted(h: History, turns: seq<Turn>, limit: int, lifetime: nat, authorization: string,
      audience: string, now: int, signs: bool, response: Response, after: seq<Items>)
  {
    var parsed := ParseBasicAuth(authorization);
    if parsed.None? || |parsed.value.1| > MAX_SECRET_LENGTH || !ValidName(audience) then
      response == Response400 && after == h
    else
      exists r :: response == StatusOf(r, lifetime) &&
        Exchanged(h, turns, limit, parsed.value.0, parsed.value.1, audience, now, signs, r, after)
  }

  /** A 200 carries a token for credentials that the version read verifies, counted within the limit. */
  lemma PostedToken(h: History, turns: seq<Turn>, limit: int, lifetime: nat, authorization: string, audience: string,
      now: int, signs: bool, response: Response, after: History)
    requires Posted(h, turns, limit, lifetime, authorization, audience, now, signs, response, after)
    requires response.Response200?
    ensures ParseBasicAuth(authorization).Some?
    ensures var (id, secret) := ParseBasicAuth(authorization).value;
            var snapshot := Snapshot(h, turns, id);
            && Usable(snapshot) && audience in snapshot.value.audiences && Verifies(snapshot.value.rounds, secret)
            && response.token == MachineToken(id, audience, snapshot.value.audiences[audience])
            && CountAt(after, id) <= limit
  {
  }

  class API {
    const m2mService: Service

    constructor (m2mService: Service)
      ensures this.m2mService == m2mService
    {
      this.m2mService := m2mService;
    }

    /** A wrong secret and an audience the client does not have look the same from outside. */
    method PostLoginV1M2mTokens(authorization: string, audience: string, now: int, signs: bool)
      returns (response: Response)
      requires m2mService.store.table.Valid()
      modifies m2mService.store.table
      ensures m2mService.store.table.Valid()
      ensures Posted(old(m2mService.store.table.history), old(m2mService.store.table.turns),
                     m2mService.store.windowLimit, m2mService.lifetime, authorization, audience, now, signs,
                     response, m2mService.store.table.history)
    {
      var credentials := ParseHeader(authorization);
      if credentials.None? || |credentials.value.1| > MAX_SECRET_LENGTH {
        return Response400;
      }
      var (id, secret) := credentials.value;
      if !ValidName(audience) {
        return Response400;
      }
      var signed := m2mService.Exchange(id, secret, audience, now, signs);
      match signed
      case Success(token) => return Response200(token, "Bearer", m2mService.lifetime / SECOND);
      case Failure(InvalidCredentials) => return Response401;
      case Failure(AudienceNotAllowed) => return Response401;
      case Failure(RateLimited) => return Response429;
      case Failure(_) => return Response500;
    }
  }
}
