/**
  What provisioning and the token endpoint tell their callers and leave in the table, field by
  field: the conclusions speak only of the request, the stored items, the random bytes and the
  wire (m2m/provision_service.go, m2m/service.go, api/m2m.go).
 */
module CredentialAnswers {
  import opened Wrappers
  import opened Faults
  import opened Validation
  import opened Records
  import opened Base64
  import opened Rfc4648
  import opened BasicAuth
  import opened Table
  import opened M2MStore
  import opened Services
  import opened Secrecy

  // ---------------------------------------------------------------------------------------
  // Secrets
  // ---------------------------------------------------------------------------------------

  /**
    The secret stands for exactly these bytes in 43 characters of the URL alphabet, without
    padding, and Basic credentials carry it unchanged.
   */
  ghost predicate Arrives(id: string, secret: string, raw: seq<Byte>) {
    && |secret| == 43 && Decode(RawURLEncoding, secret) == Some(raw)
    && (forall c :: c in secret ==> InTable(RawURLEncoding, c))
    && ByteText(id) && ByteText(secret) && ParseBasicAuth(BasicHeader(id, secret)) == Some((id, secret))
  }

  lemma EncodedArrives(id: string, raw: seq<Byte>)
    requires ValidName(id) && |raw| == 32
    ensures Arrives(id, SecretOf(raw), raw)
  {
    GeneratedSecretArrives(id, raw);
    RoundTrip(RawURLEncoding, raw);
    UnpaddedInTable(raw);
  }

  /** CreateClient: the returned secret arrives, and the item created is active and holds its hash alone. */
  lemma CreatedAnswer(h: History, turns: seq<Turn>, id: string, audiences: Audiences, random: Option<seq<Byte>>,
      salt: nat, r: Result<string, Error>, after: seq<Items>)
    requires Creation(h, turns, id, audiences, random, salt, r, after)
    requires random.Some? ==> |random.value| == 32
    ensures r.Success? ==>
              && random.Some? && Arrives(id, r.value, random.value) && First(turns).fault == NoFault
              && var met, item := Met(h, turns, 0), ClientItem(Record([Hash(salt, r.value)], audiences, true));
                 ClientAt(Now(met), id).None? && after == met + [Now(met)["CLIENT#" + id := item]]
  {
    if r.Success? {
      EncodedArrives(id, random.value);
    }
  }

  /** The compare-and-swap behind a returned secret. */
  lemma SwappedItem(h: History, turns: seq<Turn>, id: string, hash: Hash, base: seq<Hash>, r: Result<string, Error>,
      after: seq<Items>)
    requires Swapped(h, turns, id, hash, base, r, after) && r.Success?
    ensures r.value == hash.secret
    ensures var met := Met(h, turns, 0);
            var stored := ClientAt(Now(met), id);
            && stored.Some? && stored.value.rounds == base
            && var item := ClientItem(stored.value.(rounds := [hash] + if base == [] then [] else [base[0]]));
               after == met + [Now(met)["CLIENT#" + id := item]]
  {
    assert NextRounds(hash, base) == [hash] + if base == [] then [] else [base[0]];
  }

  lemma RotationSwaps(h: History, turns: seq<Turn>, id: string, random: Option<seq<Byte>>, salt: nat,
      r: Result<string, Error>, after: seq<Items>)
    requires Rotation(h, turns, id, random, salt, r, after) && r.Success?
    ensures ValidName(id) && random.Some? && First(turns).fault == NoFault
    ensures var read := ClientAt(Seen(Met(h, turns, 0), First(turns).lag), id);
            && read.Some? && read.value.active
            && Swapped(Met(h, turns, 0), Rest(turns), id, Hash(salt, SecretOf(random.value)), read.value.rounds,
                       r, after)
  {
  }

  /**
    RotateClient: the returned secret arrives, and its hash now stands in front of the newest of
    the rounds that the active version read had; the record's other fields are as they were.
   */
  lemma RotatedAnswer(h: History, turns: seq<Turn>, id: string, random: Option<seq<Byte>>, salt: nat,
      r: Result<string, Error>, after: seq<Items>)
    requires Rotation(h, turns, id, random, salt, r, after) && r.Success?
    requires random.Some? ==> |random.value| == 32
    ensures random.Some? && Arrives(id, r.value, random.value)
    ensures var read := ClientAt(Seen(Met(h, turns, 0), First(turns).lag), id);
            read.Some? && read.value.active
    ensures var base := ClientAt(Seen(Met(h, turns, 0), First(turns).lag), id).value.rounds;
            var met := Met(Met(h, turns, 0), Rest(turns), 0);
            var stored := ClientAt(Now(met), id);
            && stored.Some? && stored.value.rounds == base
            && var rounds := [Hash(salt, r.value)] + if base == [] then [] else [base[0]];
               after == met + [Now(met)["CLIENT#" + id := ClientItem(stored.value.(rounds := rounds))]]
  {
    RotationSwaps(h, turns, id, random, salt, r, after);
    EncodedArrives(id, random.value);
    var read := ClientAt(Seen(Met(h, turns, 0), First(turns).lag), id);
    SwappedItem(Met(h, turns, 0), Rest(turns), id, Hash(salt, SecretOf(random.value)), read.value.rounds, r, after);
  }

  // ---------------------------------------------------------------------------------------
  // Formats
  // ---------------------------------------------------------------------------------------

  /** The id, the audiences and the scopes match their patterns. */
  ghost predicate WellFormed(id: string, audiences: Audiences) {
    NameText(id) && forall a :: a in audiences ==> NameText(a) && AllScopeText(audiences[a])
  }

  ghost predicate AllScopeText(scopes: seq<string>) {
    forall i :: 0 <= i < |scopes| ==> ScopeText(scopes[i])
  }

  lemma ScopeListsAreText(scopes: seq<string>)
    ensures ValidScopes(scopes) <==> AllScopeText(scopes)
  {
    forall i | 0 <= i < |scopes| ensures ValidScope(scopes[i]) <==> ScopeText(scopes[i]) {
      ScopesAreText(scopes[i]);
    }
  }

  lemma FormatsAreText(id: string, audiences: Audiences)
    ensures ValidName(id) && ValidAudiences(audiences) <==> WellFormed(id, audiences)
    ensures ValidName(id) <==> NameText(id)
    ensures forall a :: a in audiences ==>
                          (ValidName(a) <==> NameText(a)) && (ValidScopes(audiences[a]) <==> AllScopeText(audiences[a]))
  {
    NamesAreText(id);
    forall a | a in audiences
      ensures (ValidName(a) <==> NameText(a)) && (ValidScopes(audiences[a]) <==> AllScopeText(audiences[a]))
    {
      NamesAreText(a);
      ScopeListsAreText(audiences[a]);
    }
  }

  /** A format error is one that the request has. */
  ghost predicate Offending(id: string, audiences: Audiences, error: FormatError) {
    match error
    case InvalidClientId => !NameText(id)
    case InvalidAudience => NameText(id) && exists a :: a in audiences && !NameText(a)
    case InvalidScopes => NameText(id) && exists a :: a in audiences && NameText(a) && !AllScopeText(audiences[a])
  }

  /** CreateClient answers a format error exactly when some pattern does not match, and then writes nothing. */
  lemma CreateFormats(h: History, turns: seq<Turn>, id: string, audiences: Audiences, random: Option<seq<Byte>>,
      salt: nat, r: Result<string, Error>, after: seq<Items>)
    requires Creation(h, turns, id, audiences, random, salt, r, after)
    ensures r.Failure? && r.error.Malformed? <==> !WellFormed(id, audiences)
    ensures r.Failure? && r.error.Malformed? ==> Offending(id, audiences, r.error.format) && after == h
  {
    FormatsAreText(id, audiences);
  }

  /**
    UpdateClient answers a format error exactly when some pattern does not match, and then writes
    nothing; what it does write is the given map, in the record's audiences alone.
   */
  lemma UpdatedAnswer(h: History, turns: seq<Turn>, id: string, audiences: Audiences, r: Result<Record, Error>,
      after: seq<Items>)
    requires Replacement(h, turns, id, audiences, r, after)
    ensures r.Failure? && r.error.Malformed? <==> !WellFormed(id, audiences)
    ensures r.Failure? && r.error.Malformed? ==> Offending(id, audiences, r.error.format) && after == h
    ensures r.Success? ==>
              var met := Met(h, turns, 0);
              var stored := ClientAt(Now(met), id);
              && stored.Some? && r.value == Record(stored.value.rounds, audiences, stored.value.active)
              && after == met + [Now(met)["CLIENT#" + id := ClientItem(r.value)]]
  {
    FormatsAreText(id, audiences);
  }

  /** RevokeClient clears `active` alone, and leaves it cleared. */
  lemma RevokedAnswer(h: History, turns: seq<Turn>, id: string, r: Result<Record, Error>, after: seq<Items>)
    requires Revocation(h, turns, id, r, after)
    ensures r.Failure? && r.error.Malformed? <==> !NameText(id)
    ensures r.Failure? && r.error.Malformed? ==> r.error.format == InvalidClientId && after == h
    ensures r.Success? ==>
              var met := Met(h, turns, 0);
              var stored := ClientAt(Now(met), id);
              && stored.Some? && r.value == Record(stored.value.rounds, stored.value.audiences, false)
              && after == met + [Now(met)["CLIENT#" + id := ClientItem(r.value)]]
  {
    NamesAreText(id);
  }

  // ---------------------------------------------------------------------------------------
  // The token endpoint
  // ---------------------------------------------------------------------------------------

  function Status(response: Response): int {
    match response
    case Response200(_, _, _) => 200
    case Response400 => 400
    case Response401 => 401
    case Response429 => 429
    case Response500 => 500
  }

  /** The record has the audience, and one of its rounds hashes the secret. */
  ghost predicate Entitled(record: Record, secret: string, audience: string) {
    audience in record.audiences && exists i :: 0 <= i < |record.rounds| && record.rounds[i].secret == secret
  }

  /** The answer to an attempt that was counted. */
  lemma JudgedAnswer(count: int, limit: int, record: Record, id: string, secret: string, audience: string, signs: bool,
      lifetime: nat)
    ensures var response := StatusOf(Judgement(count, limit, record, id, secret, audience, signs), lifetime);
            && Status(response) == (if count > limit then 429 else if !Entitled(record, secret, audience) then 401
                                    else if signs then 200 else 500)
            && (response.Response200? ==> Grants(response, id, audience, record.audiences[audience], lifetime))
  {
    assert Verifies(record.rounds, secret) <==>
           exists i :: 0 <= i < |record.rounds| && record.rounds[i].secret == secret by {
      if Verifies(record.rounds, secret) {
        var i :| 0 <= i < |record.rounds| && Matches(record.rounds[i], secret);
        assert record.rounds[i].secret == secret;
      }
      if i :| 0 <= i < |record.rounds| && record.rounds[i].secret == secret {
        assert Matches(record.rounds[i], secret);
      }
    }
  }

  /** A bearer token for this client, audience and scopes, its lifetime in whole seconds. */
  ghost predicate Grants(response: Response, id: string, audience: string, scopes: seq<string>, lifetime: nat) {
    && response.Response200?
    && response.token.clientId == id && response.token.audience == audience && response.token.scopes == scopes
    && response.tokenType == "Bearer"
    && response.expiresIn * 1_000_000_000 <= lifetime < (response.expiresIn + 1) * 1_000_000_000
  }

  /** The answer to a well-formed request. */
  lemma ExchangeAnswer(h: History, turns: seq<Turn>, limit: int, lifetime: nat, id: string, secret: string,
      audience: string, now: int, signs: bool, r: Result<MachineToken, Error>, after: History)
    requires Exchanged(h, turns, limit, id, secret, audience, now, signs, r, after)
    ensures var read := ClientAt(Seen(Met(h, turns, 0), First(turns).lag), id);
            && Status(StatusOf(r, lifetime)) ==
               (if First(turns).fault != NoFault then 500
                else if read.None? || read.value.rounds == [] || !read.value.active then 401
                else if !CountAnswered(Met(h, turns, 0), Rest(turns), id, now) then 500
                else if CountAt(after, id) > limit then 429
                else if !Entitled(read.value, secret, audience) then 401
                else if signs then 200 else 500)
            && (Status(StatusOf(r, lifetime)) == 200 ==>
                  Grants(StatusOf(r, lifetime), id, audience, read.value.audiences[audience], lifetime))
  {
    var read := ClientAt(Seen(Met(h, turns, 0), First(turns).lag), id);
    if Usable(read) {
      JudgedAnswer(CountAt(after, id), limit, read.value, id, secret, audience, signs, lifetime);
    }
  }

  /**
    PostLoginV1M2mTokens: which of its five statuses a request gets, as the checks come one after
    another, and what a 200 says.
   */
  lemma PostedAnswer(h: History, turns: seq<Turn>, limit: int, lifetime: nat, authorization: string, audience: string,
      now: int, signs: bool, response: Response, after: History)
    requires Posted(h, turns, limit, lifetime, authorization, audience, now, signs, response, after)
    ensures var credentials := ParseBasicAuth(authorization);
            if credentials.None? || |credentials.value.1| > 1024 || !NameText(audience) then
              Status(response) == 400 && after == h
            else
              var (id, secret) := credentials.value;
              var read := ClientAt(Seen(Met(h, turns, 0), First(turns).lag), id);
              && Status(response) ==
                 (if First(turns).fault != NoFault then 500
                  else if read.None? || read.value.rounds == [] || !read.value.active then 401
                  else if !CountAnswered(Met(h, turns, 0), Rest(turns), id, now) then 500
                  else if CountAt(after, id) > limit then 429
                  else if !Entitled(read.value, secret, audience) then 401
                  else if signs then 200 else 500)
              && (Status(response) == 200 ==>
                    Grants(response, id, audience, read.value.audiences[audience], lifetime))
  {
    NamesAreText(audience);
    var credentials := ParseBasicAuth(authorization);
    if credentials.Some? && |credentials.value.1| <= 1024 && NameText(audience) {
      var (id, secret) := credentials.value;
      var r := PostedExchange(h, turns, limit, lifetime, authorization, audience, now, signs, response, after,
                              id, secret);
      ExchangeAnswer(h, turns, limit, lifetime, id, secret, audience, now, signs, r, after);
    }
  }
}
