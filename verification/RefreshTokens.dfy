/**
  The refresh-token store (dynamo/refresh_token.go) and the request handlers that use it
  (api/google.go, api/refresh.go, api/session.go), as the sequential code they are.  Before each
  table call everybody else may do anything to the table, and a read may be stale.
 */
module RefreshTokens {
  import opened Wrappers
  import opened Faults
  import opened Sessions
  import opened Table

  datatype TokenError = TokenNotFound | TokenExpired | TokenStoreFailed

  /** What a Get that meets this item at this time returns. */
  function Answered(item: Option<Stored>, now: int): Result<Session, TokenError> {
    if item.None? then Failure(TokenNotFound)
    else if Expired(item.value, now) then Failure(TokenExpired)
    else Success(Loaded(item.value))
  }

  /** The item's own fields are the session's, role for role, and it expires then. */
  ghost predicate Carries(item: Stored, data: Session, expiresAt: int) {
    && item.email == data.email && item.picture == data.picture
    && |item.roles| == |data.roles| && (forall i :: 0 <= i < |item.roles| ==> item.roles[i] == data.roles[i].name)
    && item.expiresAt == expiresAt
  }

  class RefreshTokenStore {
    const table: Table

    constructor (table: Table)
      ensures this.table == table
    {
      this.table := table;
    }

    method Save(id: string, data: Session, expiresAt: int) returns (ok: bool)
      requires table.Valid()
      modifies table
      ensures table.Valid() && table.turns == Rest(old(table.turns))
      ensures var turn, met := First(old(table.turns)), Met(old(table.history), old(table.turns), 0);
              && (ok <==> turn.fault == NoFault)
              && table.history == if turn.fault.Lost? then met else Written(met, PutToken(id, Saved(data, expiresAt)))
      ensures !First(old(table.turns)).fault.Lost? ==>
                && TokenAt(Now(table.history), id).Some?
                && Carries(TokenAt(Now(table.history), id).value, data, expiresAt)
                && TokenAt(Now(table.history), id).value.ttl == Unix(expiresAt)
    {
      var roleStrings := new string[|data.roles|];
      for i := 0 to |data.roles|
        modifies roleStrings
        invariant roleStrings[..i] == RoleNames(data.roles)[..i]
      {
        roleStrings[i] := data.roles[i].name;
      }
      assert roleStrings[..] == RoleNames(data.roles);
      var item := Stored(data.email, data.picture, roleStrings[..], expiresAt, Unix(expiresAt));
      var put := table.Write(PutToken(id, item));
      return put.Success?;
    }

    /** `now` is the clock's reading after the item has arrived. */
    method Get(id: string, now: int) returns (r: Result<Session, TokenError>)
      requires table.Valid()
      modifies table
      ensures table.Valid() && table.turns == Rest(old(table.turns))
      ensures table.history == Met(old(table.history), old(table.turns), 0)
      ensures r == if First(old(table.turns)).fault != NoFault then Failure(TokenStoreFailed)
                   else Answered(TokenAt(Seen(table.history, First(old(table.turns)).lag), id), now)
      ensures var read := TokenAt(Seen(table.history, First(old(table.turns)).lag), id);
              && (r.Success? <==>
                    First(old(table.turns)).fault == NoFault && read.Some? && now <= read.value.expiresAt)
              && (r.Success? ==> Carries(read.value, r.value, read.value.expiresAt))
    {
      var got := table.Get(TokenKey(id));
      if got.Failure? {
        return Failure(TokenStoreFailed);
      }
      if got.value.None? || !got.value.value.TokenItem? {
        return Failure(TokenNotFound);
      }
      var item := got.value.value.token;
      if now > item.expiresAt {
        return Failure(TokenExpired);
      }
      var roles := new Role[|item.roles|](_ => Role(""));
      for i := 0 to |item.roles|
        modifies roles
        invariant roles[..i] == NamedRoles(item.roles)[..i]
      {
        roles[i] := Role(item.roles[i]);
      }
      assert roles[..] == NamedRoles(item.roles);
      return Success(Session(item.email, item.picture, roles[..]));
    }

    /** Unconditional: deleting a token that is not there succeeds. */
    method Delete(id: string) returns (ok: bool)
      requires table.Valid()
      modifies table
      ensures table.Valid() && table.turns == Rest(old(table.turns))
      ensures var turn, met := First(old(table.turns)), Met(old(table.history), old(table.turns), 0);
              && (ok <==> turn.fault == NoFault)
              && table.history == if turn.fault.Lost? then met else Written(met, DeleteToken(id))
      ensures !First(old(table.turns)).fault.Lost? ==> TokenAt(Now(table.history), id).None?
    {
      var deleted := table.Write(DeleteToken(id));
      return deleted.Success?;
    }
  }

  // ---------------------------------------------------------------------------------------
  // The handlers
  // ---------------------------------------------------------------------------------------

  /** A generated refresh token: its id and expiry. */
  datatype Generated = Generated(id: string, expiresAt: int)

  /**
    The answers of the signing library: whether an access token is made, the new refresh token,
    and, if the access token validates, when it expires.
   */
  datatype Signer = Signer(generates: bool, refresh: Option<Generated>, validates: Option<int>)

  predicate Works(signer: Signer) {
    signer.generates && signer.refresh.Some?
  }

  datatype UserInfo = UserInfo(expiresAt: int, picture: string, email: string, roles: seq<string>)

  /** `token` is what the refresh cookie carries, and when it expires. */
  datatype Reply = Reply200(user: UserInfo, token: Generated) | Reply401

  function InfoOf(data: Session, expiresAt: int): UserInfo {
    UserInfo(expiresAt, data.picture, data.email, RoleNames(data.roles))
  }

  const ROLE_ADMIN := Role("ADMIN")

  method RolesToUserInfoRoles(roles: seq<Role>) returns (names: seq<string>)
    ensures names == RoleNames(roles)
  {
    var result := new string[|roles|];
    for i := 0 to |roles|
      invariant result[..i] == RoleNames(roles)[..i]
    {
      result[i] := roles[i].name;
    }
    assert result[..] == RoleNames(roles);
    return result[..];
  }

  /** What the refresh's first call finds. */
  function Found(h: History, turns: seq<Turn>, id: string, now: int): Result<Session, TokenError> {
    if First(turns).fault != NoFault then Failure(TokenStoreFailed)
    else Answered(TokenAt(Seen(Met(h, turns, 0), First(turns).lag), id), now)
  }

  /** An attempted Delete, whose answer nobody waits for. */
  function Deleting(h: History, turns: seq<Turn>, id: string): History {
    var met := Met(h, turns, 0);
    if First(turns).fault.Lost? then met else Written(met, DeleteToken(id))
  }

  /** The table after the refresh's Get and its attempted Delete. */
  function GotThenDeleting(h: History, turns: seq<Turn>, id: string): History {
    Deleting(Met(h, turns, 0), Rest(turns), id)
  }

  /** Save, and the answer that depends on it. */
  ghost predicate SavedAndAnswered(h: History, turns: seq<Turn>, data: Session, signer: Signer, reply: Reply,
      after: seq<Items>)
    requires Works(signer)
  {
    var met, made := Met(h, turns, 0), signer.refresh.value;
    && after == (if First(turns).fault.Lost? then met else Written(met, PutToken(made.id, Saved(data, made.expiresAt))))
    && reply == if First(turns).fault == NoFault && signer.validates.Some?
                then Reply200(InfoOf(data, signer.validates.value), made) else Reply401
  }

  function SessionOf(google: (string, string), isAdmin: bool): Session {
    Session(google.0, google.1, if isAdmin then [ROLE_ADMIN] else [])
  }

  ghost predicate LoggedIn(h: History, turns: seq<Turn>, google: Option<(string, string)>, isAdmin: bool,
      signer: Signer, reply: Reply, after: seq<Items>)
  {
    if google.None? || !Works(signer) then reply == Reply401 && after == h
    else SavedAndAnswered(h, turns, SessionOf(google.value, isAdmin), signer, reply, after)
  }

  ghost predicate Refreshed(h: History, turns: seq<Turn>, id: string, now: int, signer: Signer, reply: Reply,
      after: seq<Items>)
  {
    var found := Found(h, turns, id, now);
    if found.Failure? then reply == Reply401 && after == Met(h, turns, 0)
    else
      var dropped := GotThenDeleting(h, turns, id);
      if !Works(signer) then reply == Reply401 && after == dropped
      else SavedAndAnswered(dropped, Rest(Rest(turns)), found.value, signer, reply, after)
  }

  class LoginAPI {
    const refreshTokenStore: RefreshTokenStore

    constructor (store: RefreshTokenStore)
      ensures refreshTokenStore == store
    {
      refreshTokenStore := store;
    }

    /**
      Stores the new session's token, or nothing when any step before the Save fails.
      `google` is the validated Google token's email and picture, if it validates.
     */
    method PostLoginGoogle(google: Option<(string, string)>, isAdmin: bool, signer: Signer) returns (reply: Reply)
      requires refreshTokenStore.table.Valid()
      modifies refreshTokenStore.table
      ensures refreshTokenStore.table.Valid()
      ensures LoggedIn(old(refreshTokenStore.table.history), old(refreshTokenStore.table.turns),
                       google, isAdmin, signer, reply, refreshTokenStore.table.history)
    {
      if google.None? {
        return Reply401;
      }
      var (email, picture) := google.value;
      var roles := if isAdmin then [ROLE_ADMIN] else [];
      if !signer.generates {
        return Reply401;
      }
      if signer.refresh.None? {
        return Reply401;
      }
      var made := signer.refresh.value;
      var saved := refreshTokenStore.Save(made.id, Session(email, picture, roles), made.expiresAt);
      if !saved {
        return Reply401;
      }
      if signer.validates.None? {
        return Reply401;
      }
      var names := RolesToUserInfoRoles(roles);
      return Reply200(UserInfo(signer.validates.value, picture, email, names), made);
    }

    /**
      Rotate on use.  A token that is found unexpired is deleted, whether or not that works a new
      one is made, and it is stored with exactly the session that was read; the request answers
      200 exactly when the new token is acknowledged as stored.
     */
    method PostLoginRefresh(tokenId: Option<string>, now: int, signer: Signer) returns (reply: Reply)
      requires refreshTokenStore.table.Valid()
      modifies refreshTokenStore.table
      ensures refreshTokenStore.table.Valid()
      ensures tokenId.None? ==>
                reply == Reply401 && refreshTokenStore.table.history == old(refreshTokenStore.table.history)
      ensures tokenId.Some? ==>
                Refreshed(old(refreshTokenStore.table.history), old(refreshTokenStore.table.turns),
                          tokenId.value, now, signer, reply, refreshTokenStore.table.history)
    {
      if tokenId.None? {
        return Reply401;
      }
      var got := refreshTokenStore.Get(tokenId.value, now);
      if got.Failure? {
        return Reply401;
      }
      var userData := got.value;
      var _ := refreshTokenStore.Delete(tokenId.value);
      if !signer.generates {
        return Reply401;
      }
      if signer.refresh.None? {
        return Reply401;
      }
      var made := signer.refresh.value;
      var saved := refreshTokenStore.Save(made.id, userData, made.expiresAt);
      if !saved {
        return Reply401;
      }
      if signer.validates.None? {
        return Reply401;
      }
      var names := RolesToUserInfoRoles(userData.roles);
      return Reply200(UserInfo(signer.validates.value, userData.picture, userData.email, names), made);
    }

    /** Always answers 200; the delete is attempted only for a logged-in caller with a token id. */
    method DeleteLoginSession(loggedIn: bool, refreshTokenId: Option<string>)
      requires refreshTokenStore.table.Valid()
      modifies refreshTokenStore.table
      ensures refreshTokenStore.table.Valid()
      ensures refreshTokenStore.table.history ==
              if !loggedIn || refreshTokenId.None? then old(refreshTokenStore.table.history)
              else Deleting(old(refreshTokenStore.table.history), old(refreshTokenStore.table.turns),
                            refreshTokenId.value)
      ensures loggedIn && refreshTokenId.Some? && !First(old(refreshTokenStore.table.turns)).fault.Lost? ==>
                TokenAt(Now(refreshTokenStore.table.history), refreshTokenId.value).None?
    {
      if !loggedIn {
        return;
      }
      if refreshTokenId.Some? {
        var _ := refreshTokenStore.Delete(refreshTokenId.value);
      }
    }
  }

  // ---------------------------------------------------------------------------------------
  // Stale reads
  // ---------------------------------------------------------------------------------------

  predicate PutsBack(call: Call, id: string) {
    call.PutToken? && call.id == id
  }

  /** Without a new Save of the same id, a deleted token is in no later version of the table. */
  lemma {:induction false} DeletedInLaterVersions(h: History, calls: seq<Call>, id: string, i: nat)
    requires TokenAt(Now(h), id).None?
    requires forall j :: 0 <= j < |calls| ==> !PutsBack(calls[j], id)
    requires |h| - 1 <= i < |Played(h, calls)|
    ensures TokenAt(Played(h, calls)[i], id).None?
  {
    if calls == [] {
    } else {
      var before, last := calls[..|calls| - 1], calls[|calls| - 1];
      var mid := Played(h, before);
      DeletedInLaterVersions(h, before, id, |mid| - 1);
      if i < |mid| {
        DeletedInLaterVersions(h, before, id, i);
      } else {
        assert !PutsBack(last, id);
        ApplySteps(Now(mid), last, id);
      }
    }
  }

  /**
    A deleted token can be used again exactly by a read that is stale enough.  After a Delete of
    a stored, unexpired token and any later calls that do not save its id, a Get is refused at
    every lag that stays within the versions since the Delete, and at the next lag it still
    succeeds.
   */
  lemma ReuseNeedsStaleRead(h: History, calls: seq<Call>, id: string, now: int)
    requires TokenAt(Now(h), id).Some? && now <= TokenAt(Now(h), id).value.expiresAt
    requires forall j :: 0 <= j < |calls| ==> !PutsBack(calls[j], id)
    ensures var later := Played(Written(h, DeleteToken(id)), calls);
            && |h| < |later|
            && (forall lag: nat :: lag < |later| - |h| ==>
                  Answered(TokenAt(Seen(later, lag), id), now) == Failure(TokenNotFound))
            && Answered(TokenAt(Seen(later, |later| - |h|), id), now) == Success(Loaded(TokenAt(Now(h), id).value))
  {
    var deleted := Written(h, DeleteToken(id));
    var later := Played(deleted, calls);
    assert |deleted| == |h| + 1 && h <= deleted <= later;
    ApplySteps(Now(h), DeleteToken(id), id);
    forall lag: nat | lag < |later| - |h| ensures TokenAt(Seen(later, lag), id).None? {
      DeletedInLaterVersions(deleted, calls, id, |later| - 1 - lag);
    }
    assert later[|h| - 1] == Now(h);
  }
}
