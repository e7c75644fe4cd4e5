/**
  What a login and a refresh tell the browser and leave in the table, field by field: the
  conclusions speak only of the request, the stored items and the answers of the signing library
  (api/google.go, api/refresh.go).
 */
module SessionAnswers {
  import opened Wrappers
  import opened Faults
  import opened Sessions
  import opened Table
  import opened RefreshTokens

  /** The item stands under the token's key, with this data and expiry, and its ttl in whole seconds. */
  ghost predicate Stands(items: Items, id: string, email: string, picture: string, roles: seq<string>, expiresAt: int) {
    && "REFRESH_TOKEN#" + id in items && items["REFRESH_TOKEN#" + id].TokenItem?
    && var token := items["REFRESH_TOKEN#" + id].token;
       && token.email == email && token.picture == picture && token.roles == roles && token.expiresAt == expiresAt
       && token.ttl * 1_000_000_000 <= expiresAt < (token.ttl + 1) * 1_000_000_000
  }

  /** Before and after agree on every key but the token's. */
  ghost predicate OnlyTokenChanges(before: Items, after: Items, id: string) {
    forall key :: key != "REFRESH_TOKEN#" + id ==>
                    && (key in before <==> key in after)
                    && (key in before ==> before[key] == after[key])
  }

  /** What a Save and the rest of its request amount to. */
  lemma SavedAnswer(h: History, turns: seq<Turn>, data: Session, signer: Signer, reply: Reply, after: seq<Items>)
    requires Works(signer) && SavedAndAnswered(h, turns, data, signer, reply, after)
    ensures after != []
    ensures reply.Reply200? <==> First(turns).fault == NoFault && signer.validates.Some?
    ensures !First(turns).fault.Lost? ==>
              && Stands(Now(after), signer.refresh.value.id, data.email, data.picture, RoleNames(data.roles),
                        signer.refresh.value.expiresAt)
              && OnlyTokenChanges(Now(Met(h, turns, 0)), Now(after), signer.refresh.value.id)
    ensures reply.Reply200? ==>
              && reply.token == signer.refresh.value && reply.user.expiresAt == signer.validates.value
              && reply.user.email == data.email && reply.user.picture == data.picture
              && reply.user.roles == RoleNames(data.roles)
  {
  }

  /**
    PostLoginGoogle: who logs in gets the account's own email and picture, and the role ADMIN if
    and only if it is an administrator's; a session with the same data stands in the table under
    the new token's id; and a request answers 200 exactly when nothing it needs has failed.
   */
  lemma LoginAnswer(h: History, turns: seq<Turn>, google: Option<(string, string)>, isAdmin: bool, signer: Signer,
      reply: Reply, after: seq<Items>)
    requires LoggedIn(h, turns, google, isAdmin, signer, reply, after)
    ensures after != []
    ensures reply.Reply200? <==>
            && google.Some? && signer.generates && signer.refresh.Some? && signer.validates.Some?
            && First(turns).fault == NoFault
    ensures google.None? || !signer.generates || signer.refresh.None? ==> after == h
    ensures reply.Reply200? ==>
              var (email, picture) := google.value;
              var roles := if isAdmin then ["ADMIN"] else [];
              && reply.user.email == email && reply.user.picture == picture && reply.user.roles == roles
              && reply.user.expiresAt == signer.validates.value && reply.token == signer.refresh.value
              && Stands(Now(after), reply.token.id, email, picture, roles, reply.token.expiresAt)
              && OnlyTokenChanges(Now(Met(h, turns, 0)), Now(after), reply.token.id)
  {
    if google.Some? && Works(signer) {
      SavedAnswer(h, turns, SessionOf(google.value, isAdmin), signer, reply, after);
      assert RoleNames([]) == [] && RoleNames([ROLE_ADMIN]) == ["ADMIN"];
    }
  }

  /** The item that the refresh's read returns. */
  function ReadToken(h: History, turns: seq<Turn>, id: string): Option<Stored> {
    TokenAt(Seen(Met(h, turns, 0), First(turns).lag), id)
  }

  lemma NamesBack(token: Stored)
    ensures RoleNames(Loaded(token).roles) == token.roles
  {
  }

  /** The refresh after a read that succeeded. */
  lemma ReadGoesOn(h: History, turns: seq<Turn>, id: string, now: int, signer: Signer, reply: Reply, after: seq<Items>)
    requires Refreshed(h, turns, id, now, signer, reply, after)
    requires First(turns).fault == NoFault
    requires ReadToken(h, turns, id).Some? && now <= ReadToken(h, turns, id).value.expiresAt
    ensures var dropped := GotThenDeleting(h, turns, id);
            if !Works(signer) then reply == Reply401 && after == dropped
            else SavedAndAnswered(dropped, Rest(Rest(turns)), Loaded(ReadToken(h, turns, id).value), signer, reply,
                                  after)
  {
  }

  lemma NoGoodRead(h: History, turns: seq<Turn>, id: string, now: int, signer: Signer, reply: Reply, after: seq<Items>)
    requires Refreshed(h, turns, id, now, signer, reply, after)
    requires !(First(turns).fault == NoFault && ReadToken(h, turns, id).Some?
               && now <= ReadToken(h, turns, id).value.expiresAt)
    ensures reply == Reply401 && after == Met(h, turns, 0)
  {
  }

  /**
    PostLoginRefresh: a token is good until and including its expiry, and no longer, and the
    answer and the new token carry the email, picture and roles of the item read.
   */
  lemma RefreshAnswer(h: History, turns: seq<Turn>, id: string, now: int, signer: Signer, reply: Reply,
      after: seq<Items>)
    requires Refreshed(h, turns, id, now, signer, reply, after)
    ensures after != []
    ensures reply.Reply200? <==>
            && First(turns).fault == NoFault && First(Rest(Rest(turns))).fault == NoFault
            && ReadToken(h, turns, id).Some? && now <= ReadToken(h, turns, id).value.expiresAt
            && signer.generates && signer.refresh.Some? && signer.validates.Some?
    ensures ReadToken(h, turns, id).None? || now > ReadToken(h, turns, id).value.expiresAt ==>
              after == Met(h, turns, 0)
    ensures reply.Reply200? ==>
              var token := ReadToken(h, turns, id).value;
              && reply.user.email == token.email && reply.user.picture == token.picture
              && reply.user.roles == token.roles
              && reply.user.expiresAt == signer.validates.value && reply.token == signer.refresh.value
              && Stands(Now(after), reply.token.id, token.email, token.picture, token.roles, reply.token.expiresAt)
  {
    if First(turns).fault == NoFault && ReadToken(h, turns, id).Some?
       && now <= ReadToken(h, turns, id).value.expiresAt {
      ReadGoesOn(h, turns, id, now, signer, reply, after);
      if Works(signer) {
        SavedAnswer(GotThenDeleting(h, turns, id), Rest(Rest(turns)), Loaded(ReadToken(h, turns, id).value), signer,
                    reply, after);
        NamesBack(ReadToken(h, turns, id).value);
      }
    } else {
      NoGoodRead(h, turns, id, now, signer, reply, after);
    }
  }

  /** The old token is gone from some version of the table on the way, unless its delete failed. */
  lemma RefreshDrops(h: History, turns: seq<Turn>, id: string, now: int, signer: Signer, reply: Reply,
      after: seq<Items>)
    requires Refreshed(h, turns, id, now, signer, reply, after) && !First(Rest(turns)).fault.Lost?
    requires First(turns).fault == NoFault
    requires ReadToken(h, turns, id).Some? && now <= ReadToken(h, turns, id).value.expiresAt
    ensures exists i :: |h| - 1 <= i < |after| && "REFRESH_TOKEN#" + id !in after[i]
  {
    ReadGoesOn(h, turns, id, now, signer, reply, after);
    var dropped := GotThenDeleting(h, turns, id);
    assert "REFRESH_TOKEN#" + id !in Now(dropped);
    assert h <= dropped <= after && Now(dropped) == after[|dropped| - 1];
  }
}
