/** Request identity in the Postgres-backed server: authMiddleware resolves every request to
    a signed-in user or to a guest session, and requireAuth admits signed-in users only. */
module Identity {
  import opened Wrappers
  import opened Text
  import Carts

  const AuthenticationRequired := "Authentication required"
  const InvalidToken := "Invalid or expired token"
  const BearerPrefix := "Bearer "

  /** What a middleware does with the request: hand it on, or answer it with an error. */
  datatype Continuation = Next | Respond(status: nat, error: string)

  /** The token of an `Authorization: Bearer <token>` header: the header without its first
      seven characters; None when the header is missing or has another scheme. */
  function BearerToken(authorization: Option<string>): (r: Option<string>)
    ensures r.Some? <==> authorization.Some? && StartsWith(authorization.value, BearerPrefix)
    ensures r.Some? ==> authorization.value == BearerPrefix + r.value
  {
    if authorization.Some? && StartsWith(authorization.value, BearerPrefix) then
      assert authorization.value == authorization.value[..7] + authorization.value[7..];
      Some(authorization.value[7..])
    else
      None
  }

  /** A header built as "Bearer " + token yields that token back. */
  lemma BearerTokenRoundTrip(token: string)
    ensures BearerToken(Some(BearerPrefix + token)) == Some(token)
  {
    assert (BearerPrefix + token)[..7] == BearerPrefix;
  }

  /** A fresh guest session id: "session_", the clock in decimal, "_", up to thirteen
      characters of the random draw's base-36 text (after its "0."). */
  function GenerateSessionId(now: nat, random36: string): (r: string)
    ensures StartsWith(r, "session_")
    ensures |r| > 9
  {
    var r := "session_" + ToRadix(now, 10) + "_" + JsSubstring(random36, 2, 15);
    assert r[..8] == "session_";
    r
  }

  /** Session ids generated at different clock readings differ, whatever the random draws. */
  lemma SessionIdDeterminesClock(now1: nat, random1: string, now2: nat, random2: string)
    requires GenerateSessionId(now1, random1) == GenerateSessionId(now2, random2)
    ensures now1 == now2
  {
    var t1, t2 := ToRadix(now1, 10), ToRadix(now2, 10);
    assert '_' !in t1 by {
      forall i | 0 <= i < |t1| ensures t1[i] != '_' {
        assert IsAlnum(t1[i]);
      }
    }
    assert '_' !in t2 by {
      forall i | 0 <= i < |t2| ensures t2[i] != '_' {
        assert IsAlnum(t2[i]);
      }
    }
    var x1, x2 := JsSubstring(random1, 2, 15), JsSubstring(random2, 2, 15);
    assert "session_" + t1 + "_" + x1 == "session_" + t1 + ['_'] + x1;
    assert "session_" + t2 + "_" + x2 == "session_" + t2 + ['_'] + x2;
    SeparatedPartsEqual("session_", t1, x1, t2, x2, '_');
    RadixRoundTrip(now1, 10);
    RadixRoundTrip(now2, 10);
  }

  /** The guest session of a request: its `x-session-id` header when that is non-empty,
      otherwise a generated id. */
  function GuestSession(sessionHeader: Option<string>, now: nat, random36: string): (r: string)
    ensures r != ""
    ensures sessionHeader.Some? && sessionHeader.value != "" ==> r == sessionHeader.value
    ensures sessionHeader.None? || sessionHeader.value == "" ==> r == GenerateSessionId(now, random36)
  {
    if sessionHeader.Some? && sessionHeader.value != "" then sessionHeader.value
    else GenerateSessionId(now, random36)
  }

  /** The request as the middleware sees it: the two headers it reads and the two fields it sets. */
  class Request {
    const authorization: Option<string>
    const sessionHeader: Option<string>
    var userId: Option<UserId>
    var sessionId: Option<string>

    /** A request as it arrives: neither identity field is set. */
    constructor(authorization: Option<string>, sessionHeader: Option<string>)
      ensures this.authorization == authorization && this.sessionHeader == sessionHeader
      ensures userId.None? && sessionId.None?
    {
      this.authorization := authorization;
      this.sessionHeader := sessionHeader;
      userId := None;
      sessionId := None;
    }
  }

  /** authMiddleware: a Bearer token that verifies sets the user id; a missing header, another
      scheme, or a token that fails verification sets the guest session instead. The request
      always goes on. `verify` is the token check (None where it throws). */
  method AuthMiddleware(req: Request, verify: string -> Option<UserId>, now: nat, random36: string) returns (r: Continuation)
    modifies req
    ensures r == Next
    ensures var token := BearerToken(req.authorization);
      if token.Some? && verify(token.value).Some? then
        req.userId == verify(token.value) && req.sessionId == old(req.sessionId)
      else
        req.sessionId == Some(GuestSession(req.sessionHeader, now, random36)) && req.userId == old(req.userId)
    ensures old(req.userId).None? && old(req.sessionId).None? ==> (req.userId.Some? <==> req.sessionId.None?)
    ensures old(req.userId).None? ==> Carts.HasIdentity(req.userId, req.sessionId)
  {
    var token := BearerToken(req.authorization);
    if token.None? {
      req.sessionId := Some(GuestSession(req.sessionHeader, now, random36));
      return Next;
    }
    var userId := verify(token.value);
    if userId.None? {
      req.sessionId := Some(GuestSession(req.sessionHeader, now, random36));
      return Next;
    }
    req.userId := userId;
    return Next;
  }

  /** requireAuth: without a Bearer header the request is answered 401 "Authentication
      required"; with a token that fails verification, 401 "Invalid or expired token";
      otherwise the user id is set and the request goes on. */
  method RequireAuth(req: Request, verify: string -> Option<UserId>) returns (r: Continuation)
    modifies req
    ensures req.sessionId == old(req.sessionId)
    ensures BearerToken(req.authorization).None? ==>
      r == Respond(401, AuthenticationRequired) && req.userId == old(req.userId)
    ensures BearerToken(req.authorization).Some? && verify(BearerToken(req.authorization).value).None? ==>
      r == Respond(401, InvalidToken) && req.userId == old(req.userId)
    ensures BearerToken(req.authorization).Some? && verify(BearerToken(req.authorization).value).Some? ==>
      r == Next && req.userId == verify(BearerToken(req.authorization).value)
    ensures r == Next ==> req.userId.Some?
  {
    var token := BearerToken(req.authorization);
    if token.None? {
      return Respond(401, AuthenticationRequired);
    }
    var userId := verify(token.value);
    if userId.None? {
      return Respond(401, InvalidToken);
    }
    req.userId := userId;
    return Next;
  }
}
