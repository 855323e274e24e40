/**
 * The admission decision of the gateway filter, as a total function of the
 * request headers, the session store and the parse oracle. The checks run in
 * a fixed order: Authorization header present, session still live in the
 * store, token valid. Only when all three pass are the identity headers set.
 */
module AdmissionFilter {
  import opened Wrappers
  import opened BearerScheme
  import opened JwtValidator

  const Authorization: string := "Authorization"
  const SessionHeader: string := "UUID"
  const AuthIdHeader: string := "AUTH-ID"
  const AuthRolesHeader: string := "AUTH-ROLES"
  /** The hash field whose presence marks a session that has not logged out. */
  const TempField: string := "temp"
  /** HttpStatus.UNAUTHORIZED */
  const Unauthorized: int := 401

  /** Request headers: each name with its list of values. */
  type Headers = map<string, seq<string>>

  /** The session store: each session id with the fields of its hash. */
  type Store = map<string, set<string>>

  /** Why a request is rejected. */
  datatype Reason = NoAuthorizationHeader | AlreadyLoggedOut | InvalidJwt

  /** A Java exception the filter does not catch: the request never reaches a 401 or the chain. */
  datatype Fault =
    | MissingSessionHeader       // no UUID header, or one without a value
    | MissingAuthorizationValue  // an Authorization header without a value
    | MissingRolesClaim          // a valid token without a `roles` claim

  datatype Outcome =
    | Reject(status: int, reason: Reason)
    | Forward(authId: string, authRoles: string)
    | Crash(fault: Fault)

  /** The error text the filter logs for each rejection. */
  function Message(reason: Reason): string
  {
    match reason
    case NoAuthorizationHeader => "No authorization header"
    case AlreadyLoggedOut => "Already logged out"
    case InvalidJwt => "JWT token is not valid"
  }

  /** `getHeaders().get(name).get(0)`: None where Java throws (no header, or an empty value list). */
  function FirstValue(headers: Headers, name: string): Option<string>
  {
    if name in headers && headers[name] != [] then Some(headers[name][0]) else None
  }

  /** The store holds a `temp` field under the session id (Redis answers null otherwise). */
  predicate Live(store: Store, session: string)
  {
    session in store && TempField in store[session]
  }

  /** The token: the first Authorization value with every `Bearer ` removed. */
  function Token(headers: Headers): Option<string>
  {
    match FirstValue(headers, Authorization)
    case None => None
    case Some(authorization) => Some(Strip(authorization))
  }

  /** The request builder's `header(name, value)`, twice: each puts a one-value list, replacing what was there. */
  function Inject(headers: Headers, authId: string, authRoles: string): (r: Headers)
    ensures r.Keys == headers.Keys + {AuthIdHeader, AuthRolesHeader}
    ensures r[AuthIdHeader] == [authId] && r[AuthRolesHeader] == [authRoles]
    ensures forall name :: name in headers && name != AuthIdHeader && name != AuthRolesHeader ==>
              r[name] == headers[name]
  {
    headers[AuthIdHeader := [authId]][AuthRolesHeader := [authRoles]]
  }

  /** The outcome of one request through the filter. */
  function Decide(headers: Headers, store: Store, secret: string, parse: Parser): (o: Outcome)
    ensures o.Reject? ==> o.status == Unauthorized
    ensures o.Forward? ==>
              Token(headers).Some?
              && parse(GetSecretKey(secret), Token(headers).value) == Some(Claims(Some(o.authId), Some(o.authRoles)))
              && o.authId != ""
  {
    if Authorization !in headers then Reject(Unauthorized, NoAuthorizationHeader)
    else
      match FirstValue(headers, SessionHeader)
      case None => Crash(MissingSessionHeader)
      case Some(uuid) =>
        if !Live(store, uuid) then Reject(Unauthorized, AlreadyLoggedOut)
        else
          match FirstValue(headers, Authorization)
          case None => Crash(MissingAuthorizationValue)
          case Some(authorization) =>
            var jwt := Strip(authorization);
            if !Accepts(parse(GetSecretKey(secret), jwt)) then Reject(Unauthorized, InvalidJwt)
            else
              var loginId := ExtractLoginId(secret, jwt, parse).value.value;
              match ExtractRoles(secret, jwt, parse)
              case Threw => Crash(MissingRolesClaim)
              case Returned(roles) => Forward(loginId, roles)
  }

  /** First check: without an Authorization header the request is rejected and nothing else is consulted. */
  lemma NoAuthorizationHeaderFirst(headers: Headers, store: Store, secret: string, parse: Parser,
                                   otherStore: Store, otherSecret: string, otherParse: Parser)
    requires Authorization !in headers
    ensures Decide(headers, store, secret, parse) == Reject(Unauthorized, NoAuthorizationHeader)
    ensures Decide(headers, otherStore, otherSecret, otherParse) == Decide(headers, store, secret, parse)
  {
  }

  /**
   * Second check: a session without a `temp` field is rejected whatever the
   * token is; neither the Authorization value nor the oracle is consulted.
   */
  lemma LoggedOutSecond(headers: Headers, store: Store, secret: string, parse: Parser,
                        otherAuthorization: seq<string>, otherSecret: string, otherParse: Parser)
    requires Authorization in headers
    requires FirstValue(headers, SessionHeader).Some? && !Live(store, FirstValue(headers, SessionHeader).value)
    ensures Decide(headers, store, secret, parse) == Reject(Unauthorized, AlreadyLoggedOut)
    ensures Decide(headers[Authorization := otherAuthorization], store, otherSecret, otherParse)
            == Decide(headers, store, secret, parse)
  {
  }

  /** Third check: with a live session, a token the validator refuses is rejected. */
  lemma InvalidTokenThird(headers: Headers, store: Store, secret: string, parse: Parser)
    requires Authorization in headers
    requires FirstValue(headers, SessionHeader).Some? && Live(store, FirstValue(headers, SessionHeader).value)
    requires Token(headers).Some? && !Accepts(parse(GetSecretKey(secret), Token(headers).value))
    ensures Decide(headers, store, secret, parse) == Reject(Unauthorized, InvalidJwt)
  {
  }

  /** A request is forwarded exactly when all three checks pass and the token carries a `roles` claim. */
  lemma ForwardIff(headers: Headers, store: Store, secret: string, parse: Parser)
    ensures Decide(headers, store, secret, parse).Forward? <==>
              Authorization in headers
              && FirstValue(headers, SessionHeader).Some?
              && Live(store, FirstValue(headers, SessionHeader).value)
              && Token(headers).Some?
              && Accepts(parse(GetSecretKey(secret), Token(headers).value))
              && parse(GetSecretKey(secret), Token(headers).value).value.roles.Some?
  {
  }

  /** The forwarded identity is the subject the validator accepted and the string form of `roles`. */
  lemma ForwardedClaims(headers: Headers, store: Store, secret: string, parse: Parser)
    requires Decide(headers, store, secret, parse).Forward?
    ensures var o := Decide(headers, store, secret, parse);
            var jwt := Token(headers).value;
            ExtractLoginId(secret, jwt, parse) == Returned(Some(o.authId))
            && ExtractRoles(secret, jwt, parse) == Returned(o.authRoles)
  {
  }

  /** The uncaught exceptions, and when each happens. */
  lemma CrashIff(headers: Headers, store: Store, secret: string, parse: Parser)
    ensures Decide(headers, store, secret, parse) == Crash(MissingSessionHeader) <==>
              Authorization in headers && FirstValue(headers, SessionHeader).None?
    ensures Decide(headers, store, secret, parse) == Crash(MissingAuthorizationValue) <==>
              Authorization in headers && FirstValue(headers, SessionHeader).Some?
              && Live(store, FirstValue(headers, SessionHeader).value)
              && headers[Authorization] == []
    ensures Decide(headers, store, secret, parse) == Crash(MissingRolesClaim) <==>
              Authorization in headers && FirstValue(headers, SessionHeader).Some?
              && Live(store, FirstValue(headers, SessionHeader).value)
              && Token(headers).Some?
              && Accepts(parse(GetSecretKey(secret), Token(headers).value))
              && parse(GetSecretKey(secret), Token(headers).value).value.roles.None?
  {
  }

  /**
   * The filter reads but never writes the store, and the headers it sets are
   * not ones it reads: the forwarded request, decided again, gets the same outcome.
   */
  lemma ForwardedRequestDecidesAlike(headers: Headers, store: Store, secret: string, parse: Parser)
    requires Decide(headers, store, secret, parse).Forward?
    ensures var o := Decide(headers, store, secret, parse);
            Decide(Inject(headers, o.authId, o.authRoles), store, secret, parse) == o
  {
  }

  /**
   * The scheme is optional: any value is decided exactly as `Bearer ` plus
   * that value, because the replace removes the text wherever it is.
   */
  lemma SchemeOptional(headers: Headers, store: Store, secret: string, parse: Parser, token: string)
    ensures Decide(headers[Authorization := [token]], store, secret, parse)
            == Decide(headers[Authorization := [Scheme + token]], store, secret, parse)
  {
    StripSchemePrefix(token);
  }

  /** The sample request of a signed-in user: forwarded with that user's identity. */
  lemma SignedInUserForwarded(secret: string, token: string, parse: Parser)
    requires Occurrences(token) == 0
    requires parse(GetSecretKey(secret), token) == Some(Claims(Some("alice"), Some("ROLE_USER")))
    ensures Decide(map[Authorization := [Scheme + token], SessionHeader := ["sess-1"]],
                   map["sess-1" := {TempField}], secret, parse)
            == Forward("alice", "ROLE_USER")
  {
    StripBearerToken(token);
    var headers := map[Authorization := [Scheme + token], SessionHeader := ["sess-1"]];
    assert FirstValue(headers, SessionHeader) == Some("sess-1");
    assert Token(headers) == Some(token);
  }

  /** The same request after logout: rejected, whatever the token. */
  lemma LoggedOutUserRejected(secret: string, token: string, parse: Parser)
    ensures Decide(map[Authorization := [Scheme + token], SessionHeader := ["sess-1"]],
                   map[], secret, parse)
            == Reject(Unauthorized, AlreadyLoggedOut)
  {
  }

  /** An expired token (the library throws on parse) with a live session: rejected as invalid. */
  lemma ExpiredTokenRejected(secret: string, token: string, parse: Parser)
    requires Occurrences(token) == 0
    requires parse(GetSecretKey(secret), token) == None
    ensures Decide(map[Authorization := [Scheme + token], SessionHeader := ["sess-1"]],
                   map["sess-1" := {TempField}], secret, parse)
            == Reject(Unauthorized, InvalidJwt)
  {
    StripBearerToken(token);
    var headers := map[Authorization := [Scheme + token], SessionHeader := ["sess-1"]];
    assert FirstValue(headers, SessionHeader) == Some("sess-1");
    assert Token(headers) == Some(token);
  }
}
