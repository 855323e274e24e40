/**
 * The filter as it runs on one exchange: a sequence of early-return checks
 * that ends either by setting the response status and completing it, or by
 * setting the identity headers on the request and calling the chain once.
 */
module GatewayExchange {
  import opened Wrappers
  import opened BearerScheme
  import opened JwtValidator
  import opened AdmissionFilter

  /** The session store as the filter sees it: hashes it can read, never write. */
  class SessionStore {
    var hashes: Store

    constructor (hashes: Store)
      ensures this.hashes == hashes
    {
      this.hashes := hashes;
    }
  }

  /** The request/response pair the filter works on, and how often the chain has been called. */
  class Exchange {
    var requestHeaders: Headers
    /** The response status; None until one is set. */
    var status: Option<int>
    /** The response has been completed. */
    var complete: bool
    /** The number of times the next stage of the chain has been called with this exchange. */
    var chainCalls: nat

    constructor (headers: Headers)
      ensures requestHeaders == headers && status == None && !complete && chainCalls == 0
    {
      requestHeaders := headers;
      status := None;
      complete := false;
      chainCalls := 0;
    }

    /** Sets the status and completes the response; `err` is only logged. */
    method OnError(err: string, httpStatus: int)
      modifies this`status, this`complete
      ensures status == Some(httpStatus) && complete
    {
      status := Some(httpStatus);
      complete := true;
    }

    /**
     * One pass of the filter. The outcome is the one `Decide` gives for the
     * headers as they arrived; a rejection changes only the response, a
     * forward changes only the two identity headers and calls the chain once,
     * and an uncaught exception changes nothing.
     */
    method Filter(sessions: SessionStore, secret: string, parse: Parser) returns (o: Outcome)
      modifies this
      ensures o == Decide(old(requestHeaders), old(sessions.hashes), secret, parse)
      ensures sessions.hashes == old(sessions.hashes)
      ensures o.Reject? ==>
                status == Some(Unauthorized) && complete
                && requestHeaders == old(requestHeaders) && chainCalls == old(chainCalls)
      ensures o.Forward? ==>
                requestHeaders == Inject(old(requestHeaders), o.authId, o.authRoles)
                && chainCalls == old(chainCalls) + 1
                && status == old(status) && complete == old(complete)
      ensures o.Crash? ==>
                requestHeaders == old(requestHeaders) && chainCalls == old(chainCalls)
                && status == old(status) && complete == old(complete)
    {
      if Authorization !in requestHeaders {
        OnError(Message(NoAuthorizationHeader), Unauthorized);
        return Reject(Unauthorized, NoAuthorizationHeader);
      }

      var uuid := FirstValue(requestHeaders, SessionHeader);
      if uuid.None? {
        return Crash(MissingSessionHeader);
      }

      if !Live(sessions.hashes, uuid.value) {
        OnError(Message(AlreadyLoggedOut), Unauthorized);
        return Reject(Unauthorized, AlreadyLoggedOut);
      }

      var authorizationHeader := FirstValue(requestHeaders, Authorization);
      if authorizationHeader.None? {
        return Crash(MissingAuthorizationValue);
      }
      var jwt := Strip(authorizationHeader.value);

      var valid := IsJwtValid(secret, jwt, parse);
      if !valid {
        OnError(Message(InvalidJwt), Unauthorized);
        return Reject(Unauthorized, InvalidJwt);
      }

      var loginId := ExtractLoginId(secret, jwt, parse);
      var roles := ExtractRoles(secret, jwt, parse);
      if roles.Threw? {
        return Crash(MissingRolesClaim);
      }

      requestHeaders := Inject(requestHeaders, loginId.value.value, roles.value);
      chainCalls := chainCalls + 1;
      return Forward(loginId.value.value, roles.value);
    }
  }

  /**
   * Two requests with the same headers against the same store, one after the
   * other, get the same outcome: the first leaves the store as it was.
   */
  method FilterTwice(headers: Headers, sessions: SessionStore, secret: string, parse: Parser)
    returns (first: Outcome, second: Outcome)
    ensures first == second
    ensures first == Decide(headers, sessions.hashes, secret, parse)
  {
    var one := new Exchange(headers);
    first := one.Filter(sessions, secret, parse);
    var two := new Exchange(headers);
    second := two.Filter(sessions, secret, parse);
  }
}
