# Admission filter of the YesAladin API gateway, in Dafny

The gateway runs every protected request through `AuthorizationHeaderFilter`.
For each request the filter either rejects it (the response gets status 401
and is completed) or forwards it: it sets `AUTH-ID` and `AUTH-ROLES` on the
request and calls the next stage of the chain once. Three checks run in a fixed
order. First, the request must have an `Authorization` header. Second, the
session store (Redis) must hold a `temp` field in the hash named by the `UUID`
header. Third, the token must be valid. The token is the `Authorization` value
with every `Bearer ` removed. It must parse as a signed, unexpired JWS and have a
non-empty subject.

The model has five modules:

- `Wrappers`: `Option`, for the values Java can give as null.
- `BearerScheme`: the replace-all of `Bearer ` that extracts the token (`Strip`).
  It also holds an all-positions occurrence count (`Occurrences`), the partner
  definition the lemmas relate `Strip` to.
- `JwtValidator`: the parse oracle that stands in for the JWT library,
  `IsJwtValid` as the step-by-step method of the source, and the two claim
  extractors.
- `AdmissionFilter`: the decision as a pure function `Decide` over the header
  map, the store (session id to the set of its hash fields), the configured
  secret and the oracle, with lemmas on check order, rejection, forwarding,
  the uncaught exceptions and idempotence.
- `GatewayExchange`: the filter as it runs on one exchange. `Exchange.OnError`
  sets the status and completes the response. `Exchange.Filter` is the
  early-return lambda, proved to reach the outcome `Decide` gives and to change
  only what that outcome allows.

Some requests make the source throw an exception it does not catch. The model
gives these an explicit `Crash` outcome and does not invent a 401 for them:

- no `UUID` header, or one with no value;
- an `Authorization` header with no value;
- a valid token with no `roles` claim (`get("roles").toString()` on null).

Two behaviours of the code are worth stating plainly:

- The code does not parse a leading scheme as section 2.1 of RFC 6750
  describes. It does a case-sensitive replace of every `Bearer ` anywhere in
  the value. So a bare token is decided exactly like `Bearer <token>`
  (`SchemeOptional`), and a lower-case `bearer ` is not removed
  (`StripIsCaseSensitive`). The result may still contain `Bearer `
  (`StripJoinsText`).
- A request without a session header is not rejected with a 401. The code
  throws, so here it is `Crash(MissingSessionHeader)`.

Some definitions carry no contract of their own, because they are read by
the members above:

- `AdmissionFilter.FirstValue` is `getHeaders().get(name).get(0)` (lines 83
  and 92). It gives the first value, or None where Java throws: the header is
  absent, or it has no value.
- `JwtValidator.ExtractRoles` is `get("roles").toString()` on the parsed claims
  (lines 174-182). It throws when parsing fails or the claim is absent.
  `ForwardedClaims` and `CrashIff` state what the decision takes from it.
- `AdmissionFilter.Live` is the null check on `opsForHash().get(uuid, "temp")`
  at line 86. The session counts as live when the store holds a hash under
  the id and that hash has a `temp` field. `Exchange.Filter` reads the
  `SessionStore` through the same predicate.
- `AdmissionFilter.Token` is the extraction at lines 92-93. It takes the first
  `Authorization` value and applies `Strip` to it.

## Model

| member | source | states |
|---|---|---|
| BearerScheme.Strip | src/main/java/shop/yesaladin/gateway/filter/AuthorizationHeaderFilter.java:93 | the token is never longer than the header value it comes from |
| BearerScheme.StripLength | src/main/java/shop/yesaladin/gateway/filter/AuthorizationHeaderFilter.java:93 | every occurrence of `Bearer ` is removed: the token is the value's length minus 7 per occurrence, counting occurrences at every position |
| BearerScheme.StripNoOccurrence | src/main/java/shop/yesaladin/gateway/filter/AuthorizationHeaderFilter.java:93 | a value holding no `Bearer ` is returned unchanged |
| BearerScheme.StripIdentityIff | src/main/java/shop/yesaladin/gateway/filter/AuthorizationHeaderFilter.java:93 | the value is returned unchanged if and only if it holds no `Bearer ` |
| BearerScheme.StripSchemePrefix | src/main/java/shop/yesaladin/gateway/filter/AuthorizationHeaderFilter.java:93 | a leading `Bearer ` is removed and the scan continues on the rest |
| BearerScheme.StripBearerToken | src/main/java/shop/yesaladin/gateway/filter/AuthorizationHeaderFilter.java:93 | `Bearer ` followed by a token holding no `Bearer ` yields that token |
| BearerScheme.StripSplit | src/main/java/shop/yesaladin/gateway/filter/AuthorizationHeaderFilter.java:93 | text before the first occurrence is kept as it is: the scan runs left to right |
| BearerScheme.StripIsCaseSensitive | src/main/java/shop/yesaladin/gateway/filter/AuthorizationHeaderFilter.java:93 | a lower-case `bearer ` scheme is not removed |
| BearerScheme.StripJoinsText | src/main/java/shop/yesaladin/gateway/filter/AuthorizationHeaderFilter.java:93 | removal can join text into a new `Bearer `: `BearBearer er ` yields `Bearer ` |
| BearerScheme.StripNotIdempotent | src/main/java/shop/yesaladin/gateway/filter/AuthorizationHeaderFilter.java:93 | so a second replace would change the token again: the replace is not idempotent |
| JwtValidator.IsJwtValid | src/main/java/shop/yesaladin/gateway/filter/AuthorizationHeaderFilter.java:141-163 | true exactly when parsing succeeds and the subject is non-null and non-empty; a parse failure gives false even though the subject check still runs |
| JwtValidator.ExtractLoginId | src/main/java/shop/yesaladin/gateway/filter/AuthorizationHeaderFilter.java:165-172 | throws exactly when parsing fails; for an accepted token it returns the same non-empty subject the validity check accepted |
| AdmissionFilter.Inject | src/main/java/shop/yesaladin/gateway/filter/AuthorizationHeaderFilter.java:103-107 | `AUTH-ID` and `AUTH-ROLES` each hold exactly the one given value; a client-sent value is replaced; no other header changes |
| AdmissionFilter.Decide | src/main/java/shop/yesaladin/gateway/filter/AuthorizationHeaderFilter.java:76-110 | every rejection has status 401; a forward carries the subject and roles that the oracle gave for the extracted token, and the subject is non-empty |
| AdmissionFilter.NoAuthorizationHeaderFirst | src/main/java/shop/yesaladin/gateway/filter/AuthorizationHeaderFilter.java:79-81 | without an `Authorization` header: rejected (401, no authorization header), whatever the store, secret and oracle are |
| AdmissionFilter.LoggedOutSecond | src/main/java/shop/yesaladin/gateway/filter/AuthorizationHeaderFilter.java:83-90 | with `Authorization` present and no `temp` field for the `UUID` value: rejected (401, already logged out), whatever the token, secret and oracle are |
| AdmissionFilter.InvalidTokenThird | src/main/java/shop/yesaladin/gateway/filter/AuthorizationHeaderFilter.java:92-98 | with a live session and a token the validator refuses: rejected (401, token not valid) |
| AdmissionFilter.ForwardIff | src/main/java/shop/yesaladin/gateway/filter/AuthorizationHeaderFilter.java:76-110 | forwarded if and only if all three checks pass and the token has a `roles` claim |
| AdmissionFilter.ForwardedClaims | src/main/java/shop/yesaladin/gateway/filter/AuthorizationHeaderFilter.java:100-109 | the forwarded `AUTH-ID` is what `extractLoginId` returns and the forwarded `AUTH-ROLES` is what `extractRoles` returns for the extracted token |
| AdmissionFilter.CrashIff | src/main/java/shop/yesaladin/gateway/filter/AuthorizationHeaderFilter.java:83-106 | each uncaught exception happens exactly when: no usable `UUID` value; or a live session with an empty `Authorization` value list; or a valid token without `roles` |
| AdmissionFilter.ForwardedRequestDecidesAlike | src/main/java/shop/yesaladin/gateway/filter/AuthorizationHeaderFilter.java:76-110 | deciding the forwarded request again, identity headers included, gives the same outcome |
| AdmissionFilter.SchemeOptional | src/main/java/shop/yesaladin/gateway/filter/AuthorizationHeaderFilter.java:92-93 | any `Authorization` value and `Bearer ` plus that value are decided alike, whether or not the value itself contains `Bearer ` |
| AdmissionFilter.SignedInUserForwarded | src/main/java/shop/yesaladin/gateway/filter/AuthorizationHeaderFilter.java:76-110 | a token for `alice` with roles `ROLE_USER` and a live session `sess-1`: forwarded with `AUTH-ID` alice and `AUTH-ROLES` ROLE_USER |
| AdmissionFilter.LoggedOutUserRejected | src/main/java/shop/yesaladin/gateway/filter/AuthorizationHeaderFilter.java:83-90 | the same request with `sess-1` absent from the store: rejected (401, already logged out) |
| AdmissionFilter.ExpiredTokenRejected | src/main/java/shop/yesaladin/gateway/filter/AuthorizationHeaderFilter.java:92-98 | a token the library refuses (expired) with a live session: rejected (401, token not valid) |
| GatewayExchange.Exchange.OnError | src/main/java/shop/yesaladin/gateway/filter/AuthorizationHeaderFilter.java:124-130 | the response status is set to the given status and the response is completed; the request is untouched |
| GatewayExchange.Exchange.Filter | src/main/java/shop/yesaladin/gateway/filter/AuthorizationHeaderFilter.java:76-110 | the outcome is `Decide` on the headers as they arrived. A rejection sets 401, completes the response, leaves the headers alone and skips the chain. A forward sets only the two identity headers and calls the chain once. An exception changes nothing. The store is not written |
| GatewayExchange.FilterTwice | src/main/java/shop/yesaladin/gateway/filter/AuthorizationHeaderFilter.java:76-110 | two requests with the same headers against the same store get the same outcome |

## Left out

- Signature verification, base64url decoding, claim parsing and the expiry check are done by the JWT library (`parseClaimsJws`), a foreign call. They are the parse oracle `Parser`. The clock is folded into it.
- Each request calls the library five times (the validity check, then each extractor twice). The model uses one oracle for all five calls. A token that expires between two of these calls would make an extractor throw; the model does not capture that.
- GetSecretKey: the UTF-8 encoding of the secret and `Keys.hmacShaKeyFor` (including its refusal of short keys) are foreign calls. The key is an opaque value built from the secret.
- The Redis lookup is external I/O. It is a read of an immutable map (`SessionStore.hashes`). Timeouts and connection failures have no code path in the source.
- Spring plumbing (`Mono`, `ServerWebExchange`, `GatewayFilterChain`, the filter factory and its `Config`) is out. Completion of the response is a flag, and the chain call is a counter.
- Exchange.Filter: line 107 builds a new request and discards it. The model assumes, as Spring's header builder does, that the headers are written through to the exchange's request.
- Logging (lines 84, 87, 94, 100-101, 128) is left out. It is an observability side effect only.
- Header names are compared exactly. HTTP's case-insensitive header names belong to the runtime.
- Concurrency and cancellation belong to the runtime. A decision here is one uninterrupted evaluation.
