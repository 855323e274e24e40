/**
 * Token validation. The token is a compact JWS (RFC 7515) carrying JWT claims
 * (RFC 7519), signed with HMAC-SHA (section 3.2 of RFC 7518). Signature
 * checking, base64url decoding and the expiry check are done by the JWT
 * library; here they are a parse oracle that either yields the claim set or
 * fails (the library throws).
 */
module JwtValidator {
  import opened Wrappers

  /**
   * What the filter reads of a parsed claim set: the subject (null when the
   * token has none) and the string form of the `roles` claim (null when the
   * claim is absent).
   */
  datatype Claims = Claims(subject: Option<string>, roles: Option<string>)

  /** The HMAC-SHA signing key built from the configured secret. */
  datatype Key = HmacShaKey(secret: string)

  /** Signature, structure and expiry check under a key: the claims, or None when the library throws. */
  type Parser = (Key, string) -> Option<Claims>

  /** The result of a Java call that either returns a value or throws. */
  datatype Thrown<+T> = Returned(value: T) | Threw

  /** The one key every parse call uses; byte encoding and key-length checks are the library's. */
  function GetSecretKey(secret: string): Key
  {
    HmacShaKey(secret)
  }

  /** A parse result the filter accepts: parsing succeeded and the subject is non-null and non-empty. */
  predicate Accepts(parsed: Option<Claims>)
  {
    parsed.Some? && parsed.value.subject.Some? && parsed.value.subject.value != ""
  }

  /**
   * The validity check, step by step: the flag starts true, a parse failure
   * clears it, and the null-or-empty subject check runs afterwards in either case.
   */
  method IsJwtValid(secret: string, jwt: string, parse: Parser) returns (valid: bool)
    ensures valid == Accepts(parse(GetSecretKey(secret), jwt))
  {
    valid := true;
    var subject: Option<string> := None;
    var parsed := parse(GetSecretKey(secret), jwt);
    if parsed.None? {
      valid := false;
    } else {
      subject := parsed.value.subject;
    }
    if subject.None? || subject.value == "" {
      valid := false;
    }
  }

  /** The subject claim; throws when parsing fails. */
  function ExtractLoginId(secret: string, token: string, parse: Parser): (r: Thrown<Option<string>>)
    ensures r.Returned? <==> parse(GetSecretKey(secret), token).Some?
    ensures Accepts(parse(GetSecretKey(secret), token)) ==>
              r.Returned? && r.value == parse(GetSecretKey(secret), token).value.subject
              && r.value.Some? && r.value.value != ""
  {
    match parse(GetSecretKey(secret), token)
    case None => Threw
    case Some(claims) => Returned(claims.subject)
  }

  /** The string form of the `roles` claim; throws when parsing fails or the claim is absent. */
  function ExtractRoles(secret: string, token: string, parse: Parser): Thrown<string>
  {
    match parse(GetSecretKey(secret), token)
    case None => Threw
    case Some(claims) =>
      match claims.roles
      case None => Threw
      case Some(roles) => Returned(roles)
  }
}
