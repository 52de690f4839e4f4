/** Signing and verifying login tokens. `jsonwebtoken`'s `sign` and `verify` are inputs,
    as is the `JWT_SECRET` environment variable; both operations turn every failure into
    an `{ error: true, message, details? }` record and never throw. */
module JwtConfig {
  import opened Outcomes

  /** `AuthJwtPayload`: the claims the server puts in a token. */
  datatype Payload = Payload(userId: int, email: string)

  /** `ExpiresInValue`: a number of seconds or a span such as `'2h'`. */
  datatype ExpiresIn = Seconds(n: int) | Span(text: string)

  const DefaultExpiresIn := Span("2h")

  /** A value, or the `JwtError` record. */
  datatype JwtResult<T> = JwtOk(value: T) | JwtError(message: string, details: Option<string>)

  const NoSecretMessage := "JWT_SECRET is not set in environment variables."
  const SignFailedMessage := "Failed to sign JWT."
  const TokenMissingMessage := "Token not provided or invalid."
  const UnknownErrorMessage := "Failed to verify JWT. Unknown error."
  const ExpiredMessage := "Failed to verify JWT. Token expired."
  const InvalidTokenMessage := "Failed to verify JWT. Invalid token."

  /** `!JWT_SECRET`: the variable is unset or empty. */
  predicate SecretMissing(secret: Option<string>) {
    secret.None? || secret.value == ""
  }

  /** What `jwt.sign` did: returned a token or threw. */
  datatype SignOutcome = Token(token: string) | SignThrew(err: Thrown)

  /** What `jwt.verify` threw. `TokenExpiredError` and `NotBeforeError` are subclasses of
      `JsonWebTokenError`; all three are `Error`s. */
  datatype VerifyFailure =
    | TokenExpiredError(message: string)
    | NotBeforeError(message: string)
    | JsonWebTokenError(message: string)
    | OtherThrown(err: Thrown)
  {
    predicate IsJsonWebTokenError() { !OtherThrown? }

    /** `err instanceof Error ? err.message : err` */
    function Details(): string {
      if OtherThrown? then Outcomes.Details(err) else message
    }
  }

  /** What `jwt.verify` did: returned the decoded claims or threw. */
  datatype VerifyOutcome = Decoded(payload: Payload) | VerifyThrew(failure: VerifyFailure)

  /** `signJwt(payload, expiresIn)`; an omitted `expiresIn` is `None`. The signer is
      consulted only when a secret is set. */
  function SignJwt(secret: Option<string>, payload: Payload, expiresIn: Option<ExpiresIn>,
                   sign: (Payload, string, ExpiresIn) -> SignOutcome): (r: JwtResult<string>)
    ensures SecretMissing(secret) ==> r == JwtError(NoSecretMessage, None)
    ensures !SecretMissing(secret) ==>
      match sign(payload, secret.value, expiresIn.GetOr(DefaultExpiresIn))
      case Token(t) => r == JwtOk(t)
      case SignThrew(e) => r == JwtError(SignFailedMessage, Some(Details(e)))
  {
    if SecretMissing(secret) then JwtError(NoSecretMessage, None)
    else
      match sign(payload, secret.value, expiresIn.GetOr(DefaultExpiresIn))
      case Token(t) => JwtOk(t)
      case SignThrew(e) => JwtError(SignFailedMessage, Some(Details(e)))
  }

  /** The message chosen for a verification failure: the expiry class is tested before
      the general token-error class, and anything else is "unknown". */
  function VerifyErrorMessage(f: VerifyFailure): (m: string)
    ensures f.TokenExpiredError? <==> m == ExpiredMessage
    ensures f.IsJsonWebTokenError() && !f.TokenExpiredError? <==> m == InvalidTokenMessage
    ensures !f.IsJsonWebTokenError() <==> m == UnknownErrorMessage
  {
    if f.TokenExpiredError? then ExpiredMessage
    else if f.IsJsonWebTokenError() then InvalidTokenMessage
    else UnknownErrorMessage
  }

  /** `verifyJwt(token)`: a missing secret is reported first, then an empty token, and
      only then is the library consulted. */
  function VerifyJwt(secret: Option<string>, token: string, verify: (string, string) -> VerifyOutcome)
    : (r: JwtResult<Payload>)
    ensures SecretMissing(secret) ==> r == JwtError(NoSecretMessage, None)
    ensures !SecretMissing(secret) && token == "" ==> r == JwtError(TokenMissingMessage, None)
    ensures !SecretMissing(secret) && token != "" ==>
      match verify(token, secret.value)
      case Decoded(p) => r == JwtOk(p)
      case VerifyThrew(f) => r == JwtError(VerifyErrorMessage(f), Some(f.Details()))
  {
    if SecretMissing(secret) then JwtError(NoSecretMessage, None)
    else if token == "" then JwtError(TokenMissingMessage, None)
    else
      match verify(token, secret.value)
      case Decoded(p) => JwtOk(p)
      case VerifyThrew(f) => JwtError(VerifyErrorMessage(f), Some(f.Details()))
  }

  /** Without a secret neither the token nor the library matters. */
  lemma NoSecretIgnoresEverythingElse(secret: Option<string>, token: string, token': string,
                                      verify: (string, string) -> VerifyOutcome,
                                      verify': (string, string) -> VerifyOutcome)
    requires SecretMissing(secret)
    ensures VerifyJwt(secret, token, verify) == VerifyJwt(secret, token', verify')
  {
  }

  /** With a secret set, an empty token is refused whatever the library would say. */
  lemma EmptyTokenNeverReachesLibrary(secret: Option<string>,
                                      verify: (string, string) -> VerifyOutcome,
                                      verify': (string, string) -> VerifyOutcome)
    requires !SecretMissing(secret)
    ensures VerifyJwt(secret, "", verify) == VerifyJwt(secret, "", verify') == JwtError(TokenMissingMessage, None)
  {
  }

  /** Signing without a secret never consults the signer. */
  lemma NoSecretNeverSigns(secret: Option<string>, payload: Payload, expiresIn: Option<ExpiresIn>,
                           sign: (Payload, string, ExpiresIn) -> SignOutcome,
                           sign': (Payload, string, ExpiresIn) -> SignOutcome)
    requires SecretMissing(secret)
    ensures SignJwt(secret, payload, expiresIn, sign) == SignJwt(secret, payload, expiresIn, sign')
  {
  }

  /** Omitting `expiresIn` is the same as passing `'2h'`. */
  lemma SignDefaultsToTwoHours(secret: Option<string>, payload: Payload,
                               sign: (Payload, string, ExpiresIn) -> SignOutcome)
    ensures SignJwt(secret, payload, None, sign) == SignJwt(secret, payload, Some(Span("2h")), sign)
  {
  }

  /** Every error record carries one of the six fixed messages; a library failure always
      carries details and a precondition failure never does. */
  lemma ErrorMessagesAreFixed(secret: Option<string>, token: string, verify: (string, string) -> VerifyOutcome)
    ensures var r := VerifyJwt(secret, token, verify);
      r.JwtError? ==>
        (r.message in {NoSecretMessage, TokenMissingMessage} <==> r.details.None?)
        && r.message in {NoSecretMessage, TokenMissingMessage, ExpiredMessage, InvalidTokenMessage, UnknownErrorMessage}
  {
  }
}
