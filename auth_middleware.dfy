/** The `authenticateJWT` middleware: read a `Bearer` token from the `Authorization`
    header, verify it, and either answer 401 or attach the claims to the request and pass
    it on. The request, response and `next` are one `Exchange` object. */
module AuthMiddleware {
  import opened JsText
  import opened Outcomes
  import opened JwtConfig

  const BearerPrefix := "Bearer "
  const MissingTokenMessage := "Missing or invalid token"

  /** `authHeader.split(' ')[1]` for a header starting with `'Bearer '`: the text between
      the first and the second space. */
  function BearerToken(header: string): (token: string)
    requires IsPrefix(BearerPrefix, header)
    ensures token == TakeUntil(header[|BearerPrefix|..], ' ')
  {
    var parts := Split(header, ' ');
    assert TakeUntil(header, ' ') == header[..6] by {
      assert header[6] == ' ';
      TakeUntilStopsAtSeparator(header, 6, ' ');
    }
    assert parts == [header[..6]] + Split(header[7..], ' ');
    parts[1]
  }

  lemma {:induction false} TakeUntilStopsAtSeparator(s: string, k: nat, sep: char)
    requires k < |s| && s[k] == sep && Excludes(s[..k], sep)
    ensures TakeUntil(s, sep) == s[..k]
  {
    if k > 0 {
      assert s[1..][..k - 1] == s[1..k];
      TakeUntilStopsAtSeparator(s[1..], k - 1, sep);
    }
  }

  /** Extra words after the token are ignored: `'Bearer ' + t + ' ' + rest` gives `t`
      for every token `t` without a space, whatever `rest` is. */
  lemma BearerTokenIgnoresTrailingWords(t: string, rest: string)
    requires Excludes(t, ' ')
    ensures BearerToken(BearerPrefix + t + " " + rest) == t
  {
    var header := BearerPrefix + t + " " + rest;
    var after := header[|BearerPrefix|..];
    assert after == t + " " + rest;
    assert after[..|t|] == t;
    TakeUntilStopsAtSeparator(after, |t|, ' ');
  }

  /** The middleware's decision: refuse with a message, or accept with the claims. */
  datatype Decision = Deny(message: string) | Allow(payload: Payload)

  /** The decision for an `Authorization` header (`None` when absent). */
  function Decide(header: Option<string>, secret: Option<string>, verify: (string, string) -> VerifyOutcome)
    : (d: Decision)
    ensures header.None? || !IsPrefix(BearerPrefix, header.value) ==> d == Deny(MissingTokenMessage)
    ensures header.Some? && IsPrefix(BearerPrefix, header.value) ==>
      match VerifyJwt(secret, BearerToken(header.value), verify)
      case JwtOk(p) => d == Allow(p)
      case JwtError(m, _) => d == Deny(m)
  {
    if header.None? || !IsPrefix(BearerPrefix, header.value) then Deny(MissingTokenMessage)
    else
      match VerifyJwt(secret, BearerToken(header.value), verify)
      case JwtOk(p) => Allow(p)
      case JwtError(m, _) => Deny(m)
  }

  /** With a secret set, `'Bearer '` followed by nothing, or by a second space, carries an
      empty token and is refused without consulting the library. */
  lemma EmptyTokenRefused(header: string, secret: Option<string>, verify: (string, string) -> VerifyOutcome)
    requires !SecretMissing(secret)
    requires header == BearerPrefix || IsPrefix(BearerPrefix + " ", header)
    ensures Decide(Some(header), secret, verify) == Deny(TokenMissingMessage)
  {
    assert IsPrefix(BearerPrefix, header);
    assert BearerToken(header) == "";
  }

  /** The prefix test is case-sensitive and needs the space: `'bearer x'` and `'Bearerx'`
      are refused before anything is verified. */
  lemma PrefixIsExact(secret: Option<string>, verify: (string, string) -> VerifyOutcome)
    ensures Decide(Some("bearer x"), secret, verify) == Deny(MissingTokenMessage)
    ensures Decide(Some("Bearerx"), secret, verify) == Deny(MissingTokenMessage)
  {
    assert "bearer x"[..7] != BearerPrefix by { assert "bearer x"[0] != BearerPrefix[0]; }
    assert "Bearerx"[..7] != BearerPrefix by { assert "Bearerx"[6] != BearerPrefix[6]; }
  }

  /** An answer written with `res.status(status).json({ error })`. */
  datatype Reply = Reply(status: int, error: string)

  /** The parts of the request and response the middleware touches. */
  class Exchange {
    /** `req.user` */
    var user: Option<Payload>
    /** what was written to `res`, if anything */
    var response: Option<Reply>
    /** how many times `next()` was called */
    var nextCalls: nat

    constructor ()
      ensures user.None? && response.None? && nextCalls == 0
    {
      user, response, nextCalls := None, None, 0;
    }
  }

  /** `authenticateJWT(req, res, next)`: exactly one of "answer 401" and "set `req.user`
      and call `next` once" happens. */
  method AuthenticateJWT(ex: Exchange, header: Option<string>, secret: Option<string>,
                         verify: (string, string) -> VerifyOutcome)
    modifies ex
    ensures match Decide(header, secret, verify)
      case Deny(m) =>
        ex.response == Some(Reply(401, m)) && ex.user == old(ex.user) && ex.nextCalls == old(ex.nextCalls)
      case Allow(p) =>
        ex.user == Some(p) && ex.nextCalls == old(ex.nextCalls) + 1 && ex.response == old(ex.response)
  {
    if header.None? || !IsPrefix(BearerPrefix, header.value) {
      ex.response := Some(Reply(401, MissingTokenMessage));
      return;
    }
    var token := BearerToken(header.value);
    var payload := VerifyJwt(secret, token, verify);
    if payload.JwtError? {
      ex.response := Some(Reply(401, payload.message));
      return;
    }
    ex.user := Some(payload.value);
    ex.nextCalls := ex.nextCalls + 1;
  }
}
