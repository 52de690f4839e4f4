/** The reset-code service: six-digit phone codes from three random bytes read through
    their hexadecimal spelling, the sixty-second per-phone rate limit on issuing them,
    and the e-mail verify-and-reset sequence. Database rows live in `OtpTables.Database`;
    the clock, the random bytes and bcrypt's hash and compare are inputs. */
module OtpService {
  import opened JsText
  import opened Outcomes
  import opened OtpTables
  import opened OtpUtils

  /** `OTP_RATE_LIMIT_SECONDS` in milliseconds. */
  const RateLimitMs := 60 * 1000

  const TooManyRequestsMessage := "Too many requests. Please wait."
  const ExpiredMessage := "OTP expired or not found."
  const IncorrectMessage := "Incorrect OTP."

  // ---------------------------------------------------------------- generateSecureOtp

  function HexChar(d: nat): char
    requires d < 16
  {
    if d < 10 then ('0' as int + d) as char else ('a' as int + d - 10) as char
  }

  predicate IsHexChar(c: char) {
    '0' <= c <= '9' || 'a' <= c <= 'f'
  }

  function HexValue(c: char): (d: nat)
    requires IsHexChar(c)
    ensures d < 16
  {
    if c <= '9' then c as int - '0' as int else c as int - 'a' as int + 10
  }

  /** `buffer.toString('hex')`: two lower-case hex digits per byte, most significant first. */
  function Hex(bytes: seq<Byte>): (s: string)
    ensures |s| == 2 * |bytes|
    ensures forall i | 0 <= i < |s| :: IsHexChar(s[i])
  {
    if bytes == [] then []
    else
      var b := bytes[|bytes| - 1];
      Hex(bytes[..|bytes| - 1]) + [HexChar(b / 16), HexChar(b % 16)]
  }

  /** `parseInt(s, 16)` on a string of hex digits. */
  function ParseHex(s: string): nat
    requires forall i | 0 <= i < |s| :: IsHexChar(s[i])
  {
    if s == [] then 0 else ParseHex(s[..|s| - 1]) * 16 + HexValue(s[|s| - 1])
  }

  /** Reading the hex spelling back gives the bytes' big-endian value. */
  lemma {:induction false} ParseHexOfHex(bytes: seq<Byte>)
    ensures ParseHex(Hex(bytes)) == BigEndian(bytes)
  {
    if bytes != [] {
      var init := bytes[..|bytes| - 1];
      var b := bytes[|bytes| - 1];
      var s := Hex(bytes);
      assert s[..|s| - 1] == Hex(init) + [HexChar(b / 16)];
      assert s[..|s| - 1][..|s| - 2] == Hex(init);
      ParseHexOfHex(init);
    }
  }

  /** `generateSecureOtp()`, given the three bytes `crypto.randomBytes(3)` returned: their
      value (at most 16777215) modulo one million, as six zero-padded digits. */
  function GenerateSecureOtp(random: seq<Byte>): (code: string)
    requires |random| == 3
    ensures |code| == 6 && AllDigits(code)
    ensures ParseDecimal(code) == BigEndian(random) % CodeSpace
    ensures BigEndian(random) <= 16777215
  {
    ParseHexOfHex(random);
    SixDigitCode(ParseHex(Hex(random)))
  }

  // ---------------------------------------------------------------- generateOtpForPhone

  /** Some request for `phone` was created within the last sixty seconds. */
  predicate HasRecentRequest(rows: seq<PhoneOtp>, phone: string, now: int) {
    |RecentRequests(rows, phone, now, RateLimitMs)| > 0
  }

  /** The rate limit holds: once a code was issued at `issuedAt`, any request for the same
      phone before sixty seconds have passed is refused. */
  lemma {:induction false} IssuedCodeBlocksForAMinute(rows: seq<PhoneOtp>, row: PhoneOtp, now: int)
    requires now < row.createdAt + RateLimitMs
    ensures HasRecentRequest(rows + [row], row.phone, now)
  {
    assert row in rows + [row];
  }

  /** A phone with no request in the window is never refused, whatever other phones did. */
  lemma {:induction false} QuietPhoneNotBlocked(rows: seq<PhoneOtp>, phone: string, now: int)
    requires forall x | x in rows && x.phone == phone :: x.createdAt <= now - RateLimitMs
    ensures !HasRecentRequest(rows, phone, now)
  {
    if rows != [] {
      assert forall x | x in rows[1..] :: x in rows;
      QuietPhoneNotBlocked(rows[1..], phone, now);
    }
  }

  /** How `generateOtpForPhone` ends: it resolves, it rejects with the rate-limit error
      (`TooManyRequestsMessage`) before touching the table, or it rejects with what Twilio's send threw after the row
      was stored. */
  datatype PhoneOtpResult = Issued | RateLimited | SendRejected(err: Thrown)

  /** The text of the SMS carrying `code`. */
  function SmsBody(code: string): string {
    "Your LeaseClarityPRO reset code is: " + code
  }

  /** `generateOtpForPhone(phone)` at time `now`, where `sendFailure` is what
      `twilioClient.messages.create` threw, if anything. While a request for this phone is
      under sixty seconds old the call is refused and nothing is stored or sent. Otherwise
      one row holding the code's hash, expiring five minutes later, is inserted, and then
      the SMS carrying the code is sent; a failed send rejects the call with the row
      already stored, so by `IssuedCodeBlocksForAMinute` the phone stays blocked for the
      next sixty seconds with no code delivered. */
  method GenerateOtpForPhone(db: Database, phone: string, random: seq<Byte>, now: int, hash: string -> string,
                             sendFailure: Option<Thrown>)
    returns (result: PhoneOtpResult, sms: Option<string>)
    requires |random| == 3
    modifies db
    ensures result.RateLimited? <==> HasRecentRequest(old(db.phoneOtps), phone, now)
    ensures result.RateLimited? ==> db.phoneOtps == old(db.phoneOtps) && sms.None?
    ensures !result.RateLimited? ==>
      && db.phoneOtps == old(db.phoneOtps) + [PhoneOtp(phone, hash(GenerateSecureOtp(random)), now + OtpLifetimeMs, now)]
      && sms == Some(SmsBody(GenerateSecureOtp(random)))
      && result == (if sendFailure.Some? then SendRejected(sendFailure.value) else Issued)
    ensures db.emailOtps == old(db.emailOtps) && db.passwordHashes == old(db.passwordHashes)
  {
    var recentRequests := RecentRequests(db.phoneOtps, phone, now, RateLimitMs);
    if |recentRequests| > 0 {
      return RateLimited, None;
    }
    var otp := GenerateSecureOtp(random);
    var hashedOtp := hash(otp);
    var expiresAt := now + OtpLifetimeMs;
    db.phoneOtps := db.phoneOtps + [PhoneOtp(phone, hashedOtp, expiresAt, now)];
    sms := Some(SmsBody(otp));
    result := if sendFailure.Some? then SendRejected(sendFailure.value) else Issued;
  }

  // ---------------------------------------------------------------- verifyOtpAndResetPassword

  /** `UPDATE users SET "passwordHash" = :passwordHash WHERE email = :email`: no row changes
      when there is no such user. */
  function UpdatePassword(users: map<string, string>, email: string, passwordHash: string): (r: map<string, string>)
    ensures r.Keys == users.Keys
    ensures email in users ==> r[email] == passwordHash
    ensures forall e | e in users && e != email :: r[e] == users[e]
  {
    if email in users then users[email := passwordHash] else users
  }

  /** `verifyOtpAndResetPassword({ email, otp, newPassword })` at time `now`. Only the most
      recently created record for the address is consulted; a missing one, or `now` strictly
      after its expiry, is refused before the code is compared; on any refusal nothing
      changes; on success the password hash is replaced and every code for the address is
      deleted. */
  method VerifyOtpAndResetPassword(db: Database, email: string, otp: string, newPassword: string, now: int,
                                   compare: (string, string) -> bool, hash: string -> string)
    returns (outcome: Outcome)
    requires db.Valid()
    modifies db
    ensures db.Valid()
    ensures var record := Latest(old(db.emailOtps), email);
      && (outcome == Failed(ExpiredMessage) <==> record.None? || now > record.value.expiresAt)
      && (outcome == Failed(IncorrectMessage) <==>
            record.Some? && now <= record.value.expiresAt && !compare(otp, record.value.otpHash))
      && (outcome == Done <==>
            record.Some? && now <= record.value.expiresAt && compare(otp, record.value.otpHash))
    ensures outcome.Failed? ==>
      db.emailOtps == old(db.emailOtps) && db.passwordHashes == old(db.passwordHashes)
    ensures outcome.Done? ==>
      && db.passwordHashes == UpdatePassword(old(db.passwordHashes), email, hash(newPassword))
      && db.emailOtps == ExceptEmail(old(db.emailOtps), email)
    ensures db.phoneOtps == old(db.phoneOtps)
  {
    var record := Latest(db.emailOtps, email);
    if record.None? || now > record.value.expiresAt {
      return Failed(ExpiredMessage);
    }
    var isMatch := compare(otp, record.value.otpHash);
    if !isMatch {
      return Failed(IncorrectMessage);
    }
    var passwordHash := hash(newPassword);
    db.passwordHashes := UpdatePassword(db.passwordHashes, email, passwordHash);
    ExceptEmailKeepsUnique(db.emailOtps, email);
    db.emailOtps := ExceptEmail(db.emailOtps, email);
    outcome := Done;
  }

  /** A code works once: after a successful reset the address has no record left, so
      the same code is then refused as expired or not found. */
  lemma ResetConsumesCode(rows: seq<EmailOtp>, email: string)
    ensures Latest(ExceptEmail(rows, email), email).None?
  {
  }

  /** Right after `storeOtpInDatabase`, verifying with a code bcrypt matches succeeds
      until the expiry instant inclusive and is refused as expired one millisecond later. */
  lemma FreshCodeAcceptedUntilExpiry(rows: seq<EmailOtp>, email: string, hashed: string, issuedAt: int, now: int)
    ensures var record := Latest(Replace(rows, EmailOtp(email, hashed, issuedAt + OtpLifetimeMs, issuedAt)), email);
      record.Some? && (now <= record.value.expiresAt <==> now <= issuedAt + 300000)
  {
    StoredRecordIsLatest(rows, EmailOtp(email, hashed, issuedAt + OtpLifetimeMs, issuedAt));
  }
}
