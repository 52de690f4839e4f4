/** The three tables the password-reset code reads and writes: `email_otp_requests`
    (one row per e-mail, the column is declared unique), `otp_requests` (phone codes)
    and the `passwordHash` column of `users`, keyed by e-mail. Times are milliseconds. */
module OtpTables {
  import opened Outcomes

  /** A row of `email_otp_requests`; `otpHash` is the bcrypt hash, never the code. */
  datatype EmailOtp = EmailOtp(email: string, otpHash: string, expiresAt: int, createdAt: int)

  /** A row of `otp_requests`. */
  datatype PhoneOtp = PhoneOtp(phone: string, hashedOtp: string, expiresAt: int, createdAt: int)

  /** `OTP_EXPIRY_MINUTES` (and the literal `5 * 60 * 1000`) in milliseconds. */
  const OtpLifetimeMs := 5 * 60 * 1000

  /** The `unique: true` constraint on `email_otp_requests.email`. */
  ghost predicate AtMostOnePerEmail(rows: seq<EmailOtp>) {
    forall i, j | 0 <= i < j < |rows| :: rows[i].email != rows[j].email
  }

  /** `SELECT * ... WHERE email = :email`, in table order. */
  function ForEmail(rows: seq<EmailOtp>, email: string): (r: seq<EmailOtp>)
    ensures forall x | x in r :: x in rows && x.email == email
    ensures forall x | x in rows && x.email == email :: x in r
    ensures |r| <= |rows|
  {
    if rows == [] then []
    else (if rows[0].email == email then [rows[0]] else []) + ForEmail(rows[1..], email)
  }

  /** The table after `DELETE ... WHERE email = :email` (`Otp.destroy({ where: { email } })`). */
  function ExceptEmail(rows: seq<EmailOtp>, email: string): (r: seq<EmailOtp>)
    ensures forall x | x in r :: x in rows && x.email != email
    ensures forall x | x in rows && x.email != email :: x in r
    ensures |r| <= |rows|
  {
    if rows == [] then []
    else (if rows[0].email != email then [rows[0]] else []) + ExceptEmail(rows[1..], email)
  }

  lemma {:induction false} ForEmailAppend(a: seq<EmailOtp>, b: seq<EmailOtp>, email: string)
    ensures ForEmail(a + b, email) == ForEmail(a, email) + ForEmail(b, email)
  {
    if a == [] {
      assert a + b == b;
    } else {
      assert (a + b)[1..] == a[1..] + b;
      ForEmailAppend(a[1..], b, email);
    }
  }

  /** Deleting one address's rows leaves every other address's rows as they were. */
  lemma {:induction false} ExceptEmailKeepsOthers(rows: seq<EmailOtp>, email: string, other: string)
    ensures ForEmail(ExceptEmail(rows, email), other) == if other == email then [] else ForEmail(rows, other)
  {
    if rows != [] {
      var head := if rows[0].email != email then [rows[0]] else [];
      ForEmailAppend(head, ExceptEmail(rows[1..], email), other);
      ExceptEmailKeepsOthers(rows[1..], email, other);
    }
  }

  lemma {:induction false} ExceptEmailKeepsUnique(rows: seq<EmailOtp>, email: string)
    requires AtMostOnePerEmail(rows)
    ensures AtMostOnePerEmail(ExceptEmail(rows, email))
  {
    if rows != [] {
      ExceptEmailKeepsUnique(rows[1..], email);
      var rest := ExceptEmail(rows[1..], email);
      assert forall x | x in rest :: x.email != rows[0].email by {
        forall x | x in rest ensures x.email != rows[0].email {
          var k :| 0 <= k < |rows[1..]| && rows[1..][k] == x;
          assert rows[k + 1] == x;
        }
      }
    }
  }

  /** The most recent row for an address: `ORDER BY created_at DESC LIMIT 1`.
      Among rows created at the same instant the first in table order is taken. */
  function Latest(rows: seq<EmailOtp>, email: string): (r: Option<EmailOtp>)
    ensures r.None? <==> forall x | x in rows :: x.email != email
    ensures r.Some? ==> r.value in rows && r.value.email == email
    ensures r.Some? ==> forall x | x in rows && x.email == email :: x.createdAt <= r.value.createdAt
  {
    if rows == [] then None
    else
      var rest := Latest(rows[1..], email);
      if rows[0].email != email then rest
      else if rest.Some? && rest.value.createdAt > rows[0].createdAt then rest
      else Some(rows[0])
  }

  /** `SELECT * FROM otp_requests WHERE phone_number = :phone AND created_at > NOW() - INTERVAL '60 seconds'`. */
  function RecentRequests(rows: seq<PhoneOtp>, phone: string, now: int, windowMs: int): (r: seq<PhoneOtp>)
    ensures forall x | x in r :: x in rows && x.phone == phone && x.createdAt > now - windowMs
    ensures forall x | x in rows && x.phone == phone && x.createdAt > now - windowMs :: x in r
  {
    if rows == [] then []
    else
      var x := rows[0];
      (if x.phone == phone && x.createdAt > now - windowMs then [x] else [])
        + RecentRequests(rows[1..], phone, now, windowMs)
  }

  /** The database state the reset code touches. */
  class Database {
    /** `email_otp_requests` */
    var emailOtps: seq<EmailOtp>
    /** `otp_requests` */
    var phoneOtps: seq<PhoneOtp>
    /** `users."passwordHash"`, by e-mail */
    var passwordHashes: map<string, string>

    ghost predicate Valid()
      reads this
    {
      AtMostOnePerEmail(emailOtps)
    }

    constructor (users: map<string, string>)
      ensures Valid()
      ensures emailOtps == [] && phoneOtps == [] && passwordHashes == users
    {
      emailOtps, phoneOtps, passwordHashes := [], [], users;
    }
  }
}
