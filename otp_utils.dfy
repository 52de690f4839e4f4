/** The e-mail reset-code helpers: a six-digit code drawn from four random bytes, and
    storing its hash so that an address never has more than one live code. The random
    bytes, the clock and bcrypt's hash are inputs. */
module OtpUtils {
  import opened JsText
  import opened Outcomes
  import opened OtpTables

  type Byte = x: int | 0 <= x < 256

  function Pow256(k: nat): (p: nat)
    ensures p >= 1
  {
    if k == 0 then 1 else 256 * Pow256(k - 1)
  }

  /** The unsigned big-endian integer the bytes spell (`readUInt32BE` on four bytes). */
  function BigEndian(bytes: seq<Byte>): (n: nat)
    ensures n < Pow256(|bytes|)
  {
    if bytes == [] then 0 else BigEndian(bytes[..|bytes| - 1]) * 256 + bytes[|bytes| - 1]
  }

  /** The number of possible codes, `1000000`. */
  const CodeSpace := 1000000

  /** `(n % 1000000).toString().padStart(6, '0')`: always six decimal digits, and reading
      them back gives `n % 1000000`, leading zeros included. */
  function SixDigitCode(n: nat): (code: string)
    ensures |code| == 6 && AllDigits(code)
    ensures ParseDecimal(code) == n % CodeSpace
  {
    var d := Decimal(n % CodeSpace);
    assert Pow10(6) == CodeSpace;
    DecimalLength(n % CodeSpace, 6);
    ParseIgnoresLeadingZeros(6 - |d|, d);
    ParseDecimalOfDecimal(n % CodeSpace);
    PadStart(d, 6, '0')
  }

  /** Two draws give the same code exactly when they agree modulo one million. */
  lemma SixDigitCodeSame(a: nat, b: nat)
    ensures SixDigitCode(a) == SixDigitCode(b) <==> a % CodeSpace == b % CodeSpace
  {
    var d := Decimal(a % CodeSpace);
    var e := Decimal(b % CodeSpace);
    if a % CodeSpace == b % CodeSpace {
      assert d == e;
    }
  }

  /** Small values keep their leading zeros: 42 is written `000042`. */
  lemma SixDigitCodeOf42()
    ensures SixDigitCode(42) == "000042"
  {
    assert Decimal(42) == Decimal(4) + [DigitChar(2)] == "42";
    assert Repeat('0', 4) == "0000";
  }

  /** `generateSixDigitCode()`, given the four bytes `crypto.randomBytes(4)` returned. */
  function GenerateSixDigitCode(random: seq<Byte>): (code: string)
    requires |random| == 4
    ensures |code| == 6 && AllDigits(code)
    ensures ParseDecimal(code) == BigEndian(random) % CodeSpace
  {
    SixDigitCode(BigEndian(random))
  }

  /** The table after `Otp.destroy({ where: { email } })` followed by `Otp.create(row)`
      for `row.email`. */
  function Replace(rows: seq<EmailOtp>, row: EmailOtp): seq<EmailOtp> {
    ExceptEmail(rows, row.email) + [row]
  }

  /** After a store the address has exactly one record, the new one. */
  lemma StoreLeavesOneRecord(rows: seq<EmailOtp>, row: EmailOtp)
    ensures ForEmail(Replace(rows, row), row.email) == [row]
  {
    ForEmailAppend(ExceptEmail(rows, row.email), [row], row.email);
    ExceptEmailKeepsOthers(rows, row.email, row.email);
  }

  /** Records of every other address are the same, in the same order, after a store. */
  lemma StoreKeepsOtherEmails(rows: seq<EmailOtp>, row: EmailOtp, other: string)
    requires other != row.email
    ensures ForEmail(Replace(rows, row), other) == ForEmail(rows, other)
  {
    ForEmailAppend(ExceptEmail(rows, row.email), [row], other);
    ExceptEmailKeepsOthers(rows, row.email, other);
  }

  /** The record verification will pick for the address is the one just stored. */
  lemma StoredRecordIsLatest(rows: seq<EmailOtp>, row: EmailOtp)
    ensures Latest(Replace(rows, row), row.email) == Some(row)
  {
    var r := Replace(rows, row);
    StoreLeavesOneRecord(rows, row);
    assert forall x | x in r && x.email == row.email :: x == row by {
      forall x | x in r && x.email == row.email ensures x == row {
        assert x in ForEmail(r, row.email);
      }
    }
  }

  /** The unique-email constraint survives a store. */
  lemma StoreKeepsUnique(rows: seq<EmailOtp>, row: EmailOtp)
    requires AtMostOnePerEmail(rows)
    ensures AtMostOnePerEmail(Replace(rows, row))
  {
    ExceptEmailKeepsUnique(rows, row.email);
  }

  /** `storeOtpInDatabase(email, otp)` at time `now`: delete the address's records, then
      insert one holding `hash(otp)` (never the code itself) that expires five minutes later. */
  method StoreOtpInDatabase(db: Database, email: string, otp: string, now: int, hash: string -> string)
    requires db.Valid()
    modifies db
    ensures db.Valid()
    ensures db.emailOtps == Replace(old(db.emailOtps), EmailOtp(email, hash(otp), now + OtpLifetimeMs, now))
    ensures db.phoneOtps == old(db.phoneOtps) && db.passwordHashes == old(db.passwordHashes)
  {
    var hashedOtp := hash(otp);
    var expiresAt := now + OtpLifetimeMs;
    StoreKeepsUnique(db.emailOtps, EmailOtp(email, hashedOtp, expiresAt, now));
    db.emailOtps := ExceptEmail(db.emailOtps, email);
    db.emailOtps := db.emailOtps + [EmailOtp(email, hashedOtp, expiresAt, now)];
  }
}
