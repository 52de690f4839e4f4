/** The password-reset dialog: the e-mail step (normalise, check the address's shape,
    ask for a code) and the code step (check the form, ask for the reset). The reCAPTCHA
    script's presence and the server's answers are inputs; the dialog's open/step/e-mail
    state lives in `OtpStore.Store`. */
module OtpResetModal {
  import opened JsText
  import opened Outcomes
  import OtpStore

  // ---------------------------------------------------------------- the e-mail address

  /** `email.trim().toLowerCase()`: the result has no capital letter left. */
  function NormalizeEmail(email: string): (e: string)
    ensures Lower(e) == e
  {
    LowerIdempotent(Trim(email));
    Lower(Trim(email))
  }

  /** Normalising twice is normalising once. */
  lemma NormalizeEmailIdempotent(email: string)
    ensures NormalizeEmail(NormalizeEmail(email)) == NormalizeEmail(email)
  {
    var t := Trim(email);
    LowerTrimCommute(t);
    TrimIdempotent(email);
    LowerIdempotent(t);
  }

  /** Spaces typed around the address and its letter case do not matter. */
  lemma NormalizeEmailIgnoresPaddingAndCase(pre: string, email: string, post: string)
    requires AllSpace(pre) && AllSpace(post)
    ensures NormalizeEmail(pre + email + post) == NormalizeEmail(email)
    ensures NormalizeEmail(Lower(email)) == NormalizeEmail(email)
  {
    TrimIgnoresPadding(pre, email, post);
    LowerTrimCommute(email);
    LowerIdempotent(Trim(email));
  }

  /** A character of the class `[^\s@]`. */
  predicate Plain(c: char) {
    !IsSpace(c) && c != '@'
  }

  predicate PlainSpan(s: string, lo: int, hi: int)
    requires 0 <= lo <= hi <= |s|
  {
    forall k | lo <= k < hi :: Plain(s[k])
  }

  /** `^[^\s@]+@[^\s@]+\.[^\s@]+$` matches with the `@` at `i` and the `\.` at `j`. */
  predicate RegexSplit(s: string, i: int, j: int) {
    && 0 < i && i + 1 < j && j + 1 < |s|
    && s[i] == '@' && s[j] == '.'
    && PlainSpan(s, 0, i) && PlainSpan(s, i + 1, j) && PlainSpan(s, j + 1, |s|)
  }

  /** `/^[^\s@]+@[^\s@]+\.[^\s@]+$/.test(s)` */
  predicate EmailRegexTest(s: string) {
    exists i, j | 0 < i < j < |s| :: RegexSplit(s, i, j)
  }

  /** `s` has an `@` at `i` and nowhere else. */
  predicate OnlyAt(s: string, i: int) {
    0 <= i < |s| && s[i] == '@' && forall k | 0 <= k < |s| && k != i :: s[k] != '@'
  }

  /** The domain has a `.` that is neither its first nor its last character. */
  predicate HasInnerDot(d: string) {
    exists k | 0 < k < |d| - 1 :: d[k] == '.'
  }

  /** The shape the check asks for, said plainly: no whitespace, exactly one `@`, a
      non-empty local part, and a dot inside the domain. */
  predicate PlainEmailShape(s: string) {
    && (forall k | 0 <= k < |s| :: !IsSpace(s[k]))
    && exists i | 0 < i < |s| :: OnlyAt(s, i) && HasInnerDot(s[i + 1..])
  }

  /** The regular expression accepts exactly the addresses of that shape. */
  lemma EmailRegexMeansPlainShape(s: string)
    ensures EmailRegexTest(s) <==> PlainEmailShape(s)
  {
    if EmailRegexTest(s) {
      var i, j :| 0 < i < j < |s| && RegexSplit(s, i, j);
      forall k | 0 <= k < |s| && k != i ensures Plain(s[k]) {
        if k < i {
          assert PlainSpan(s, 0, i);
        } else if k < j {
          assert PlainSpan(s, i + 1, j);
        } else if k > j {
          assert PlainSpan(s, j + 1, |s|);
        }
      }
      assert OnlyAt(s, i);
      var d := s[i + 1..];
      assert d[j - i - 1] == s[j] == '.';
      assert HasInnerDot(d);
    }
    if PlainEmailShape(s) {
      var i :| 0 < i < |s| && OnlyAt(s, i) && HasInnerDot(s[i + 1..]);
      var d := s[i + 1..];
      var k :| 0 < k < |d| - 1 && d[k] == '.';
      assert RegexSplit(s, i, i + 1 + k);
    }
  }

  /** A concrete address passes, and one without a dot after the `@` does not. */
  lemma EmailRegexExamples()
    ensures EmailRegexTest("a@b.co")
    ensures !EmailRegexTest("a@bco")
  {
    assert RegexSplit("a@b.co", 1, 3);
    var t := "a@bco";
    assert forall j | 0 <= j < |t| :: t[j] != '.';
  }

  // ---------------------------------------------------------------- the server's answers

  /** The members of an answer body that the dialog could read. */
  datatype ReplyBody = ReplyBody(message: Option<string>, error: Option<string>)

  /** The error the dialog shows for a refused request: `data?.message ?? fallback`. The
      reset endpoints answer a refusal with `{ error }` only (`otp.controller.ts`), so
      `error` is never read and the server's reason is never shown. */
  function FailureTextAsWritten(data: ReplyBody, fallback: string): (text: string)
    ensures data.message.Some? ==> text == data.message.value
    ensures data.message.None? ==> text == fallback
  {
    data.message.GetOr(fallback)
  }

  /** For every answer that carries only an `error`, as the controller's refusals do, the
      dialog shows the fallback while the corrected reading shows the server's reason. */
  lemma ServerReasonLost(data: ReplyBody, fallback: string)
    requires data.message.None? && data.error.Some?
    ensures FailureTextAsWritten(data, fallback) == fallback
    ensures FailureText(data, fallback) == data.error.value
  {
  }

  /** The controller's refusals as the dialog shows them: a failed captcha on the send
      step and a wrong code on the verify step both show the generic fallback. */
  lemma ControllerRefusalsShowFallback()
    ensures FailureTextAsWritten(ReplyBody(None, Some("Captcha verification failed.")), SendFailedMessage)
            == SendFailedMessage
    ensures FailureTextAsWritten(ReplyBody(None, Some("Incorrect OTP.")), VerifyFailedMessage)
            == VerifyFailedMessage
  {
  }

  /** The evidently intended reading: the server's `error`, then a `message`, then the
      fallback; whenever the server gives a reason, that reason is what the user sees. */
  function FailureText(data: ReplyBody, fallback: string): (text: string)
    ensures data.error.Some? ==> text == data.error.value
    ensures data.error.None? && data.message.Some? ==> text == data.message.value
    ensures data.error.None? && data.message.None? ==> text == fallback
  {
    data.error.GetOr(data.message.GetOr(fallback))
  }

  const InvalidEmailMessage := "Please enter a valid email address."
  const RecaptchaMissingMessage := "reCAPTCHA not loaded. Please try again shortly."
  const SendFailedMessage := "Failed to send OTP. Please try again."
  const SendCrashedMessage := "An unexpected error occurred while sending OTP."
  const IncompleteMessage := "Please complete all fields."
  const MismatchMessage := "Passwords do not match."
  const VerifyFailedMessage := "OTP verification failed."
  const VerifyCrashedMessage := "An unexpected error occurred during verification."

  /** What the e-mail step decides before any request: send the normalised address,
      or refuse with the first failing check's message. */
  datatype EmailDecision = Send(email: string) | Refuse(message: string)

  /** The checks of `handleEmailSubmit()` in order: the address's shape, then the
      reCAPTCHA script. */
  function EmailCheck(raw: string, recaptchaReady: bool): (d: EmailDecision)
    ensures d.Send? <==> EmailRegexTest(NormalizeEmail(raw)) && recaptchaReady
    ensures d.Send? ==> d.email == NormalizeEmail(raw)
    ensures !EmailRegexTest(NormalizeEmail(raw)) ==> d == Refuse(InvalidEmailMessage)
    ensures EmailRegexTest(NormalizeEmail(raw)) && !recaptchaReady ==> d == Refuse(RecaptchaMissingMessage)
  {
    var trimmedEmail := NormalizeEmail(raw);
    if !EmailRegexTest(trimmedEmail) then Refuse(InvalidEmailMessage)
    else if !recaptchaReady then Refuse(RecaptchaMissingMessage)
    else Send(trimmedEmail)
  }

  /** The body of `POST /api/otp/email/verify`. */
  datatype VerifyRequest = VerifyRequest(email: string, otp: string, newPassword: string)

  // ---------------------------------------------------------------- the dialog

  class ResetForm {
    var otp: string
    var newPassword: string
    var confirm: string
    var error: string
    var loading: bool
    const store: OtpStore.Store

    constructor (store: OtpStore.Store)
      ensures this.store == store
      ensures otp == "" && newPassword == "" && confirm == "" && error == "" && !loading
    {
      this.store := store;
      otp, newPassword, confirm, error, loading := "", "", "", "", false;
    }

    /** The effect run when `isOpen` or `step` changes: on the e-mail step of an open
        dialog the code, both passwords and the error are cleared. */
    method OnOpenOrStepChange()
      modifies this
      ensures store.isOpen && store.step == OtpStore.EnterEmail ==>
        otp == "" && newPassword == "" && confirm == "" && error == ""
      ensures !(store.isOpen && store.step == OtpStore.EnterEmail) ==>
        otp == old(otp) && newPassword == old(newPassword) && confirm == old(confirm) && error == old(error)
      ensures loading == old(loading)
    {
      if store.isOpen && store.step == OtpStore.EnterEmail {
        otp, newPassword, confirm, error := "", "", "", "";
      }
    }

    /** `handleEmailSubmit()`, where `recaptchaReady` says whether `grecaptcha.execute` is
        available and `reply` is how the request ended. A request is made exactly when
        `EmailCheck` lets the address through, and carries the normalised address; only
        an OK answer moves the dialog to the code step; a refusal shows
        `FailureTextAsWritten`; loading ends in every case. */
    method HandleEmailSubmit(recaptchaReady: bool, reply: Fetched<ReplyBody>) returns (sent: Option<string>)
      modifies this, store
      ensures var check := EmailCheck(old(store.email), recaptchaReady);
        && (sent.Some? <==> check.Send?)
        && (check.Send? ==> sent.value == check.email)
        && (check.Refuse? ==> error == check.message)
      ensures sent.Some? ==>
        match reply
        case Threw(_) => error == SendCrashedMessage
        case Responded(ok, data) => error == if ok then "" else FailureTextAsWritten(data, SendFailedMessage)
      ensures store.step == (if sent.Some? && reply.Responded? && reply.ok then OtpStore.VerifyOtp else old(store.step))
      ensures !loading
      ensures store.isOpen == old(store.isOpen) && store.email == old(store.email)
      ensures store.tempOtpToken == old(store.tempOtpToken)
      ensures otp == old(otp) && newPassword == old(newPassword) && confirm == old(confirm)
    {
      loading, error := true, "";
      var check := EmailCheck(store.email, recaptchaReady);
      if check.Refuse? {
        error, loading := check.message, false;
        return None;
      }
      sent := Some(check.email);
      match reply {
        case Threw(_) =>
          error := SendCrashedMessage;
        case Responded(ok, data) =>
          if !ok {
            error := FailureTextAsWritten(data, SendFailedMessage);
          } else {
            store.SetStep(OtpStore.VerifyOtp);
          }
      }
      loading := false;
    }

    /** `handleOtpSubmit()`: an empty field is reported before a password mismatch, and
        neither sends anything nor touches loading; otherwise the request carries the
        normalised address, a refusal shows `FailureTextAsWritten`, and an OK answer
        closes the dialog. */
    method HandleOtpSubmit(reply: Fetched<ReplyBody>) returns (sent: Option<VerifyRequest>)
      modifies this, store
      ensures old(otp) == "" || old(newPassword) == "" || old(confirm) == "" ==>
        sent.None? && error == IncompleteMessage && loading == old(loading)
      ensures old(otp) != "" && old(newPassword) != "" && old(confirm) != "" && old(newPassword) != old(confirm) ==>
        sent.None? && error == MismatchMessage && loading == old(loading)
      ensures sent.Some? <==> old(otp) != "" && old(newPassword) != "" && old(newPassword) == old(confirm)
      ensures sent.Some? ==>
        && sent.value == VerifyRequest(NormalizeEmail(old(store.email)), old(otp), old(newPassword))
        && !loading
        && match reply
           case Threw(_) => error == VerifyCrashedMessage
           case Responded(ok, data) => error == if ok then "" else FailureTextAsWritten(data, VerifyFailedMessage)
      ensures if sent.Some? && reply.Responded? && reply.ok then
                !store.isOpen && store.email == "" && store.step == OtpStore.EnterEmail && store.tempOtpToken.None?
              else
                store.isOpen == old(store.isOpen) && store.email == old(store.email)
                && store.step == old(store.step) && store.tempOtpToken == old(store.tempOtpToken)
      ensures otp == old(otp) && newPassword == old(newPassword) && confirm == old(confirm)
    {
      error := "";
      if otp == "" || newPassword == "" || confirm == "" {
        error := IncompleteMessage;
        return None;
      }
      if newPassword != confirm {
        error := MismatchMessage;
        return None;
      }
      loading := true;
      sent := Some(VerifyRequest(NormalizeEmail(store.email), otp, newPassword));
      match reply {
        case Threw(_) =>
          error := VerifyCrashedMessage;
        case Responded(ok, data) =>
          if !ok {
            error := FailureTextAsWritten(data, VerifyFailedMessage);
          } else {
            store.CloseModal();
          }
      }
      loading := false;
    }
  }
}
