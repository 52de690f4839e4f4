/** The password-reset dialog's store: open or closed, the address being reset, the
    step of the flow, and a token slot the flow does not use yet. */
module OtpStore {
  import opened Outcomes

  /** `'enterEmail' | 'verifyOtp' | 'setPassword'`: the type admits no other step. */
  datatype Step = EnterEmail | VerifyOtp | SetPassword

  class Store {
    var isOpen: bool
    var email: string
    var step: Step
    var tempOtpToken: Option<string>

    constructor ()
      ensures !isOpen && email == "" && step == EnterEmail && tempOtpToken.None?
    {
      isOpen, email, step, tempOtpToken := false, "", EnterEmail, None;
    }

    /** `openModal()`: whatever step the flow was at, it starts over. */
    method OpenModal()
      modifies this
      ensures isOpen && email == "" && step == EnterEmail && tempOtpToken.None?
    {
      isOpen, step, email, tempOtpToken := true, EnterEmail, "", None;
    }

    /** `closeModal()`: the same resets as opening, with the dialog closed. */
    method CloseModal()
      modifies this
      ensures !isOpen && email == "" && step == EnterEmail && tempOtpToken.None?
    {
      isOpen, step, email, tempOtpToken := false, EnterEmail, "", None;
    }

    /** `setEmail(email)` */
    method SetEmail(value: string)
      modifies this
      ensures email == value
      ensures isOpen == old(isOpen) && step == old(step) && tempOtpToken == old(tempOtpToken)
    {
      email := value;
    }

    /** `setStep(step)` */
    method SetStep(value: Step)
      modifies this
      ensures step == value
      ensures isOpen == old(isOpen) && email == old(email) && tempOtpToken == old(tempOtpToken)
    {
      step := value;
    }
  }
}
