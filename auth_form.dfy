/** The sign-in / registration form: its mode, its field values, and which store action a
    submission runs. */
module AuthForm {
  import opened Outcomes
  import AuthStore

  datatype Mode = Login | Register

  /** `INIT_LOGIN` */
  const InitLogin: map<string, string> := map["email" := "", "password" := ""]

  /** `INIT_REGISTER` */
  const InitRegister: map<string, string> :=
    map["email" := "", "password" := "", "firstName" := "", "lastName" := ""]

  function Other(mode: Mode): (m: Mode)
    ensures m != mode
  {
    if mode == Login then Register else Login
  }

  /** The empty fields of a mode: two for logging in, four for registering. */
  function InitFields(mode: Mode): (fields: map<string, string>)
    ensures |fields| == (if mode == Login then 2 else 4)
    ensures forall k | k in fields :: fields[k] == ""
    ensures fields.Keys == (if mode == Login then {"email", "password"} else {"email", "password", "firstName", "lastName"})
  {
    assert InitLogin.Keys == {"email", "password"};
    assert InitRegister.Keys == {"email", "password", "firstName", "lastName"};
    if mode == Login then InitLogin else InitRegister
  }

  /** Switching twice comes back to the same mode, with that mode's empty fields. */
  lemma SwitchingTwiceRestoresMode(mode: Mode)
    ensures Other(Other(mode)) == mode
    ensures InitFields(Other(Other(mode))) == InitFields(mode)
  {
  }

  /** The error line under the form, `{error && <div>{error}</div>}`: no line when there is
      no error or the text is empty (falsy); the text itself; and for `true` a line with
      nothing in it, since React renders a boolean child as nothing. */
  function ErrorLine(error: Option<AuthStore.ErrorValue>): (line: Option<string>)
    ensures line.None? <==> error.None? || error == Some(AuthStore.ErrorText(""))
    ensures error.Some? && error.value.ErrorText? && line.Some? ==> line.value == error.value.text
    ensures error == Some(AuthStore.ErrorTrue) ==> line == Some("")
  {
    if error.None? then None
    else if error.value.ErrorTrue? then Some("")
    else if error.value.text == "" then None
    else Some(error.value.text)
  }

  /** Every refusal by the request validation middleware, whatever its message, leaves the
      form showing an empty error line: the store keeps `true` and the message is lost. */
  lemma ValidationRefusalShowsEmptyLine(s: AuthStore.AuthState, data: AuthStore.AuthBody, failure: string)
    requires data.error == Some(AuthStore.ErrorTrue)
    ensures ErrorLine(AuthStore.Settled(s, Responded(false, data), failure).error) == Some("")
  {
  }

  /** Read the corrected way, the same refusal shows the validation middleware's message. */
  lemma ValidationMessageShownWhenCorrected(data: AuthStore.AuthBody, failure: string)
    requires data.error == Some(AuthStore.ErrorTrue) && data.message == Some(AuthStore.ValidationFailedMessage)
    ensures ErrorLine(Some(AuthStore.ErrorText(AuthStore.RefusalText(data, failure))))
            == Some(AuthStore.ValidationFailedMessage)
  {
  }

  class Form {
    var mode: Mode
    var fields: map<string, string>
    const auth: AuthStore.Store

    /** The form as first shown: logging in, with empty e-mail and password. */
    constructor (auth: AuthStore.Store)
      ensures this.auth == auth
      ensures mode == Login && fields == InitFields(Login)
    {
      this.auth := auth;
      mode, fields := Login, InitLogin;
    }

    /** `switchMode()`: the other mode, with its own empty fields; whatever was typed is
        dropped. */
    method SwitchMode()
      modifies this
      ensures mode == Other(old(mode))
      ensures fields == InitFields(mode)
    {
      if mode == Login {
        mode, fields := Register, InitRegister;
      } else {
        mode, fields := Login, InitLogin;
      }
    }

    /** `handleChange(e)` for the input named `name`: only that field changes. */
    method HandleChange(name: string, value: string)
      modifies this
      ensures name in fields && fields[name] == value
      ensures fields.Keys == old(fields).Keys + {name}
      ensures forall k | k in old(fields) && k != name :: fields[k] == old(fields)[k]
      ensures mode == old(mode)
    {
      fields := fields[name := value];
    }

    /** `handleSubmit(e)`: the fields go to `login` in login mode and to `register` in
        register mode; the store then settles with the server's answer `reply`. */
    method HandleSubmit(reply: Fetched<AuthStore.AuthBody>, stringify: AuthStore.ReplyUser -> string)
      returns (action: Mode, credentials: map<string, string>)
      modifies auth, auth.storage
      ensures action == mode && credentials == fields
      ensures auth.State() == AuthStore.Settled(
                old(auth.State()).(loading := true, error := None), reply,
                if mode == Login then AuthStore.LoginFailedMessage else AuthStore.RegistrationFailedMessage)
      ensures auth.storage.items == AuthStore.StoredAfter(old(auth.storage.items), reply, stringify)
    {
      action, credentials := mode, fields;
      if mode == Login {
        auth.Login(reply, stringify);
      } else {
        auth.Register(reply, stringify);
      }
    }
  }
}
