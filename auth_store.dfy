/** The client's session store: the signed-in user and token, restored from
    `localStorage` at start-up, set by logging in or registering, and cleared by logging
    out. The server's answer, `JSON.parse` and `JSON.stringify` are inputs. */
module AuthStore {
  import opened Outcomes

  /** The user the store keeps: `AuthResponse['user']`. */
  datatype User = User(id: int, email: string, firstName: Option<string>, lastName: Option<string>)

  /** `data.user` as the server sent it: the four kept fields and whatever else it carries. */
  datatype ReplyUser = ReplyUser(id: int, email: string, firstName: Option<string>, lastName: Option<string>,
                                 otherFields: seq<(string, string)>)

  /** The `error` member of an answer, as the store keeps it: text, or the `true` that the
      request validation middleware sends with its "Validation failed." message. */
  datatype ErrorValue = ErrorText(text: string) | ErrorTrue

  /** The body of a login or registration answer. */
  datatype AuthBody = AuthBody(token: Option<string>, user: Option<ReplyUser>, error: Option<ErrorValue>,
                               message: Option<string>)

  /** The store's data fields. */
  datatype AuthState = AuthState(user: Option<User>, token: Option<string>, loading: bool, error: Option<ErrorValue>)

  const TokenKey := "token"
  const UserKey := "user"
  const LoginFailedMessage := "Login failed."
  const RegistrationFailedMessage := "Registration failed."
  const ValidationFailedMessage := "Validation failed."

  /** `{ id, email, firstName, lastName }` taken from the answer's user. */
  function Project(u: ReplyUser): (r: User)
    ensures r.id == u.id && r.email == u.email && r.firstName == u.firstName && r.lastName == u.lastName
  {
    User(u.id, u.email, u.firstName, u.lastName)
  }

  /** The answer is accepted: OK, a truthy (non-empty) token and a user. */
  predicate Accepted(ok: bool, data: AuthBody) {
    ok && data.token.Some? && data.token.value != "" && data.user.Some?
  }

  /** The fields after a login or registration answered by `reply`, where `failure` is the
      action's default message. A refusal or a throw leaves the user and the token alone. */
  function Settled(s: AuthState, reply: Fetched<AuthBody>, failure: string): (t: AuthState)
    ensures !t.loading
  {
    match reply
    case Threw(e) => s.(error := Some(ErrorText(MessageOr(e, failure))), loading := false)
    case Responded(ok, data) =>
      if Accepted(ok, data) then AuthState(Some(Project(data.user.value)), Some(data.token.value), false, None)
      else s.(error := Some(data.error.GetOr(ErrorText(failure))), loading := false)
  }

  /** `localStorage` after the same answer: both keys written on success only. */
  function StoredAfter(items: map<string, string>, reply: Fetched<AuthBody>, stringify: ReplyUser -> string)
    : (r: map<string, string>)
    ensures !(reply.Responded? && Accepted(reply.ok, reply.data)) ==> r == items
  {
    match reply
    case Threw(_) => items
    case Responded(ok, data) =>
      if Accepted(ok, data) then items[TokenKey := data.token.value][UserKey := stringify(data.user.value)]
      else items
  }

  /** A refused or failed attempt keeps the session that was there, and reports either
      the server's `error` as it came (kept even when empty, as `??` does, and kept when it
      is `true`), the thrown `Error`'s message, or the action's default message. The
      answer's `message` is never read. */
  lemma RefusalKeepsSession(s: AuthState, reply: Fetched<AuthBody>, failure: string)
    requires !(reply.Responded? && Accepted(reply.ok, reply.data))
    ensures var t := Settled(s, reply, failure);
      && t.user == s.user && t.token == s.token && t.error.Some?
      && (reply.Threw? ==> t.error.value == ErrorText(MessageOr(reply.err, failure)))
      && (reply.Responded? && reply.data.error.Some? ==> t.error.value == reply.data.error.value)
      && (reply.Responded? && reply.data.error.None? ==> t.error.value == ErrorText(failure))
  {
  }

  /** On success the session is exactly the answer's token and projected user. */
  lemma AcceptanceReplacesSession(s: AuthState, ok: bool, data: AuthBody, failure: string)
    requires Accepted(ok, data)
    ensures var t := Settled(s, Responded(ok, data), failure);
      t.token == data.token && t.user == Some(Project(data.user.value)) && t.error.None?
  {
  }

  /** The refusal text the store evidently means to keep: the server's `error` when it is
      text, otherwise the answer's `message`, otherwise the action's default message. */
  function RefusalText(data: AuthBody, failure: string): (text: string)
    ensures data.error.Some? && data.error.value.ErrorText? ==> text == data.error.value.text
    ensures (data.error.None? || data.error == Some(ErrorTrue)) && data.message.Some? ==> text == data.message.value
    ensures (data.error.None? || data.error == Some(ErrorTrue)) && data.message.None? ==> text == failure
  {
    match data.error
    case Some(ErrorText(t)) => t
    case _ => data.message.GetOr(failure)
  }

  /** What `getStoredAuth()` reads: the token, and the user parsed from its stored text.
      No stored text, an empty one, or one the parser rejects gives no user. */
  function GetStoredAuth(items: map<string, string>, parse: string -> Option<User>): (r: (Option<string>, Option<User>))
    ensures r.0 == (if TokenKey in items then Some(items[TokenKey]) else None)
    ensures UserKey !in items || items[UserKey] == "" ==> r.1.None?
    ensures UserKey in items && items[UserKey] != "" ==> r.1 == parse(items[UserKey])
  {
    var token := if TokenKey in items then Some(items[TokenKey]) else None;
    var user := if UserKey in items && items[UserKey] != "" then parse(items[UserKey]) else None;
    (token, user)
  }

  /** After a successful login, a reload restores the same session, provided the stored
      user text parses back to the projected user. */
  lemma ReloadRestoresSession(items: map<string, string>, ok: bool, data: AuthBody,
                              stringify: ReplyUser -> string, parse: string -> Option<User>)
    requires Accepted(ok, data)
    requires stringify(data.user.value) != "" && parse(stringify(data.user.value)) == Some(Project(data.user.value))
    ensures var t := Settled(AuthState(None, None, true, None), Responded(ok, data), LoginFailedMessage);
      GetStoredAuth(StoredAfter(items, Responded(ok, data), stringify), parse) == (t.token, t.user)
  {
  }

  /** After logging out, a reload starts with no session. */
  lemma LogoutSurvivesReload(items: map<string, string>, parse: string -> Option<User>)
    ensures GetStoredAuth(items - {TokenKey, UserKey}, parse) == (None, None)
  {
  }

  /** `localStorage` */
  class LocalStorage {
    var items: map<string, string>

    constructor (initial: map<string, string>)
      ensures items == initial
    {
      items := initial;
    }
  }

  class Store {
    var user: Option<User>
    var token: Option<string>
    var loading: bool
    var error: Option<ErrorValue>
    const storage: LocalStorage

    function State(): AuthState
      reads this
    {
      AuthState(user, token, loading, error)
    }

    /** The store as created: the stored session, idle, no error. */
    constructor (storage: LocalStorage, parse: string -> Option<User>)
      ensures this.storage == storage
      ensures (token, user) == GetStoredAuth(storage.items, parse) && !loading && error.None?
    {
      var stored := GetStoredAuth(storage.items, parse);
      this.storage := storage;
      token, user := stored.0, stored.1;
      loading, error := false, None;
    }

    /** The shared body of `login` and `register`: mark loading, then settle with the
        answer and, on success, write both storage keys. */
    method Submit(reply: Fetched<AuthBody>, failure: string, stringify: ReplyUser -> string)
      modifies this, storage
      ensures State() == Settled(old(State()).(loading := true, error := None), reply, failure)
      ensures storage.items == StoredAfter(old(storage.items), reply, stringify)
    {
      loading, error := true, None;
      match reply {
        case Threw(e) =>
          error, loading := Some(ErrorText(MessageOr(e, failure))), false;
        case Responded(ok, data) =>
          if !Accepted(ok, data) {
            error, loading := Some(data.error.GetOr(ErrorText(failure))), false;
            return;
          }
          user, token, loading, error := Some(Project(data.user.value)), Some(data.token.value), false, None;
          storage.items := storage.items[TokenKey := data.token.value];
          storage.items := storage.items[UserKey := stringify(data.user.value)];
      }
    }

    /** `login(creds)` */
    method Login(reply: Fetched<AuthBody>, stringify: ReplyUser -> string)
      modifies this, storage
      ensures State() == Settled(old(State()).(loading := true, error := None), reply, LoginFailedMessage)
      ensures storage.items == StoredAfter(old(storage.items), reply, stringify)
    {
      Submit(reply, LoginFailedMessage, stringify);
    }

    /** `register(creds)` */
    method Register(reply: Fetched<AuthBody>, stringify: ReplyUser -> string)
      modifies this, storage
      ensures State() == Settled(old(State()).(loading := true, error := None), reply, RegistrationFailedMessage)
      ensures storage.items == StoredAfter(old(storage.items), reply, stringify)
    {
      Submit(reply, RegistrationFailedMessage, stringify);
    }

    /** `logout()`: the session and error are cleared, loading is left as it was, and both
        storage keys are removed. */
    method Logout()
      modifies this, storage
      ensures State() == old(State()).(user := None, token := None, error := None)
      ensures storage.items == old(storage.items) - {TokenKey, UserKey}
    {
      user, token, error := None, None, None;
      storage.items := storage.items - {TokenKey};
      storage.items := storage.items - {UserKey};
    }
  }
}
