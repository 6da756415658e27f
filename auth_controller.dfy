/**
 * Signup and login over the user table, which is keyed by email. bcrypt's
 * `hash` and `compare` and JWT's `sign` are parameters; the configured
 * `JWT_SECRET` is a parameter too (`None` when the environment lacks it).
 */
module AuthController {
  import opened Wrappers
  import Http

  type UserId = int

  /** A row of the user table: the password is stored only as its hash. */
  datatype User = User(id: UserId, email: string, passwordHash: string)

  /** What a successful reply shows of a user: `{ id, email }`. */
  datatype PublicUser = PublicUser(id: UserId, email: string)

  /** Status, JSON message, the `token` cookie set, and the user in the body. */
  datatype AuthReply = AuthReply(status: int, message: Option<string>, token: Option<string>, user: Option<PublicUser>)

  const MissingCredentials: string := "Email and password required"
  const EmailTaken: string := "Email already registered"
  const SecretMissing: string := "JWT secret is not configured on the server"
  const InvalidCredentials: string := "Invalid credentials"

  /** `!JWT_SECRET || typeof JWT_SECRET !== "string"` is false. */
  predicate Configured(secret: Option<string>) {
    Http.Given(secret)
  }

  /** The table is keyed by email, ids are distinct and lie below the next id. */
  predicate WellFormed(accounts: map<string, User>, nextId: UserId) {
    1 <= nextId
    && (forall e :: e in accounts ==> accounts[e].email == e && 1 <= accounts[e].id < nextId)
    && (forall e1, e2 :: e1 in accounts && e2 in accounts && e1 != e2 ==> accounts[e1].id != accounts[e2].id)
  }

  function Refusal(status: int, message: string): AuthReply {
    AuthReply(status, Some(message), None, None)
  }

  // ---------------------------------------------------------------------------
  // signup

  /**
   * `signup`: the reply and the table afterwards. `newId` is the id the
   * database gives the created row.
   */
  function SignupReply(accounts: map<string, User>, newId: UserId, email: Option<string>, password: Option<string>,
                       hash: string -> string, secret: Option<string>, sign: (UserId, string) -> string)
    : (r: (AuthReply, map<string, User>))
    ensures r.0.token.Some? <==> r.0.status == Http.Created
    ensures forall e :: e in accounts ==> e in r.1 && r.1[e] == accounts[e]
    ensures forall e :: e in r.1 && e !in accounts ==> Http.Given(email) && e == email.value
    ensures r.1 != accounts ==> r.0.status == Http.Created || r.0.status == Http.ServerError
  {
    if !Http.Given(email) || !Http.Given(password) then (Refusal(Http.BadRequest, MissingCredentials), accounts)
    else if email.value in accounts then (Refusal(Http.Conflict, EmailTaken), accounts)
    else
      var created := accounts[email.value := User(newId, email.value, hash(password.value))];
      if !Configured(secret) then (Refusal(Http.ServerError, SecretMissing), created)
      else (AuthReply(Http.Created, None, Some(sign(newId, secret.value)), Some(PublicUser(newId, email.value))), created)
  }

  /** A missing email or password is refused first, and nothing is stored. */
  lemma SignupNeedsCredentials(accounts: map<string, User>, newId: UserId, email: Option<string>, password: Option<string>,
                               hash: string -> string, secret: Option<string>, sign: (UserId, string) -> string)
    ensures SignupReply(accounts, newId, email, password, hash, secret, sign).0.status == Http.BadRequest
        <==> !Http.Given(email) || !Http.Given(password)
    ensures SignupReply(accounts, newId, email, password, hash, secret, sign).0.status == Http.BadRequest
        ==> SignupReply(accounts, newId, email, password, hash, secret, sign)
            == (Refusal(Http.BadRequest, MissingCredentials), accounts)
  {
  }

  /** A registered email is refused with 409 and the table stays as it was. */
  lemma SignupRefusesTakenEmail(accounts: map<string, User>, newId: UserId, email: Option<string>, password: Option<string>,
                                hash: string -> string, secret: Option<string>, sign: (UserId, string) -> string)
    requires Http.Given(email) && Http.Given(password)
    ensures SignupReply(accounts, newId, email, password, hash, secret, sign).0.status == Http.Conflict
        <==> email.value in accounts
    ensures email.value in accounts
        ==> SignupReply(accounts, newId, email, password, hash, secret, sign) == (Refusal(Http.Conflict, EmailTaken), accounts)
  {
  }

  /**
   * A new email is stored with the hash of the password, whether or not the
   * secret is configured; without it the reply is 500, with it 201, the
   * signed `{ userId }` as the cookie and only `{ id, email }` in the body.
   */
  lemma SignupStoresHashedUser(accounts: map<string, User>, newId: UserId, email: Option<string>, password: Option<string>,
                               hash: string -> string, secret: Option<string>, sign: (UserId, string) -> string)
    requires Http.Given(email) && Http.Given(password) && email.value !in accounts
    ensures SignupReply(accounts, newId, email, password, hash, secret, sign).1
        == accounts[email.value := User(newId, email.value, hash(password.value))]
    ensures SignupReply(accounts, newId, email, password, hash, secret, sign).0.status
        == (if Configured(secret) then Http.Created else Http.ServerError)
    ensures Configured(secret) ==> (SignupReply(accounts, newId, email, password, hash, secret, sign).0
        == AuthReply(Http.Created, None, Some(sign(newId, secret.value)), Some(PublicUser(newId, email.value))))
  {
  }

  /** Signup keeps the table keyed by email with distinct ids, so an email is never registered twice. */
  lemma SignupKeepsWellFormed(accounts: map<string, User>, newId: UserId, email: Option<string>, password: Option<string>,
                              hash: string -> string, secret: Option<string>, sign: (UserId, string) -> string)
    requires WellFormed(accounts, newId)
    ensures SignupReply(accounts, newId, email, password, hash, secret, sign).1 == accounts
        || (email.Some? && SignupReply(accounts, newId, email, password, hash, secret, sign).1.Keys == accounts.Keys + {email.value})
    ensures WellFormed(SignupReply(accounts, newId, email, password, hash, secret, sign).1, newId + 1)
  {
    if Http.Given(email) && Http.Given(password) && email.value !in accounts {
      AddUserKeepsWellFormed(accounts, newId, User(newId, email.value, hash(password.value)));
    } else {
      assert WellFormed(accounts, newId + 1);
    }
  }

  /** Adding a user under a new email with the next id keeps the table well formed. */
  lemma AddUserKeepsWellFormed(accounts: map<string, User>, newId: UserId, u: User)
    requires WellFormed(accounts, newId) && u.email !in accounts && u.id == newId
    ensures WellFormed(accounts[u.email := u], newId + 1)
  {
    var after := accounts[u.email := u];
    forall e1, e2 | e1 in after && e2 in after && e1 != e2
      ensures after[e1].id != after[e2].id
    {
      if e1 != u.email && e2 != u.email {
        assert after[e1] == accounts[e1] && after[e2] == accounts[e2];
      }
    }
  }

  // ---------------------------------------------------------------------------
  // login

  /** `login`: a lookup and a compare; it has no way to change the table. */
  function LoginReply(accounts: map<string, User>, email: Option<string>, password: Option<string>,
                      compare: (string, string) -> bool, secret: Option<string>, sign: (UserId, string) -> string)
    : (r: AuthReply)
    ensures r.token.Some? <==> r.status == Http.OK
    ensures r.status == Http.OK ==> (
      Http.Given(email) && Http.Given(password) && email.value in accounts && Configured(secret)
      && compare(password.value, accounts[email.value].passwordHash)
      && r.user == Some(PublicUser(accounts[email.value].id, accounts[email.value].email)))
  {
    if !Http.Given(email) || !Http.Given(password) then Refusal(Http.BadRequest, MissingCredentials)
    else if email.value !in accounts then Refusal(Http.Unauthorized, InvalidCredentials)
    else if !compare(password.value, accounts[email.value].passwordHash) then Refusal(Http.Unauthorized, InvalidCredentials)
    else if !Configured(secret) then Refusal(Http.ServerError, SecretMissing)
    else
      var u := accounts[email.value];
      AuthReply(Http.OK, None, Some(sign(u.id, secret.value)), Some(PublicUser(u.id, u.email)))
  }

  /**
   * An unknown email and a wrong password get the very same reply, so a
   * caller cannot tell which emails are registered.
   */
  lemma LoginFailuresLookAlike(accounts: map<string, User>, email: Option<string>, password: Option<string>,
                               compare: (string, string) -> bool, secret: Option<string>, sign: (UserId, string) -> string)
    requires Http.Given(email) && Http.Given(password)
    ensures LoginReply(accounts, email, password, compare, secret, sign).status == Http.Unauthorized
        <==> email.value !in accounts || !compare(password.value, accounts[email.value].passwordHash)
    ensures LoginReply(accounts, email, password, compare, secret, sign).status == Http.Unauthorized
        ==> LoginReply(accounts, email, password, compare, secret, sign) == Refusal(Http.Unauthorized, InvalidCredentials)
  {
  }

  /** Login succeeds exactly for a registered email, a matching password and a configured secret. */
  lemma LoginSucceeds(accounts: map<string, User>, email: Option<string>, password: Option<string>,
                      compare: (string, string) -> bool, secret: Option<string>, sign: (UserId, string) -> string)
    ensures LoginReply(accounts, email, password, compare, secret, sign).status == Http.OK
        <==> Http.Given(email) && Http.Given(password) && email.value in accounts
             && compare(password.value, accounts[email.value].passwordHash) && Configured(secret)
    ensures LoginReply(accounts, email, password, compare, secret, sign).status == Http.OK
        ==> LoginReply(accounts, email, password, compare, secret, sign).user
            == Some(PublicUser(accounts[email.value].id, accounts[email.value].email))
  {
  }

  /**
   * A user who has just signed up can log in with the same password, as long
   * as the password matches its own hash; the login shows the new user.
   */
  lemma SignupThenLogin(accounts: map<string, User>, newId: UserId, email: Option<string>, password: Option<string>,
                        hash: string -> string, compare: (string, string) -> bool, secret: Option<string>,
                        sign: (UserId, string) -> string)
    requires SignupReply(accounts, newId, email, password, hash, secret, sign).0.status == Http.Created
    requires compare(password.value, hash(password.value))
    ensures LoginReply(SignupReply(accounts, newId, email, password, hash, secret, sign).1, email, password, compare, secret, sign)
        == AuthReply(Http.OK, None, Some(sign(newId, secret.value)), Some(PublicUser(newId, email.value)))
  {
  }

  // ---------------------------------------------------------------------------
  // The user table

  class Users {
    var accounts: map<string, User>
    var nextUserId: UserId

    ghost predicate Valid()
      reads this
    {
      WellFormed(accounts, nextUserId)
    }

    constructor ()
      ensures Valid() && accounts == map[]
    {
      accounts := map[];
      nextUserId := 1;
    }

    /** `signup`: the id counter advances exactly when a row is created. */
    method Signup(email: Option<string>, password: Option<string>,
                  hash: string -> string, secret: Option<string>, sign: (UserId, string) -> string)
      returns (reply: AuthReply)
      requires Valid()
      modifies this
      ensures Valid()
      ensures (reply, accounts) == SignupReply(old(accounts), old(nextUserId), email, password, hash, secret, sign)
      ensures nextUserId == if accounts == old(accounts) then old(nextUserId) else old(nextUserId) + 1
    {
      SignupKeepsWellFormed(accounts, nextUserId, email, password, hash, secret, sign);
      if !Http.Given(email) || !Http.Given(password) {
        return Refusal(Http.BadRequest, MissingCredentials);
      }
      if email.value in accounts {
        return Refusal(Http.Conflict, EmailTaken);
      }
      var id := nextUserId;
      accounts := accounts[email.value := User(id, email.value, hash(password.value))];
      nextUserId := nextUserId + 1;
      if !Configured(secret) {
        return Refusal(Http.ServerError, SecretMissing);
      }
      reply := AuthReply(Http.Created, None, Some(sign(id, secret.value)), Some(PublicUser(id, email.value)));
    }
  }
}
