/** Session issuing and the authorization guard: the bearer-token
    middlewares (required and optional), registration and login. Token
    signing and verification, and password hashing, are opaque: a verifier
    and a password check are parameters. */
module Auth {
  import opened Api
  import opened Strings
  import opened Models

  const BEARER_PREFIX := "Bearer "

  /** Issued tokens expire after this many days. */
  const TOKEN_LIFETIME_DAYS: nat := 30

  const MIN_PASSWORD_LENGTH: nat := 6

  /** `jwt.verify(token, secret)` followed by reading the token's `userId`
      claim: `None` when verification throws (a malformed, expired or
      wrongly signed token). */
  type Verifier = string -> Option<Id>

  /** The awaited result of comparing a password with the stored hash of a
      user. */
  type PasswordCheck = (string, Id) -> bool

  /** The user a request runs as. */
  datatype Principal = Principal(id: Id, user: User)

  /** What a middleware decides: reply with an error without running the
      handler, or run the handler, with a user attached or not. */
  datatype AuthOutcome = Reject(error: ApiError) | Proceed(principal: Option<Principal>)

  // ---------------------------------------------------------------------
  // The middlewares
  // ---------------------------------------------------------------------

  /** `req.headers['authorization']?.replace('Bearer ', '')`: absent when
      the header is, otherwise the header with its first "Bearer " cut out. */
  function BearerToken(header: Option<string>): (r: Option<string>)
    ensures header.None? <==> r.None?
    ensures header.Some? && (forall i :: !OccursAt(header.value, BEARER_PREFIX, i)) ==>
      r == header
    ensures forall i :: header.Some? && OccursAt(header.value, BEARER_PREFIX, i)
                        && FirstOccurrence(header.value, BEARER_PREFIX, i) ==>
      r == Some(header.value[..i] + header.value[i + |BEARER_PREFIX|..])
  {
    match header
    case None => None
    case Some(h) =>
      CutFirstPrefix(h);
      Some(ReplaceFirst(h, BEARER_PREFIX, ""))
  }

  /** Replacing by nothing cuts the first occurrence out. */
  lemma CutFirstPrefix(h: string)
    ensures forall i :: OccursAt(h, BEARER_PREFIX, i) && FirstOccurrence(h, BEARER_PREFIX, i) ==>
      ReplaceFirst(h, BEARER_PREFIX, "") == h[..i] + h[i + |BEARER_PREFIX|..]
  {
    forall i | OccursAt(h, BEARER_PREFIX, i) && FirstOccurrence(h, BEARER_PREFIX, i)
      ensures ReplaceFirst(h, BEARER_PREFIX, "") == h[..i] + h[i + |BEARER_PREFIX|..]
    {
      assert h[..i] + "" + h[i + |BEARER_PREFIX|..] == h[..i] + h[i + |BEARER_PREFIX|..];
    }
  }

  /** The usual header "Bearer <token>" yields exactly <token>. */
  lemma BearerTokenStripsPrefix(token: string)
    ensures BearerToken(Some(BEARER_PREFIX + token)) == Some(token)
  {
    var h := BEARER_PREFIX + token;
    assert StartsWith(h, BEARER_PREFIX);
    assert IndexOf(h, BEARER_PREFIX) == Some(0);
    assert h[..0] + "" + h[|BEARER_PREFIX|..] == token;
    assert ReplaceFirst(h, BEARER_PREFIX, "") == token;
  }

  /** A header without "Bearer " in it is taken as the token itself. */
  lemma BearerTokenRawHeader(header: string)
    requires forall i :: !OccursAt(header, BEARER_PREFIX, i)
    ensures BearerToken(Some(header)) == Some(header)
  {
  }

  /** The required middleware. It replies 401 and skips the handler when
      the token is missing, when the user it names does not exist, or when
      verification throws; otherwise it attaches that user. */
  function RequiredAuth(header: Option<string>, verify: Verifier, users: map<Id, User>): (r: AuthOutcome)
    ensures r.Reject? ==> Status(r.error) == 401
    ensures r == Reject(NotLoggedIn) <==> !Present(BearerToken(header))
    ensures r == Reject(SessionExpired) <==>
      Present(BearerToken(header)) && verify(BearerToken(header).value).None?
    ensures r == Reject(UserNotFound) <==>
      Present(BearerToken(header)) && verify(BearerToken(header).value).Some?
      && verify(BearerToken(header).value).value !in users
    ensures r.Proceed? <==>
      && Present(BearerToken(header))
      && verify(BearerToken(header).value).Some?
      && verify(BearerToken(header).value).value in users
    ensures r.Proceed? ==>
      && r.principal.Some?
      && verify(BearerToken(header).value) == Some(r.principal.value.id)
      && r.principal.value.id in users
      && r.principal.value.user == users[r.principal.value.id]
  {
    var token := BearerToken(header);
    if !Present(token) then Reject(NotLoggedIn)
    else
      match verify(token.value)
      case None => Reject(SessionExpired)
      case Some(id) =>
        if id !in users then Reject(UserNotFound)
        else Proceed(Some(Principal(id, users[id])))
  }

  /** The optional middleware never rejects: it attaches a user exactly when
      the required middleware would have let the request through, and the
      same user. */
  function OptionalAuth(header: Option<string>, verify: Verifier, users: map<Id, User>): (r: AuthOutcome)
    ensures r.Proceed?
    ensures r.principal == (match RequiredAuth(header, verify, users)
                            case Proceed(p) => p
                            case Reject(_) => None)
  {
    var token := BearerToken(header);
    if Present(token) then
      match verify(token.value)
      case Some(id) =>
        if id in users then Proceed(Some(Principal(id, users[id]))) else Proceed(None)
      case None => Proceed(None)
    else Proceed(None)
  }

  // ---------------------------------------------------------------------
  // Registration and login
  // ---------------------------------------------------------------------

  /** The user fields a reply may show. */
  datatype PublicProfile = PublicProfile(id: Id, username: string, email: string)

  /** The claims of a signed token: whose it is and how long it lives. */
  datatype TokenClaims = TokenClaims(userId: Id, expiresInDays: nat)

  /** A successful registration or login: the token's claims and the
      user's public profile. */
  datatype Session = Session(claims: TokenClaims, profile: PublicProfile)

  function IssueSession(id: Id, u: User): (s: Session)
    ensures s.claims.userId == s.profile.id == id
    ensures s.claims.expiresInDays == TOKEN_LIFETIME_DAYS
    ensures s.profile == PublicProfile(id, u.username, u.email)
  {
    Session(TokenClaims(id, TOKEN_LIFETIME_DAYS), PublicProfile(id, u.username, u.email))
  }

  /** The checks registration makes before it looks at the store: all three
      fields present, and a password of at least six characters. */
  function ValidateRegistration(username: Option<string>, email: Option<string>,
                                password: Option<string>): (r: Option<ApiError>)
    ensures r.None? <==>
      Present(username) && Present(email) && Present(password)
      && |password.value| >= MIN_PASSWORD_LENGTH
    ensures !(Present(username) && Present(email) && Present(password)) ==>
      r == Some(MissingRegistrationField)
    ensures Present(username) && Present(email) && Present(password)
            && |password.value| < MIN_PASSWORD_LENGTH ==>
      r == Some(PasswordTooShort)
    ensures r.Some? ==> Status(r.value) == 400
  {
    if !Present(username) || !Present(email) || !Present(password) then Some(MissingRegistrationField)
    else if |password.value| < MIN_PASSWORD_LENGTH then Some(PasswordTooShort)
    else None
  }

  /** `POST /api/auth/register`, with the password hash awaited. After the
      field checks, a user whose normalised username or email is taken gives
      400; a username or email that is only white space passes the presence
      check but fails the schema's `required` rule once trimmed, and the
      save error gives 500. Otherwise one user is added and a session
      issued. No failure changes the store. */
  function Register(db: Db, username: Option<string>, email: Option<string>,
                    password: Option<string>, now: nat): (r: Step<Session>)
    ensures r.reply.Fail? ==> r.db == db
    ensures ValidateRegistration(username, email, password).Some? ==>
      r.reply == Fail(ValidateRegistration(username, email, password).value)
    ensures ValidateRegistration(username, email, password).None? ==>
      (r.reply == Fail(UserAlreadyExists) <==>
       Taken(db.users, NormalizeUsername(username.value), NormalizeEmail(email.value)))
    ensures ValidateRegistration(username, email, password).None?
              && !Taken(db.users, NormalizeUsername(username.value), NormalizeEmail(email.value))
              && (NormalizeUsername(username.value) == "" || NormalizeEmail(email.value) == "") ==>
      r.reply == Fail(RegisterFailed)
    ensures r.reply.Ok? <==>
      && ValidateRegistration(username, email, password).None?
      && !Taken(db.users, NormalizeUsername(username.value), NormalizeEmail(email.value))
      && NormalizeUsername(username.value) != ""
      && NormalizeEmail(email.value) != ""
    ensures r.reply.Ok? ==>
      && r.db == db.(users := db.users[db.nextId := User(NormalizeUsername(username.value),
                                                        NormalizeEmail(email.value), now)],
                     nextId := db.nextId + 1)
      && r.reply.value == IssueSession(db.nextId, r.db.users[db.nextId])
    ensures Valid(db) ==> Valid(r.db)
  {
    match ValidateRegistration(username, email, password)
    case Some(e) => Step(db, Fail(e))
    case None =>
      var name := NormalizeUsername(username.value);
      var mail := NormalizeEmail(email.value);
      if Taken(db.users, name, mail) then Step(db, Fail(UserAlreadyExists))
      else if name == "" || mail == "" then Step(db, Fail(RegisterFailed))
      else
        var u := User(name, mail, now);
        var db' := db.(users := db.users[db.nextId := u], nextId := db.nextId + 1);
        assert Valid(db) ==> Valid(db') by {
          if Valid(db) {
            NormalizeEmailIsNormal(email.value);
            AddUserKeepsValid(db, u);
          }
        }
        Step(db', Ok(IssueSession(db.nextId, u)))
  }

  /** `POST /api/auth/register` as the source has it: the hash is not
      awaited, so the password field is given a pending promise, which the
      schema's string type refuses; the save throws and the reply is 500.
      The checks before the save reply as intended; nothing is stored. */
  function RegisterAsWritten(db: Db, username: Option<string>, email: Option<string>,
                             password: Option<string>, now: nat): (r: Step<Session>)
    ensures r.db == db
    ensures Register(db, username, email, password, now).reply.Fail? ==>
      r.reply == Register(db, username, email, password, now).reply
    ensures Register(db, username, email, password, now).reply.Ok? ==>
      r.reply == Fail(RegisterFailed)
  {
    match ValidateRegistration(username, email, password)
    case Some(e) => Step(db, Fail(e))
    case None =>
      if Taken(db.users, NormalizeUsername(username.value), NormalizeEmail(email.value)) then
        Step(db, Fail(UserAlreadyExists))
      else Step(db, Fail(RegisterFailed))
  }

  /** The discrepancy: "alice" with "a@x.com" and a six-character password
      registers on the empty store once the hash is awaited, and gets the
      500 reply as written. */
  lemma RegisterAsWrittenRejectsFreshUser()
    ensures Register(EmptyDb, Some("alice"), Some("a@x.com"), Some("secret"), 0).reply.Ok?
    ensures RegisterAsWritten(EmptyDb, Some("alice"), Some("a@x.com"), Some("secret"), 0)
              == Step(EmptyDb, Fail(RegisterFailed))
  {
    RegistrationCanSucceed();
  }

  /** The success case of registration, as one equation. */
  lemma RegisterAccepts(db: Db, username: Option<string>, email: Option<string>,
                        password: Option<string>, now: nat)
    requires ValidateRegistration(username, email, password).None?
    requires !Taken(db.users, NormalizeUsername(username.value), NormalizeEmail(email.value))
    requires NormalizeUsername(username.value) != "" && NormalizeEmail(email.value) != ""
    ensures var u := User(NormalizeUsername(username.value), NormalizeEmail(email.value), now);
            Register(db, username, email, password, now)
              == Step(db.(users := db.users[db.nextId := u], nextId := db.nextId + 1),
                      Ok(IssueSession(db.nextId, u)))
  {
  }

  /** Adding a well-formed user whose username and email are both free keeps
      the store invariant. */
  lemma AddUserKeepsValid(db: Db, u: User)
    requires Valid(db) && WellFormedUser(u) && !Taken(db.users, u.username, u.email)
    ensures Valid(db.(users := db.users[db.nextId := u], nextId := db.nextId + 1))
  {
    assert db.nextId !in db.users;
    AddUserKeepsUnique(db.users, db.nextId, u);
  }

  lemma AddUserKeepsUnique(users: map<Id, User>, id: Id, u: User)
    requires UniqueUsers(users) && id !in users && !Taken(users, u.username, u.email)
    ensures UniqueUsers(users[id := u])
  {
    var users' := users[id := u];
    forall a, b | a in users' && b in users' && a != b
      ensures users'[a].username != users'[b].username && users'[a].email != users'[b].email
    {
      if a == id {
        assert !(users[b].username == u.username || users[b].email == u.email);
      } else if b == id {
        assert !(users[a].username == u.username || users[a].email == u.email);
      }
    }
  }

  /** A second registration with the username of a user just registered
      is refused with 400, whatever email it gives. */
  lemma RegisterTwiceConflicts(db: Db, username: string, email: string, email2: string,
                               password: string, now: nat, later: nat)
    requires Register(db, Some(username), Some(email), Some(password), now).reply.Ok?
    requires Present(Some(email2))
    ensures var db1 := Register(db, Some(username), Some(email), Some(password), now).db;
            Register(db1, Some(username), Some(email2), Some(password), later)
              == Step(db1, Fail(UserAlreadyExists))
  {
    var db1 := Register(db, Some(username), Some(email), Some(password), now).db;
    assert db1.users[db.nextId].username == NormalizeUsername(username);
    assert Taken(db1.users, NormalizeUsername(username), NormalizeEmail(email2));
  }

  /** `User.findOne({ email })`: the schema's setters normalise the query,
      so it finds the user whose stored email is the normalised one. */
  ghost function FindByEmail(users: map<Id, User>, email: string): (r: Option<Id>)
    ensures r.Some? ==> r.value in users && users[r.value].email == NormalizeEmail(email)
    ensures r.None? <==> forall id :: id in users ==> users[id].email != NormalizeEmail(email)
  {
    if exists id :: id in users && users[id].email == NormalizeEmail(email) then
      var id :| id in users && users[id].email == NormalizeEmail(email);
      Some(id)
    else None
  }

  /** `POST /api/auth/login` as the source has it: the password comparison
      is not awaited, so its result is a pending promise, which is always
      truthy, and the password is never checked. */
  ghost function LoginAsWritten(users: map<Id, User>, email: Option<string>,
                                password: Option<string>): (r: Outcome<Session>)
    ensures !Present(email) || !Present(password) ==> r == Fail(MissingLoginField)
    ensures Present(email) && Present(password) ==>
      (r == Fail(BadCredentials) <==> FindByEmail(users, email.value).None?)
    ensures r.Ok? ==>
      && FindByEmail(users, email.value).Some?
      && r.value == IssueSession(FindByEmail(users, email.value).value,
                                 users[FindByEmail(users, email.value).value])
    ensures Present(email) && Present(password) && FindByEmail(users, email.value).Some? ==>
      r == Ok(IssueSession(FindByEmail(users, email.value).value,
                           users[FindByEmail(users, email.value).value]))
  {
    if !Present(email) || !Present(password) then Fail(MissingLoginField)
    else
      match FindByEmail(users, email.value)
      case None => Fail(BadCredentials)
      case Some(id) => Ok(IssueSession(id, users[id]))
  }

  /** Login with the comparison awaited: an unknown email and a wrong
      password get the same 401 reply, so the reply does not tell which
      was wrong; a session is issued only for a known email whose password
      matches. */
  ghost function Login(users: map<Id, User>, email: Option<string>, password: Option<string>,
                       check: PasswordCheck): (r: Outcome<Session>)
    ensures !Present(email) || !Present(password) ==> r == Fail(MissingLoginField)
    ensures Present(email) && Present(password) && FindByEmail(users, email.value).None? ==>
      r == Fail(BadCredentials)
    ensures Present(email) && Present(password) && FindByEmail(users, email.value).Some?
            && !check(password.value, FindByEmail(users, email.value).value) ==>
      r == Fail(BadCredentials)
    ensures r.Ok? ==>
      && Present(email) && Present(password)
      && r.value.profile.id in users
      && users[r.value.profile.id].email == NormalizeEmail(email.value)
      && check(password.value, r.value.profile.id)
    ensures Present(email) && Present(password) && FindByEmail(users, email.value).Some?
            && check(password.value, FindByEmail(users, email.value).value) ==>
      r == Ok(IssueSession(FindByEmail(users, email.value).value,
                           users[FindByEmail(users, email.value).value]))
  {
    if !Present(email) || !Present(password) then Fail(MissingLoginField)
    else
      match FindByEmail(users, email.value)
      case None => Fail(BadCredentials)
      case Some(id) =>
        if !check(password.value, id) then Fail(BadCredentials)
        else Ok(IssueSession(id, users[id]))
  }

  /** Registration can succeed: on the empty store (which is valid), "alice" with
      "a@x.com" and a six-character password gets a session, so the
      lemmas below that start from a successful registration are not
      vacuous. */
  lemma RegistrationCanSucceed()
    ensures Register(EmptyDb, Some("alice"), Some("a@x.com"), Some("secret"), 0).reply.Ok?
  {
    var username, email, password := Some("alice"), Some("a@x.com"), Some("secret");
    assert |password.value| == MIN_PASSWORD_LENGTH;
    assert ValidateRegistration(username, email, password).None?;
    NothingTakenWhenEmpty(EmptyDb.users, "alice", "a@x.com");
    PlainNamesAreNormal();
  }

  lemma NothingTakenWhenEmpty(users: map<Id, User>, username: string, email: string)
    requires users == map[]
    ensures !Taken(users, username, email)
  {
  }

  lemma PlainNamesAreNormal()
    ensures NormalizeUsername("alice") == "alice"
    ensures NormalizeEmail("a@x.com") == "a@x.com"
  {
    assert IsTrimmed("alice");
    assert IsTrimmed("a@x.com") && NoUpper("a@x.com");
  }

  /** Once registration succeeds, looking the new user up by the email
      given at registration finds exactly that user. */
  lemma RegisteredUserIsFound(db: Db, username: Option<string>, email: Option<string>,
                                                 password: Option<string>, now: nat)
    requires Valid(db) && Register(db, username, email, password, now).reply.Ok?
    ensures FindByEmail(Register(db, username, email, password, now).db.users, email.value) == Some(db.nextId)
  {
    var users := Register(db, username, email, password, now).db.users;
    var found := FindByEmail(users, email.value);
    assert users[db.nextId].email == NormalizeEmail(email.value);
    assert found.Some?;
    assert UniqueUsers(users);
  }

  /** A registered user who gives the password the check accepts gets a
      session for their own account. */
  lemma LoginAfterRegister(db: Db, username: Option<string>, email: Option<string>,
                           password: Option<string>, now: nat, check: PasswordCheck)
    requires Valid(db) && Register(db, username, email, password, now).reply.Ok?
    requires check(password.value, db.nextId)
    ensures var users := Register(db, username, email, password, now).db.users;
            Login(users, email, password, check) == Ok(IssueSession(db.nextId, users[db.nextId]))
  {
    RegisteredUserIsFound(db, username, email, password, now);
  }

  /** The discrepancy: for any stored account (one already in the database,
      since registration as written stores none), any non-empty password
      the check refuses still logs in as written, while the awaited
      comparison answers 401. */
  lemma LoginAsWrittenAcceptsWrongPassword(users: map<Id, User>, email: string, id: Id,
                                           attempt: string, check: PasswordCheck)
    requires email != "" && FindByEmail(users, email) == Some(id)
    requires attempt != "" && !check(attempt, id)
    ensures LoginAsWritten(users, Some(email), Some(attempt)) == Ok(IssueSession(id, users[id]))
    ensures Login(users, Some(email), Some(attempt), check) == Fail(BadCredentials)
  {
  }
}
