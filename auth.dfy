/** Authentication: the `protect` gate in front of every project and task
    route, login, registration, and the token-and-user response both of the
    latter send. bcrypt and jsonwebtoken are foreign: they are passed in as
    functions, with no cryptographic claim made about them. */
module Auth {
  import opened Common
  import opened UserModel
  import opened Http
  import opened Store
  import opened AuthHeader
  import opened ErrorHandling

  /** What `jwt.verify` does with a token: yields its payload's `id`, or
      throws a `JsonWebTokenError` or a `TokenExpiredError`. */
  datatype Verified = Decoded(id: Id) | BadToken | ExpiredToken

  /** The foreign primitives, with the signing secret and the token
      lifetime folded into them. bcrypt's hash takes the password, the cost
      and the salt it draws at random on every call; the salt is written
      into the hash, which is how compare finds it again. */
  datatype Crypto = Crypto(
    hash: (string, nat, string) -> string,
    compare: (string, string) -> bool,
    sign: Id -> string,
    verify: string -> Verified)

  const NotLoggedIn: string := "You are not logged in. Please login to get access"
  const UserGone: string := "User does not exist anymore"
  const MissingCredentials: string := "Please enter your username and password"
  const UnknownUsername: string := "The username you entered does not match our records."
  const IncorrectCredentials: string := "Incorrect username or password."

  /** The outcome of the gate: go on to the route's handler with the
      current user, or hand a failure to `next`. */
  datatype GateResult = Proceed(user: User) | Reject(failure: Failure)

  /** The decision `protect` makes. No token, or an empty one, is a 401
      before the token is ever verified; a token that fails verification is
      rejected with jsonwebtoken's error; a valid token whose user is no
      longer stored is a 401; only a valid token of a stored user passes,
      and it passes with that user. */
  function Gate(header: Option<string>, verify: string -> Verified, users: seq<User>): (r: GateResult)
    ensures !Present(ExtractToken(header)) ==> r == Reject(AppFailure(NotLoggedIn, 401))
    ensures Present(ExtractToken(header)) && verify(ExtractToken(header).value).BadToken? ==> r == Reject(TokenInvalid)
    ensures Present(ExtractToken(header)) && verify(ExtractToken(header).value).ExpiredToken? ==> r == Reject(TokenExpired)
    ensures r.Proceed? <==>
      && Present(ExtractToken(header))
      && verify(ExtractToken(header).value).Decoded?
      && FindById(users, verify(ExtractToken(header).value).id).Some?
    ensures r.Proceed? ==> r.user in users && verify(ExtractToken(header).value) == Decoded(r.user.id)
    ensures Present(ExtractToken(header)) && verify(ExtractToken(header).value).Decoded?
            && FindById(users, verify(ExtractToken(header).value).id).None? ==>
      r == Reject(AppFailure(UserGone, 401))
  {
    var token := ExtractToken(header);
    if !Present(token) then Reject(AppFailure(NotLoggedIn, 401))
    else match verify(token.value)
      case BadToken => Reject(TokenInvalid)
      case ExpiredToken => Reject(TokenExpired)
      case Decoded(id) =>
        match FindById(users, id)
        case None => Reject(AppFailure(UserGone, 401))
        case Some(u) => Proceed(u)
  }

  /** `protect`, step by step: it attaches the current user to the request
      when the gate passes, and otherwise leaves the request as it was and
      returns the failure for `next`. */
  method Protect(req: Request, verify: string -> Verified, users: seq<User>) returns (rejection: Option<Failure>)
    modifies req`user
    ensures match Gate(req.authorization, verify, users)
      case Proceed(u) => rejection.None? && req.user == Some(u)
      case Reject(f) => rejection == Some(f) && req.user == old(req.user)
  {
    var token := ExtractToken(req.authorization);
    if !Present(token) {
      return Some(AppFailure(NotLoggedIn, 401));
    }
    var decoded := verify(token.value);
    if decoded.BadToken? {
      return Some(TokenInvalid);
    }
    if decoded.ExpiredToken? {
      return Some(TokenExpired);
    }
    var currentUser := FindById(users, decoded.id);
    if currentUser.None? {
      return Some(AppFailure(UserGone, 401));
    }
    req.user := currentUser;
    rejection := None;
  }

  /** The outcome of the credential checks in `loginUser`. */
  datatype LoginDecision = LoggedIn(user: User) | LoginRefused(failure: Failure)

  /** The credential checks of `loginUser`, with the single `next` the
      handler evidently intends for an unknown username: missing
      credentials are a 400 before any lookup; an unknown username and a
      wrong password are the same 401, so the answer does not disclose
      which of the two it was; otherwise the user found by username is
      logged in. */
  function CheckLogin(username: Option<string>, password: Option<string>, users: seq<User>,
                      compare: (string, string) -> bool): (r: LoginDecision)
    ensures !Present(username) || !Present(password) ==> r == LoginRefused(AppFailure(MissingCredentials, 400))
    ensures r.LoggedIn? <==>
      && Present(username) && Present(password)
      && FindByUsername(users, username.value).Some?
      && CorrectPassword(password.value, FindByUsername(users, username.value).value.password, compare)
    ensures r.LoggedIn? ==> r.user in users && r.user.username == username.value && compare(password.value, r.user.password)
    ensures r.LoginRefused? && Present(username) && Present(password) ==> r.failure == AppFailure(IncorrectCredentials, 401)
  {
    if !Present(username) || !Present(password) then LoginRefused(AppFailure(MissingCredentials, 400))
    else match FindByUsername(users, username.value)
      case None => LoginRefused(AppFailure(IncorrectCredentials, 401))
      case Some(user) =>
        if !CorrectPassword(password.value, user.password, compare) then LoginRefused(AppFailure(IncorrectCredentials, 401))
        else LoggedIn(user)
  }

  /** The failures `loginUser` as written passes to `next`, in order. For an
      unknown username it calls `next` twice: first with an AppError built
      without a status code (the 400 lands in `next`'s second argument),
      then with the 401. In every case its last call agrees with
      `CheckLogin`, and it calls `next` at all exactly when `CheckLogin`
      refuses. */
  function LoginNextCalls(username: Option<string>, password: Option<string>, users: seq<User>,
                          compare: (string, string) -> bool): (r: seq<Failure>)
    ensures r == [] <==> CheckLogin(username, password, users, compare).LoggedIn?
    ensures r != [] ==> r[|r| - 1] == CheckLogin(username, password, users, compare).failure
    ensures |r| == 2 <==> Present(username) && Present(password) && FindByUsername(users, username.value).None?
    ensures |r| == 2 ==> r[0] == UncodedAppFailure(UnknownUsername)
  {
    if !Present(username) || !Present(password) then [AppFailure(MissingCredentials, 400)]
    else
      var user := FindByUsername(users, username.value);
      if user.None? || !CorrectPassword(password.value, user.value.password, compare) then
        (if user.None? then [UncodedAppFailure(UnknownUsername)] else [])
        + [AppFailure(IncorrectCredentials, 401)]
      else []
  }

  /** `loginUser` with an unknown username, as written: its first `next`
      carries an AppError without a status code, the handler defaults that
      to 500, and that first reply is the one the client gets, in
      development and in production alike. The corrected check answers
      401, exactly as for a wrong password. */
  lemma UnknownUsernameAnswered500(username: Option<string>, password: Option<string>, users: seq<User>,
                                   compare: (string, string) -> bool, lib: Library)
    requires Present(username) && Present(password) && FindByUsername(users, username.value).None?
    ensures var first := ToErr(LoginNextCalls(username, password, users, compare)[0], lib);
      && HandleAsWritten(Production, first, lib.appStatus).Sent?
      && HandleAsWritten(Production, first, lib.appStatus).reply.statusCode == 500
      && HandleAsWritten(Development, first, lib.appStatus).reply.statusCode == 500
      && HandleAsWritten(Development, first, lib.appStatus).reply.message == Some(UnknownUsername)
    ensures var refusal := ToErr(CheckLogin(username, password, users, compare).failure, lib);
      && Handle(Production, refusal, lib.appStatus).Sent?
      && Handle(Production, refusal, lib.appStatus).reply.statusCode == 401
      && Handle(Production, refusal, lib.appStatus).reply.message == Some(IncorrectCredentials)
  {
  }

  /** `createSendToken`: signs a token over the user's id, clears the
      document's password, and only then serialises the user into the
      response, so the response never carries the password. */
  method CreateSendToken(doc: UserDoc, statusCode: int, sign: Id -> string) returns (res: Response)
    modifies doc`password
    ensures doc.password.None?
    ensures res == Respond(statusCode, Session(sign(doc.id), UserView(doc.id, doc.username, doc.password, doc.createdAt)))
  {
    var token := sign(doc.id);
    doc.password := None;
    res := Respond(statusCode, Session(token, UserView(doc.id, doc.username, doc.password, doc.createdAt)));
  }

  /** `loginUser` on the path it evidently intends: a refusal is handed to
      `next`; a login answers 200 with a token over the user's id and the
      user without the password. The store is not changed. */
  method LoginUser(db: Db, crypto: Crypto, username: Option<string>, password: Option<string>) returns (res: Response)
    ensures match CheckLogin(username, password, db.users, crypto.compare)
      case LoginRefused(f) => res == Next(f)
      case LoggedIn(u) => res == Respond(200, Session(crypto.sign(u.id), UserView(u.id, u.username, None, u.createdAt)))
  {
    if !Present(username) || !Present(password) {
      return Next(AppFailure(MissingCredentials, 400));
    }
    var user := FindByUsername(db.users, username.value);
    if user.None? || !CorrectPassword(password.value, user.value.password, crypto.compare) {
      return Next(AppFailure(IncorrectCredentials, 401));
    }
    var doc := new UserDoc.Loaded(user.value);
    res := CreateSendToken(doc, 200, crypto.sign);
  }

  /** The outcome of `User.create` in `registerUser`. */
  datatype Registration = Registered(user: User) | RegistrationRefused(failure: Failure)

  /** `User.create({username, password})`: the schema's `required` rules
      first; then the save hook hashes the new password at cost 12 with the
      salt drawn for this call; then the insert, which the unique indexes
      refuse when the username, or the salted hash, is already stored. Two
      users may choose the same password: their hashes differ whenever
      their salts make them differ. */
  function Register(users: seq<User>, username: Option<string>, password: Option<string>, id: Id, createdAt: Time,
                    salt: string, hash: (string, nat, string) -> string): (r: Registration)
    ensures !Present(username) || !Present(password) ==> r == RegistrationRefused(Invalid(NewUserErrors(username, password)))
    ensures Present(username) && Present(password) && FindByUsername(users, username.value).Some? ==>
      r == RegistrationRefused(DuplicateKey("username", username.value))
    ensures Present(username) && Present(password) && FindByUsername(users, username.value).None?
            && PasswordTaken(users, hash(password.value, HashCost, salt)) ==>
      r == RegistrationRefused(DuplicateKey("password", hash(password.value, HashCost, salt)))
    ensures r.Registered? <==>
      && Present(username) && Present(password)
      && FindByUsername(users, username.value).None?
      && !PasswordTaken(users, hash(password.value, HashCost, salt))
    ensures r.Registered? ==>
      r.user == User(id, username.value, hash(password.value, HashCost, salt), createdAt)
  {
    var errors := NewUserErrors(username, password);
    if errors != [] then RegistrationRefused(Invalid(errors))
    else
      var stored := hash(password.value, HashCost, salt);
      if FindByUsername(users, username.value).Some? then RegistrationRefused(DuplicateKey("username", username.value))
      else if PasswordTaken(users, stored) then RegistrationRefused(DuplicateKey("password", stored))
      else Registered(User(id, username.value, stored, createdAt))
  }

  /** A registration keeps the unique indexes on ids, usernames and
      passwords. */
  lemma RegisterKeepsUnique(users: seq<User>, username: Option<string>, password: Option<string>, id: Id, createdAt: Time,
                            salt: string, hash: (string, nat, string) -> string)
    requires UniqueIds(users) && UniqueUsernames(users) && UniquePasswords(users)
    requires FindById(users, id).None?
    requires Register(users, username, password, id, createdAt, salt, hash).Registered?
    ensures var u := Register(users, username, password, id, createdAt, salt, hash).user;
      UniqueIds(users + [u]) && UniqueUsernames(users + [u]) && UniquePasswords(users + [u])
  {
  }

  /** Two users may register with the same password: once the first is
      stored, the second, under another username, is stored as well
      whenever the salts drawn for the two calls give different hashes. */
  lemma SharedPasswordRegisters(users: seq<User>, first: string, second: string, password: string, id1: Id, id2: Id,
                                createdAt: Time, salt1: string, salt2: string, hash: (string, nat, string) -> string)
    requires Register(users, Some(first), Some(password), id1, createdAt, salt1, hash).Registered?
    requires Present(Some(second)) && second != first && FindByUsername(users, second).None?
    requires !PasswordTaken(users, hash(password, HashCost, salt2))
    requires hash(password, HashCost, salt1) != hash(password, HashCost, salt2)
    ensures var stored := users + [Register(users, Some(first), Some(password), id1, createdAt, salt1, hash).user];
      Register(stored, Some(second), Some(password), id2, createdAt, salt2, hash).Registered?
  {
  }

  /** A user who has just registered can log in with the same credentials,
      given that bcrypt's compare accepts a password against its own salted
      hash. */
  lemma RegisterThenLogin(users: seq<User>, username: Option<string>, password: Option<string>, id: Id, createdAt: Time,
                          salt: string, crypto: Crypto)
    requires Register(users, username, password, id, createdAt, salt, crypto.hash).Registered?
    requires Present(password) ==> crypto.compare(password.value, crypto.hash(password.value, HashCost, salt))
    ensures var u := Register(users, username, password, id, createdAt, salt, crypto.hash).user;
      CheckLogin(username, password, users + [u], crypto.compare) == LoggedIn(u)
  {
    var u := Register(users, username, password, id, createdAt, salt, crypto.hash).user;
    FindByUsernameAppended(users, u);
  }

  /** `registerUser`: creates the user with a hashed password and answers
      201 with a token and the user without the password; a refused
      registration changes nothing and goes to `next`. */
  method RegisterUser(db: Db, crypto: Crypto, username: Option<string>, password: Option<string>, id: Id, salt: string)
    returns (res: Response)
    requires db.Valid() && FindById(db.users, id).None?
    modifies db
    ensures db.Valid()
    ensures db.projects == old(db.projects) && db.tasks == old(db.tasks)
    ensures match Register(old(db.users), username, password, id, db.userCreatedAt, salt, crypto.hash)
      case Registered(u) =>
        && db.users == old(db.users) + [u]
        && res == Respond(201, Session(crypto.sign(id), UserView(id, u.username, None, u.createdAt)))
      case RegistrationRefused(f) => db.users == old(db.users) && res == Next(f)
  {
    var errors := NewUserErrors(username, password);
    if errors != [] {
      return Next(Invalid(errors));
    }
    var doc := new UserDoc.New(id, username.value, password.value, db.userCreatedAt);
    doc.PreSave(crypto.hash, salt);
    var stored := doc.password.value;
    if FindByUsername(db.users, doc.username).Some? {
      return Next(DuplicateKey("username", doc.username));
    }
    if PasswordTaken(db.users, stored) {
      return Next(DuplicateKey("password", stored));
    }
    RegisterKeepsUnique(db.users, username, password, id, db.userCreatedAt, salt, crypto.hash);
    db.users := db.users + [User(id, doc.username, stored, doc.createdAt)];
    res := CreateSendToken(doc, 201, crypto.sign);
  }
}
