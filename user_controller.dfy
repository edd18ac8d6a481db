/** The handlers of `src/controllers/user.controller.js`: registration, which
    appends to the `users` table, and login, which only reads it. The email
    grammar Joi applies is the parameter `isEmail`; the bcrypt salt, the jwt
    secret and the token lifetime are parameters too. */
module UserController {
  import opened Common
  import opened Schema
  import opened Crypto
  import opened Http
  import opened UserService
  import Db

  /** The body of POST /users: the three schema keys and the names of any other keys, in order. */
  datatype UserBody = UserBody(username: Field, email: Field, password: Field, unknownKeys: seq<string>)

  /** The body of POST /userAuthentication. */
  datatype LoginBody = LoginBody(email: Field, password: Field, unknownKeys: seq<string>)

  /** The validated `{ username, email, password }`. */
  datatype Registration = Registration(username: string, email: string, password: string)

  /** The validated `{ email, password }`. */
  datatype Credentials = Credentials(email: string, password: string)

  const EmailTaken := Failure(400, Text("Email already exists"))
  const InvalidCredentials := Failure(401, Text("Invalid email or password"))

  /** Joi `string().email().required()`. */
  predicate EmailField(f: Field, isEmail: string -> bool)
  {
    f.Str? && isEmail(f.s)
  }

  /** What `userSchema` admits, independent of the order Joi checks keys in. */
  predicate UserSchemaAccepts(body: UserBody, isEmail: string -> bool)
  {
    && StringOfLength(body.username, 3, 30)
    && EmailField(body.email, isEmail)
    && StringOfLength(body.password, 6, 30)
    && body.unknownKeys == []
  }

  /** What the login schema (`email` and `password` of `userSchema`) admits. */
  predicate LoginSchemaAccepts(body: LoginBody, isEmail: string -> bool)
  {
    && EmailField(body.email, isEmail)
    && StringOfLength(body.password, 6, 30)
    && body.unknownKeys == []
  }

  /** `validateRegisterUser.validate(req.body)`: keys in schema order, then
      unknown keys; the first failure is reported as 400. */
  function ValidateRegisterUser(body: UserBody, isEmail: string -> bool): (r: Result<Registration>)
    ensures r.Ok? <==> UserSchemaAccepts(body, isEmail)
    ensures r.Ok? ==> r.value == Registration(body.username.s, body.email.s, body.password.s)
    ensures r.Err? ==> r.failure.status == 400
    ensures !StringOfLength(body.username, 3, 30) ==> r == Err(Failure(400, InvalidKey("username")))
    ensures StringOfLength(body.username, 3, 30) && !EmailField(body.email, isEmail) ==>
              r == Err(Failure(400, InvalidKey("email")))
    ensures StringOfLength(body.username, 3, 30) && EmailField(body.email, isEmail) &&
            !StringOfLength(body.password, 6, 30) ==>
              r == Err(Failure(400, InvalidKey("password")))
  {
    if !StringOfLength(body.username, 3, 30) then Err(Failure(400, InvalidKey("username")))
    else if !EmailField(body.email, isEmail) then Err(Failure(400, InvalidKey("email")))
    else if !StringOfLength(body.password, 6, 30) then Err(Failure(400, InvalidKey("password")))
    else if body.unknownKeys != [] then Err(Failure(400, InvalidKey(body.unknownKeys[0])))
    else Ok(Registration(body.username.s, body.email.s, body.password.s))
  }

  /** `validateLoginUser.validate(req.body)`. */
  function ValidateLoginUser(body: LoginBody, isEmail: string -> bool): (r: Result<Credentials>)
    ensures r.Ok? <==> LoginSchemaAccepts(body, isEmail)
    ensures r.Ok? ==> r.value == Credentials(body.email.s, body.password.s)
    ensures r.Err? ==> r.failure.status == 400
    ensures !EmailField(body.email, isEmail) ==> r == Err(Failure(400, InvalidKey("email")))
    ensures EmailField(body.email, isEmail) && !StringOfLength(body.password, 6, 30) ==>
              r == Err(Failure(400, InvalidKey("password")))
  {
    if !EmailField(body.email, isEmail) then Err(Failure(400, InvalidKey("email")))
    else if !StringOfLength(body.password, 6, 30) then Err(Failure(400, InvalidKey("password")))
    else if body.unknownKeys != [] then Err(Failure(400, InvalidKey(body.unknownKeys[0])))
    else Ok(Credentials(body.email.s, body.password.s))
  }

  /** Every body registration accepts is, cut down to email and password, a body login accepts. */
  lemma RegisterBodyPassesLogin(body: UserBody, isEmail: string -> bool)
    requires ValidateRegisterUser(body, isEmail).Ok?
    ensures ValidateLoginUser(LoginBody(body.email, body.password, []), isEmail) ==
              Ok(Credentials(body.email.s, body.password.s))
  {
  }

  /** POST /users. The bcrypt salt is the parameter `salt`. */
  method RegisterUser(db: Db.Store, body: UserBody, isEmail: string -> bool, salt: nat)
    returns (resp: Response)
    requires db.Valid()
    modifies db`users, db`nextUserId
    ensures db.Valid()
    ensures ValidateRegisterUser(body, isEmail).Err? ==>
              && resp == Rejection(ValidateRegisterUser(body, isEmail).failure)
              && db.users == old(db.users) && db.nextUserId == old(db.nextUserId)
    ensures ValidateRegisterUser(body, isEmail).Ok? &&
            GetUserByEmailQuery(old(db.users), ValidateRegisterUser(body, isEmail).value.email).Some? ==>
              && resp == Rejection(EmailTaken)
              && db.users == old(db.users) && db.nextUserId == old(db.nextUserId)
    ensures ValidateRegisterUser(body, isEmail).Ok? &&
            GetUserByEmailQuery(old(db.users), ValidateRegisterUser(body, isEmail).value.email).None? ==>
              var v := ValidateRegisterUser(body, isEmail).value;
              && resp == Response(201, SuccessKey(true), Text("User registered successfully"),
                                  Profile(v.username, v.email))
              && db.users == old(db.users) + [User(old(db.nextUserId), v.username, v.email,
                                                   Hash(v.password, SaltRounds, salt))]
              && db.nextUserId == old(db.nextUserId) + 1
  {
    var validated := ValidateRegisterUser(body, isEmail);
    match validated {
      case Err(f) =>
        resp := Rejection(f);
      case Ok(v) =>
        var checkUser := GetUserByEmailQuery(db.users, v.email);
        if checkUser.Some? {
          resp := Rejection(EmailTaken);
        } else {
          var hashed := Hash(v.password, SaltRounds, salt);
          var result := CreateUserQuery(db, v.username, v.email, hashed);
          if result.affectedRows == 0 {
            resp := Rejection(Failure(500, Text("Failed to register user")));
          } else {
            resp := Response(201, SuccessKey(true), Text("User registered successfully"),
                             Profile(v.username, v.email));
          }
        }
    }
  }

  /** The claims `loginUser` puts in the token and in the response: `{ id, email, username }`. */
  function CurrentUser(u: User): Claims
  {
    Claims(u.id, u.email, u.username)
  }

  /** POST /userAuthentication. A validation failure is reported under the
      key `status`, before any lookup; an unknown email and a wrong password
      get the same 401. */
  function LoginUser(users: seq<User>, body: LoginBody, isEmail: string -> bool,
                     secret: string, expiresIn: string): (resp: Response)
    ensures ValidateLoginUser(body, isEmail).Err? ==>
              resp == Response(400, StatusKey(false), ValidateLoginUser(body, isEmail).failure.message, NoData)
    ensures ValidateLoginUser(body, isEmail).Ok? ==>
              var c := ValidateLoginUser(body, isEmail).value;
              var found := GetUserByEmailQuery(users, c.email);
              && (found.None? ==> resp == Rejection(InvalidCredentials))
              && (found.Some? && !Compare(c.password, found.value.password) ==> resp == Rejection(InvalidCredentials))
              && (found.Some? && Compare(c.password, found.value.password) ==>
                    && resp.status == 200 && resp.flag == SuccessKey(true) && resp.message == Text("Login Success")
                    && resp.data == Session(Sign(CurrentUser(found.value), secret, expiresIn), CurrentUser(found.value)))
    ensures resp.status == 200 ==>
              && resp.data.Session? && resp.data.token.payload == resp.data.user
              && exists u :: u in users && resp.data.user == CurrentUser(u) && Compare(body.password.s, u.password)
  {
    match ValidateLoginUser(body, isEmail)
    case Err(f) => Response(400, StatusKey(false), f.message, NoData)
    case Ok(c) =>
      var checkUser := GetUserByEmailQuery(users, c.email);
      if checkUser.None? || !Compare(c.password, checkUser.value.password) then
        Rejection(InvalidCredentials)
      else
        var currentUser := CurrentUser(checkUser.value);
        Response(200, SuccessKey(true), Text("Login Success"),
                 Session(Sign(currentUser, secret, expiresIn), currentUser))
  }

  /** Right after a successful registration, logging in with the same email
      and password succeeds and returns the new row's id, email and username. */
  lemma RegisteredUserCanLogIn(users: seq<User>, id: int, body: UserBody, isEmail: string -> bool,
                               salt: nat, secret: string, expiresIn: string)
    requires ValidateRegisterUser(body, isEmail).Ok?
    requires GetUserByEmailQuery(users, body.email.s).None?
    ensures var v := ValidateRegisterUser(body, isEmail).value;
            var claims := Claims(id, v.email, v.username);
            LoginUser(users + [User(id, v.username, v.email, Hash(v.password, SaltRounds, salt))],
                      LoginBody(body.email, body.password, []), isEmail, secret, expiresIn)
              == Response(200, SuccessKey(true), Text("Login Success"), Session(Sign(claims, secret, expiresIn), claims))
  {
    var v := ValidateRegisterUser(body, isEmail).value;
    var u := User(id, v.username, v.email, Hash(v.password, SaltRounds, salt));
    RegisterBodyPassesLogin(body, isEmail);
    CreatedUserFoundByEmail(users, u);
    CompareHash(v.password, v.password, SaltRounds, salt);
  }

  /** After that registration, a password whose key stream differs from the
      registered one's is refused with the same answer as an email nobody
      registered. When both passwords fit in 72 UTF-8 bytes and hold no
      U+0000, that is any other password (`Crypto.ShortPasswordsCompareExactly`). */
  lemma OtherPasswordRefused(users: seq<User>, id: int, body: UserBody, isEmail: string -> bool,
                             salt: nat, guess: string, secret: string, expiresIn: string)
    requires ValidateRegisterUser(body, isEmail).Ok?
    requires GetUserByEmailQuery(users, body.email.s).None?
    requires StringOfLength(Str(guess), 6, 30) && BcryptKey(guess) != BcryptKey(body.password.s)
    ensures var v := ValidateRegisterUser(body, isEmail).value;
            var after := users + [User(id, v.username, v.email, Hash(v.password, SaltRounds, salt))];
            && LoginUser(after, LoginBody(body.email, Str(guess), []), isEmail, secret, expiresIn)
                 == Rejection(InvalidCredentials)
            && LoginUser(users, LoginBody(body.email, Str(guess), []), isEmail, secret, expiresIn)
                 == Rejection(InvalidCredentials)
  {
    var v := ValidateRegisterUser(body, isEmail).value;
    var u := User(id, v.username, v.email, Hash(v.password, SaltRounds, salt));
    CreatedUserFoundByEmail(users, u);
    CompareHash(guess, v.password, SaltRounds, salt);
  }

  /** After that registration, a different password with the same key stream
      logs in as that user too: one that shares the first 72 UTF-8 bytes (the
      schema admits 30 characters of three bytes each, which is 90 bytes), or
      one that repeats the password after a U+0000. */
  lemma SharedKeyPasswordLogsIn(users: seq<User>, id: int, body: UserBody, isEmail: string -> bool,
                                salt: nat, guess: string, secret: string, expiresIn: string)
    requires ValidateRegisterUser(body, isEmail).Ok?
    requires GetUserByEmailQuery(users, body.email.s).None?
    requires StringOfLength(Str(guess), 6, 30) && BcryptKey(guess) == BcryptKey(body.password.s)
    ensures var v := ValidateRegisterUser(body, isEmail).value;
            var claims := Claims(id, v.email, v.username);
            LoginUser(users + [User(id, v.username, v.email, Hash(v.password, SaltRounds, salt))],
                      LoginBody(body.email, Str(guess), []), isEmail, secret, expiresIn)
              == Response(200, SuccessKey(true), Text("Login Success"), Session(Sign(claims, secret, expiresIn), claims))
  {
    var v := ValidateRegisterUser(body, isEmail).value;
    var u := User(id, v.username, v.email, Hash(v.password, SaltRounds, salt));
    CreatedUserFoundByEmail(users, u);
    CompareHash(guess, v.password, SaltRounds, salt);
  }
}
