/** The authentication routes: `POST /login`, `GET /me`, `POST /change-password`
    and `POST /logout`. Password comparison (`user.comparePassword`), the
    save-time password hash and JWT signing are passed in as functions, so
    every property below holds for any comparison, hash and signer. */
module AuthRoutes {
  import opened Common
  import Store
  import Seqs
  import Text

  datatype User = User(
    id: nat,
    email: string,
    passwordHash: string,
    name: string,
    role: string,
    isActive: bool,
    lastLogin: Option<int>)

  /** The user as the API returns it: id, email, name and role. */
  datatype PublicUser = PublicUser(id: nat, email: string, name: string, role: string)

  /** The JWT payload and options: `{userId, email}` with `expiresIn: '7d'`. */
  datatype TokenPayload = TokenPayload(userId: nat, email: string, expiresIn: string)

  const TokenLifetime := "7d"

  datatype LoginResult =
    | LoginOk(token: string, user: PublicUser)
    | LoginError(status: nat, message: string)

  datatype Outcome = Outcome(status: nat, message: string)

  function ToPublic(u: User): (p: PublicUser)
    ensures p.id == u.id && p.email == u.email
    ensures p.name == u.name && p.role == u.role
  {
    PublicUser(u.id, u.email, u.name, u.role)
  }

  /** Nothing derived from the stored password reaches the public projection. */
  lemma ToPublicHidesPassword(u: User, otherHash: string)
    ensures ToPublic(u.(passwordHash := otherHash)) == ToPublic(u)
    ensures ToPublic(u.(lastLogin := None)) == ToPublic(u)
  {
  }

  // ---------------------------------------------------------------- login

  /** The value `User.findOne({ email })` looks for: the `email` path is
      `lowercase`, and Mongoose applies the path's setter to a query value too. */
  function EmailQuery(email: string): (q: string)
    ensures |q| == |email| && Text.Lowercase(q)
    ensures Text.ToLower(q) == q
  {
    Text.ToLowerIdempotent(email);
    Text.ToLower(email)
  }

  /** The filter `{ email: q }`. */
  function EmailIs(q: string): User -> bool {
    (u: User) => u.email == q
  }

  /** The steps of the login chain, in the order the handler takes them. */
  datatype LoginStep =
    | MissingCredentials
    | UnknownEmail
    | WrongPassword
    | Deactivated
    | Granted(index: nat)

  /** Where the login chain stops: input check, lookup by email, password,
      active flag. */
  function DecideLogin(users: seq<User>, email: Option<string>, password: Option<string>,
                       matches: (string, string) -> bool): (d: LoginStep)
    ensures d.Granted? ==> d.index < |users| && Truthy(email) && users[d.index].email == EmailQuery(email.value)
  {
    if !Truthy(email) || !Truthy(password) then MissingCredentials
    else
      match Store.FindFirst(users, EmailIs(EmailQuery(email.value)))
      case None => UnknownEmail
      case Some(i) =>
        if !matches(users[i].passwordHash, password.value) then WrongPassword
        else if !users[i].isActive then Deactivated
        else Granted(i)
  }

  function LoginFailure(d: LoginStep): (o: Outcome)
    requires !d.Granted?
  {
    match d
    case MissingCredentials => Outcome(400, "Email and password are required")
    case UnknownEmail => Outcome(401, "Invalid credentials")
    case WrongPassword => Outcome(401, "Invalid credentials")
    case Deactivated => Outcome(403, "Account is deactivated")
  }

  /** The response to a login, as a function of the store and the body. */
  function LoginResponse(users: seq<User>, email: Option<string>, password: Option<string>,
                         matches: (string, string) -> bool,
                         sign: TokenPayload -> string): (r: LoginResult)
  {
    var d := DecideLogin(users, email, password, matches);
    if d.Granted? then
      var u := users[d.index];
      LoginOk(sign(TokenPayload(u.id, u.email, TokenLifetime)), ToPublic(u))
    else
      var o := LoginFailure(d);
      LoginError(o.status, o.message)
  }

  /** A falsy email or password is answered with 400 whatever the store
      holds: the check comes before any lookup. */
  lemma MissingCredentialsBeforeLookup(users: seq<User>, others: seq<User>,
                                       email: Option<string>, password: Option<string>,
                                       matches: (string, string) -> bool,
                                       sign: TokenPayload -> string)
    requires !Truthy(email) || !Truthy(password)
    ensures LoginResponse(users, email, password, matches, sign)
         == LoginResponse(others, email, password, matches, sign)
         == LoginError(400, "Email and password are required")
  {
  }

  /** Enumeration resistance: an unknown email and a known email with a
      wrong password get the same 401 "Invalid credentials". */
  lemma UnknownEmailLooksLikeWrongPassword(users: seq<User>, email: Option<string>,
                                          password: Option<string>,
                                          matches: (string, string) -> bool,
                                          sign: TokenPayload -> string)
    requires DecideLogin(users, email, password, matches) in {UnknownEmail, WrongPassword}
    ensures LoginResponse(users, email, password, matches, sign) == LoginError(401, "Invalid credentials")
  {
  }

  /** The same in terms of the store: removing every account with the email
      does not change the answer to a wrong password. */
  lemma {:induction false} WrongPasswordIndistinguishable(users: seq<User>, email: string,
                                                         password: string,
                                                         matches: (string, string) -> bool,
                                                         sign: TokenPayload -> string)
    requires email != "" && password != ""
    requires forall i :: 0 <= i < |users| && users[i].email == EmailQuery(email) ==> !matches(users[i].passwordHash, password)
    ensures LoginResponse(users, Some(email), Some(password), matches, sign)
         == LoginResponse(Seqs.Filter(users, (u: User) => u.email != EmailQuery(email)), Some(email), Some(password), matches, sign)
         == LoginError(401, "Invalid credentials")
  {
    var rest := Seqs.Filter(users, (u: User) => u.email != EmailQuery(email));
    var r := Store.FindFirst(rest, EmailIs(EmailQuery(email)));
    assert r.None?;
  }

  /** The active flag is consulted only after the password matched: a
      deactivated account with a wrong password still gets 401, and 403 means
      the password was right. */
  lemma DeactivatedOnlyAfterPassword(users: seq<User>, email: Option<string>,
                                     password: Option<string>,
                                     matches: (string, string) -> bool)
    ensures DecideLogin(users, email, password, matches) == Deactivated
        <==> Truthy(email) && Truthy(password)
             && var f := Store.FindFirst(users, EmailIs(EmailQuery(email.value)));
                f.Some? && matches(users[f.value].passwordHash, password.value)
                && !users[f.value].isActive
  {
  }

  /** A login succeeds exactly when both fields are given, the first account
      with the email exists, its password matches and it is active; the token
      carries exactly that user's id and email, valid for seven days. */
  lemma LoginSucceedsExactly(users: seq<User>, email: Option<string>, password: Option<string>,
                             matches: (string, string) -> bool,
                             sign: TokenPayload -> string)
    ensures LoginResponse(users, email, password, matches, sign).LoginOk?
        <==> Truthy(email) && Truthy(password)
             && var f := Store.FindFirst(users, EmailIs(EmailQuery(email.value)));
                f.Some? && matches(users[f.value].passwordHash, password.value)
                && users[f.value].isActive
    ensures var r := LoginResponse(users, email, password, matches, sign);
            r.LoginOk? ==> && Truthy(email)
                           && var f := Store.FindFirst(users, EmailIs(EmailQuery(email.value)));
                              && f.Some?
                              && users[f.value].email == EmailQuery(email.value)
                              && r.token == sign(TokenPayload(users[f.value].id, users[f.value].email, "7d"))
                              && r.user == ToPublic(users[f.value])
  {
    var d := DecideLogin(users, email, password, matches);
    if d.Granted? {
      assert users[d.index].email == EmailQuery(email.value);
    }
  }

  /** The case of the address given does not matter: two addresses that
      lower-case alike get the same answer. */
  lemma LoginIgnoresEmailCase(users: seq<User>, email: string, other: string, password: Option<string>,
                              matches: (string, string) -> bool, sign: TokenPayload -> string)
    requires email != "" && Text.ToLower(email) == Text.ToLower(other)
    ensures LoginResponse(users, Some(email), password, matches, sign)
         == LoginResponse(users, Some(other), password, matches, sign)
  {
    assert other != "";
  }

  // ------------------------------------------------------- change password

  datatype PasswordStep = MissingPasswords | TooShort | WrongCurrent | PasswordChanged

  const MinPasswordLength := 6

  function DecideChangePassword(current: Option<string>, next: Option<string>, storedHash: string,
                                matches: (string, string) -> bool): (d: PasswordStep)
    ensures d == PasswordChanged ==> Truthy(next) && Text.Utf16Length(next.value) >= MinPasswordLength
  {
    if !Truthy(current) || !Truthy(next) then MissingPasswords
    else if Text.Utf16Length(next.value) < MinPasswordLength then TooShort
    else if !matches(storedHash, current.value) then WrongCurrent
    else PasswordChanged
  }

  function PasswordFailure(d: PasswordStep): (o: Outcome)
    requires d != PasswordChanged
  {
    match d
    case MissingPasswords => Outcome(400, "Current and new password are required")
    case TooShort => Outcome(400, "New password must be at least 6 characters")
    case WrongCurrent => Outcome(401, "Current password is incorrect")
  }

  /** The checks run in order: presence, then length (six is enough), then
      the current password, which is compared only once the first two pass. */
  lemma ChangePasswordOrder(current: Option<string>, next: Option<string>, storedHash: string,
                            matches: (string, string) -> bool)
    ensures var d := DecideChangePassword(current, next, storedHash, matches);
            && (d == MissingPasswords <==> !Truthy(current) || !Truthy(next))
            && (d == TooShort <==> Truthy(current) && Truthy(next) && Text.Utf16Length(next.value) < 6)
            && (d == WrongCurrent <==> Truthy(current) && Truthy(next) && Text.Utf16Length(next.value) >= 6
                                       && !matches(storedHash, current.value))
            && (d == PasswordChanged <==> Truthy(current) && Truthy(next) && Text.Utf16Length(next.value) >= 6
                                          && matches(storedHash, current.value))
  {
  }

  // ------------------------------------- change password over JSON values

  /** A JSON scalar a client may send as `newPassword`. */
  datatype JsonScalar = JString(text: string) | JNumber(number: int) | JBool(flag: bool)

  /** JavaScript truthiness of a scalar. */
  predicate JsonTruthy(v: JsonScalar) {
    match v
    case JString(t) => t != ""
    case JNumber(n) => n != 0
    case JBool(b) => b
  }

  /** `v.length < 6`: only a string has a `length`; for a number or a boolean
      it is `undefined`, and `undefined < 6` is false. */
  predicate ShorterThanMinimum(v: JsonScalar) {
    v.JString? && Text.Utf16Length(v.text) < MinPasswordLength
  }

  /** The string the `password` path stores after Mongoose casts the value. */
  function CastToString(v: JsonScalar): (t: string)
    ensures v.JString? ==> t == v.text
    ensures v.JNumber? && v.number >= 0 ==> t == Text.DecimalString(v.number)
  {
    match v
    case JString(t) => t
    case JNumber(n) => if n >= 0 then Text.DecimalString(n) else "-" + Text.DecimalString(-n)
    case JBool(b) => if b then "true" else "false"
  }

  /** The checks of `POST /change-password` as written, over whatever JSON
      scalar the body carries as `newPassword`. */
  function DecideChangePasswordAsWritten(current: Option<string>, next: Option<JsonScalar>, storedHash: string,
                                         matches: (string, string) -> bool): (d: PasswordStep)
    ensures next.Some? && next.value.JString? ==>
              d == DecideChangePassword(current, Some(next.value.text), storedHash, matches)
    ensures d == PasswordChanged <==>
              Truthy(current) && next.Some? && JsonTruthy(next.value) && !ShorterThanMinimum(next.value)
              && matches(storedHash, current.value)
  {
    if !Truthy(current) || next.None? || !JsonTruthy(next.value) then MissingPasswords
    else if ShorterThanMinimum(next.value) then TooShort
    else if !matches(storedHash, current.value) then WrongCurrent
    else PasswordChanged
  }

  /** As written, the number 12 passes the length check and becomes the
      two-character password "12". */
  lemma NumericPasswordSkipsLength(storedHash: string, matches: (string, string) -> bool)
    requires matches(storedHash, "secret")
    ensures DecideChangePasswordAsWritten(Some("secret"), Some(JNumber(12)), storedHash, matches) == PasswordChanged
    ensures CastToString(JNumber(12)) == "12"
    ensures Text.Utf16Length(CastToString(JNumber(12))) < MinPasswordLength
  {
    assert Text.DecimalString(1) == "1";
    assert Text.DecimalString(12) == Text.DecimalString(1) + "2";
    Text.Utf16LengthOfBmp("12");
  }

  // ---------------------------------------------------------------- server

  /** The user collection and one client's session. */
  class AuthServer {
    var users: seq<User>
    var session: Option<Session>

    /** Ids are unique, and every stored address went through the
        `lowercase` setter. */
    ghost predicate Valid()
      reads this
    {
      && Store.UniqueIds(users, (u: User) => u.id)
      && forall i :: 0 <= i < |users| ==> Text.Lowercase(users[i].email)
    }

    constructor (initial: seq<User>)
      requires Store.UniqueIds(initial, (u: User) => u.id)
      requires forall i :: 0 <= i < |initial| ==> Text.Lowercase(initial[i].email)
      ensures Valid() && users == initial && session == Some(Session(None, None))
    {
      users := initial;
      session := Some(Session(None, None));
    }

    /** `POST /login`. On success `lastLogin` becomes `now` and the session
        holds the user's id and email; on every failure nothing changes. */
    method Login(email: Option<string>, password: Option<string>, now: int,
                 matches: (string, string) -> bool, sign: TokenPayload -> string)
      returns (r: LoginResult)
      requires Valid()
      modifies this
      ensures Valid()
      ensures r == LoginResponse(old(users), email, password, matches, sign)
      ensures var d := DecideLogin(old(users), email, password, matches);
              if d.Granted? then
                && users == old(users)[d.index := old(users)[d.index].(lastLogin := Some(now))]
                && session == Some(Session(Some(old(users)[d.index].id), Some(old(users)[d.index].email)))
              else
                users == old(users) && session == old(session)
    {
      if !Truthy(email) || !Truthy(password) {
        return LoginError(400, "Email and password are required");
      }
      var found := Store.FindFirst(users, EmailIs(EmailQuery(email.value)));
      if found.None? {
        return LoginError(401, "Invalid credentials");
      }
      var i := found.value;
      var user := users[i];
      if !matches(user.passwordHash, password.value) {
        return LoginError(401, "Invalid credentials");
      }
      if !user.isActive {
        return LoginError(403, "Account is deactivated");
      }
      user := user.(lastLogin := Some(now));
      Store.ReplaceKeepsIds(users, (u: User) => u.id, i, user);
      users := users[i := user];
      var token := sign(TokenPayload(user.id, user.email, TokenLifetime));
      session := Some(Session(Some(user.id), Some(user.email)));
      r := LoginOk(token, ToPublic(user));
    }

    /** `GET /me` for the user the `authenticate` gate attached. */
    method Me(index: nat) returns (p: PublicUser)
      requires Valid() && index < |users|
      ensures p == ToPublic(users[index])
    {
      p := ToPublic(users[index]);
    }

    /** `POST /change-password` for the authenticated user at `index`: the
        stored hash changes to `hash(newPassword)` only when every check passes. */
    method ChangePassword(index: nat, current: Option<string>, next: Option<string>,
                          matches: (string, string) -> bool, hash: string -> string)
      returns (o: Outcome)
      requires Valid() && index < |users|
      modifies this
      ensures Valid() && session == old(session)
      ensures var d := DecideChangePassword(current, next, old(users)[index].passwordHash, matches);
              if d == PasswordChanged then
                && o == Outcome(200, "Password updated successfully")
                && users == old(users)[index := old(users)[index].(passwordHash := hash(next.value))]
              else
                o == PasswordFailure(d) && users == old(users)
    {
      if !Truthy(current) || !Truthy(next) {
        return Outcome(400, "Current and new password are required");
      }
      if Text.Utf16Length(next.value) < MinPasswordLength {
        return Outcome(400, "New password must be at least 6 characters");
      }
      if !matches(users[index].passwordHash, current.value) {
        return Outcome(401, "Current password is incorrect");
      }
      var user := users[index].(passwordHash := hash(next.value));
      Store.ReplaceKeepsIds(users, (u: User) => u.id, index, user);
      users := users[index := user];
      o := Outcome(200, "Password updated successfully");
    }

    /** `POST /logout` destroys the session. */
    method Logout() returns (o: Outcome)
      requires Valid()
      modifies this
      ensures Valid() && users == old(users) && session == None
      ensures o == Outcome(200, "Logged out successfully")
    {
      session := None;
      o := Outcome(200, "Logged out successfully");
    }
  }
}
