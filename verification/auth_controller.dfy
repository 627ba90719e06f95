/**
 The account endpoints (backend/src/controllers/authController.js): signup,
 login and the profile of the signed-in user, over the list of users kept in
 a JSON file.

 The list as read from disk is a parameter, and a file that cannot be read
 counts as empty, as in the source. Whether the write succeeds is a
 parameter. So are password hashing, `bcrypt.compare`, token signing and the
 clock.
 */
module AuthController {

  import opened Common
  import opened Strings

  /** A stored account; `id` is the decimal epoch-millisecond time of its
      creation. */
  datatype User = User(id: string, email: string, passwordHash: string, createdAt: string)

  /** `req.body.email` and `req.body.password`; `None` when absent. */
  datatype Credentials = Credentials(email: Option<string>, password: Option<string>)

  /** A field is given when it is present and not empty (`!x` is false). */
  predicate Given(v: Option<string>)
  {
    v.Some? && v.value != ""
  }

  /** The outside world of the endpoints: `bcrypt.hash` with a fresh salt,
      `bcrypt.compare`, `jwt.sign` of a user id, and the clock as epoch
      milliseconds and as an ISO-8601 string. */
  datatype AuthEnv = AuthEnv(
    hash: string -> string,
    verify: (string, string) -> bool,
    sign: string -> string,
    now: nat,
    isoNow: string)

  /** A response status and message, the user list afterwards, and the user
      and token of the response body. */
  datatype AuthOutcome = AuthOutcome(status: nat, message: string, users: seq<User>, user: Option<User>,
                                     token: Option<string>)

  const MinPasswordLength: nat := 6

  /** Stored emails are lower-cased. */
  predicate EmailsLower(users: seq<User>)
  {
    forall i :: 0 <= i < |users| ==> ToLower(users[i].email) == users[i].email
  }

  /** No two accounts share an email. */
  predicate UniqueEmails(users: seq<User>)
  {
    forall i, j :: 0 <= i < j < |users| ==> users[i].email != users[j].email
  }

  /** The index of the first user with the given email: `users.find`. */
  function FirstWithEmail(users: seq<User>, email: string): (r: Option<nat>)
    ensures r.Some? ==> r.value < |users| && users[r.value].email == email
    ensures r.Some? ==> forall k :: 0 <= k < r.value ==> users[k].email != email
    ensures r.None? <==> forall k :: 0 <= k < |users| ==> users[k].email != email
  {
    if |users| == 0 then None
    else if users[0].email == email then Some(0)
    else
      var r := FirstWithEmail(users[1..], email);
      if r.Some? then Some(r.value + 1) else None
  }

  /** The index of the first user with the given id. */
  function FirstWithId(users: seq<User>, id: string): (r: Option<nat>)
    ensures r.Some? ==> r.value < |users| && users[r.value].id == id
    ensures r.None? <==> forall k :: 0 <= k < |users| ==> users[k].id != id
  {
    if |users| == 0 then None
    else if users[0].id == id then Some(0)
    else
      var r := FirstWithId(users[1..], id);
      if r.Some? then Some(r.value + 1) else None
  }

  /** The rest of a signup once the duplicate check has decided: a duplicate
      is a 400; otherwise a new account with the lower-cased email and the
      hashed password is appended and written, and a failed write is a 500
      that keeps the list as it was. */
  function Register(email: string, password: string, taken: bool, users: seq<User>, env: AuthEnv, writeOk: bool)
    : (o: AuthOutcome)
    ensures taken ==> o.status == 400 && o.users == users && o.token.None?
    ensures !taken && !writeOk ==> o.status == 500 && o.users == users && o.token.None?
    ensures !taken && writeOk ==> o.status == 201 && o.user.Some? && o.users == users + [o.user.value]
    ensures o.status == 201 ==>
              && o.user.value == User(NatToString(env.now), ToLower(email), env.hash(password), env.isoNow)
              && o.token == Some(env.sign(o.user.value.id))
  {
    if taken then AuthOutcome(400, "User already exists with this email", users, None, None)
    else
      var user := User(NatToString(env.now), ToLower(email), env.hash(password), env.isoNow);
      if !writeOk then AuthOutcome(500, "Server error during signup", users, None, None)
      else AuthOutcome(201, "User created successfully", users + [user], Some(user), Some(env.sign(user.id)))
  }

  /** The field checks of a signup, in order: both fields given, then the
      password length, which JavaScript counts in UTF-16 code units. */
  function SignupChecks(c: Credentials): (r: Option<string>)
    ensures r.None? <==> Given(c.email) && Given(c.password) && |Utf16(c.password.value)| >= MinPasswordLength
  {
    if !Given(c.email) || !Given(c.password) then Some("Email and password are required")
    else if |Utf16(c.password.value)| < MinPasswordLength then Some("Password must be at least 6 characters long")
    else None
  }

  /** The length check counts code units: three characters above U+FFFF
      make a long enough password, and six ASCII characters are the
      shortest one. */
  lemma PasswordLengthInCodeUnits()
    ensures SignupChecks(Credentials(Some("a@b.c"), Some("\U{1F600}\U{1F600}\U{1F600}"))).None?
    ensures SignupChecks(Credentials(Some("a@b.c"), Some("abcde"))) == Some("Password must be at least 6 characters long")
    ensures SignupChecks(Credentials(Some("a@b.c"), Some("abcdef"))).None?
  {
    var e := "\U{1F600}\U{1F600}\U{1F600}";
    assert |Utf16(e[..1])| == 2;
    assert e[..2][..1] == e[..1];
    assert |Utf16(e[..2])| == 4;
    assert e[..2] == e[..|e| - 1];
    Utf16LengthExact("abcde");
    Utf16LengthExact("abcdef");
  }

  /** `signup` as written: the duplicate check compares the submitted email
      verbatim with the stored, lower-cased emails. */
  function SignupAsWritten(c: Credentials, users: seq<User>, env: AuthEnv, writeOk: bool): (o: AuthOutcome)
    ensures SignupChecks(c).Some? ==> o.status == 400 && o.users == users
    ensures SignupChecks(c).None? ==>
              o == Register(c.email.value, c.password.value, FirstWithEmail(users, c.email.value).Some?, users, env, writeOk)
  {
    match SignupChecks(c)
    case Some(msg) => AuthOutcome(400, msg, users, None, None)
    case None =>
      Register(c.email.value, c.password.value, FirstWithEmail(users, c.email.value).Some?, users, env, writeOk)
  }

  /** `signup` with the duplicate check on the lower-cased email, the form in
      which it is stored. */
  function Signup(c: Credentials, users: seq<User>, env: AuthEnv, writeOk: bool): (o: AuthOutcome)
    ensures !Given(c.email) || !Given(c.password) ==>
              o.status == 400 && o.message == "Email and password are required" && o.users == users
    ensures Given(c.email) && Given(c.password) && |Utf16(c.password.value)| < MinPasswordLength ==>
              o.status == 400 && o.message == "Password must be at least 6 characters long" && o.users == users
    ensures o.status == 201 <==>
              SignupChecks(c).None? && FirstWithEmail(users, ToLower(c.email.value)).None? && writeOk
    ensures o.status == 201 ==>
              o.user.Some? && o.users == users + [o.user.value] && o.user.value.email == ToLower(c.email.value)
    ensures o.status != 201 ==> o.users == users && o.token.None?
  {
    match SignupChecks(c)
    case Some(msg) => AuthOutcome(400, msg, users, None, None)
    case None =>
      Register(c.email.value, c.password.value, FirstWithEmail(users, ToLower(c.email.value)).Some?, users, env,
               writeOk)
  }

  /** Signup keeps every stored email lower-cased and unique. */
  lemma SignupKeepsEmailsUnique(c: Credentials, users: seq<User>, env: AuthEnv, writeOk: bool)
    requires EmailsLower(users) && UniqueEmails(users)
    ensures EmailsLower(Signup(c, users, env, writeOk).users)
    ensures UniqueEmails(Signup(c, users, env, writeOk).users)
  {
    var o := Signup(c, users, env, writeOk);
    if o.status == 201 {
      ToLowerIdempotent(c.email.value);
      assert o.users[|users|].email == ToLower(c.email.value);
    }
  }

  /** `login`: both fields must be given (400); the account is the first one
      with the lower-cased email, and an unknown email or a wrong password
      is a 401 with one and the same message. */
  function Login(c: Credentials, users: seq<User>, env: AuthEnv): (o: AuthOutcome)
    ensures o.users == users
    ensures !Given(c.email) || !Given(c.password) ==> o.status == 400
    ensures o.status == 200 <==>
              && Given(c.email) && Given(c.password)
              && FirstWithEmail(users, ToLower(c.email.value)).Some?
              && env.verify(c.password.value, users[FirstWithEmail(users, ToLower(c.email.value)).value].passwordHash)
    ensures o.status == 200 ==>
              o.user == Some(users[FirstWithEmail(users, ToLower(c.email.value)).value])
              && o.token == Some(env.sign(o.user.value.id))
    ensures o.status != 200 ==> o.token.None? && o.user.None?
    ensures o.status == 401 ==> o.message == "Invalid email or password"
  {
    if !Given(c.email) || !Given(c.password) then
      AuthOutcome(400, "Email and password are required", users, None, None)
    else
      match FirstWithEmail(users, ToLower(c.email.value))
      case None => AuthOutcome(401, "Invalid email or password", users, None, None)
      case Some(i) =>
        if !env.verify(c.password.value, users[i].passwordHash) then
          AuthOutcome(401, "Invalid email or password", users, None, None)
        else AuthOutcome(200, "Login successful", users, Some(users[i]), Some(env.sign(users[i].id)))
  }

  /** An unknown email and a wrong password get the very same response, so
      a caller cannot tell which accounts exist. */
  lemma LoginFailuresIndistinguishable(unknown: Credentials, wrong: Credentials, users: seq<User>, env: AuthEnv)
    requires Given(unknown.email) && Given(unknown.password)
    requires FirstWithEmail(users, ToLower(unknown.email.value)).None?
    requires Given(wrong.email) && Given(wrong.password)
    requires FirstWithEmail(users, ToLower(wrong.email.value)).Some?
    requires !env.verify(wrong.password.value, users[FirstWithEmail(users, ToLower(wrong.email.value)).value].passwordHash)
    ensures Login(unknown, users, env) == Login(wrong, users, env)
    ensures Login(unknown, users, env).status == 401
  {
  }

  /** Hashing and comparing agree: a password matches its own hash. */
  ghost predicate HashSound(env: AuthEnv)
  {
    forall p :: env.verify(p, env.hash(p))
  }

  /** Whoever signs up can log in with the same email and password and gets
      the new account back. */
  lemma SignupThenLogin(c: Credentials, users: seq<User>, env: AuthEnv)
    requires EmailsLower(users) && UniqueEmails(users)
    requires HashSound(env)
    requires Signup(c, users, env, true).status == 201
    ensures var s := Signup(c, users, env, true);
      && Login(c, s.users, env).status == 200
      && Login(c, s.users, env).user == s.user
  {
    var s := Signup(c, users, env, true);
    var e := ToLower(c.email.value);
    assert s.users[|users|].email == e;
    assert forall k :: 0 <= k < |users| ==> s.users[k].email != e;
    var r := FirstWithEmail(s.users, e);
    assert r == Some(|users|);
    assert env.verify(c.password.value, env.hash(c.password.value));
  }

  /** With the verbatim check an existing address in other letter case is
      taken for new: the list ends up with two accounts with the same email,
      where the corrected check refuses the signup. */
  lemma SignupAsWrittenDuplicates(env: AuthEnv)
    ensures var users := [User("1", "a@b.c", "h", "t")];
      var c := Credentials(Some("A@b.c"), Some("secret"));
      && SignupAsWritten(c, users, env, true).status == 201
      && !UniqueEmails(SignupAsWritten(c, users, env, true).users)
      && Signup(c, users, env, true).status == 400
  {
    var users := [User("1", "a@b.c", "h", "t")];
    var c := Credentials(Some("A@b.c"), Some("secret"));
    assert ToLower("A@b.c") == "a@b.c" by {
      assert LowerChar('A') == 'a';
    }
    assert "A@b.c" != "a@b.c" by {
      assert "A@b.c"[0] != "a@b.c"[0];
    }
    assert FirstWithEmail(users, "A@b.c").None?;
    assert FirstWithEmail(users, "a@b.c") == Some(0);
    var o := SignupAsWritten(c, users, env, true);
    assert o.users[0].email == o.users[1].email;
  }

  /** `getProfile`: the account with the token's user id, or a 404. */
  function GetProfile(users: seq<User>, userId: string): (o: AuthOutcome)
    ensures o.users == users
    ensures o.status == 404 <==> forall k :: 0 <= k < |users| ==> users[k].id != userId
    ensures o.status == 200 ==> o.user.Some? && o.user.value in users && o.user.value.id == userId
  {
    match FirstWithId(users, userId)
    case None => AuthOutcome(404, "User not found", users, None, None)
    case Some(i) => AuthOutcome(200, "", users, Some(users[i]), None)
  }
}
