/** `login` (backend/src/controllers/authController.js). Checking a password
    is a parameter, `comparePassword(user, password)`; signing the token is
    left to the JWT library, so the result carries the payload that is
    signed. */
module AuthController {
  import opened Common
  import opened Users

  const BadCredentials := "Credenciais inválidas"

  /** What `generateToken` signs: the user's id and role, nothing else. */
  datatype TokenPayload = TokenPayload(id: Id, role: Role)

  /** The user summary of the reply. There is no password field. */
  datatype UserSummary = UserSummary(id: Id, name: string, email: string, role: Role)

  datatype LoginResult =
    | LoggedIn(token: TokenPayload, user: UserSummary)
    | Unauthorized(message: string)

  /** `User.findOne({ email })`. A body without `email` leaves the filter
      empty, and an empty filter matches every user, so the first one is
      returned. */
  function Lookup(users: seq<Entry<User>>, email: Option<string>): (r: Option<Entry<User>>)
    ensures email.Some? ==> r == FindByEmail(users, email.value)
    ensures email.None? ==> (r.Some? <==> users != [])
    ensures email.None? && r.Some? ==> r.value == users[0]
  {
    match email
    case Some(e) => FindByEmail(users, e)
    case None => if users == [] then None else Some(users[0])
  }

  /** `login`: the user the lookup finds, if the password matches, gets a
      token for its id and role and a summary of itself; no user and a wrong
      password get the same 401. */
  function Login(users: seq<Entry<User>>, email: Option<string>, password: string,
                 comparePassword: (User, string) -> bool): (r: LoginResult)
    ensures r.Unauthorized? ==> r == Unauthorized(BadCredentials)
    ensures r.LoggedIn? <==>
              Lookup(users, email).Some? && comparePassword(Lookup(users, email).value.value, password)
    ensures r.LoggedIn? ==>
              var u := Lookup(users, email).value;
              && r.token == TokenPayload(u.id, u.value.role)
              && r.user == UserSummary(u.id, u.value.name, u.value.email, u.value.role)
    ensures r.LoggedIn? ==> r.token.id == r.user.id && r.token.role == r.user.role
    ensures r.LoggedIn? && email.Some? ==> r.user.email == email.value
  {
    match Lookup(users, email)
    case None => Unauthorized(BadCredentials)
    case Some(u) =>
      if !comparePassword(u.value, password) then Unauthorized(BadCredentials)
      else LoggedIn(TokenPayload(u.id, u.value.role), UserSummary(u.id, u.value.name, u.value.email, u.value.role))
  }

  /** The two failures cannot be told apart: an unknown email gets exactly
      the answer a known email with a wrong password gets. */
  lemma FailuresIndistinguishable(users: seq<Entry<User>>, unknown: string, known: string,
                                  p1: string, p2: string, comparePassword: (User, string) -> bool)
    requires FindByEmail(users, unknown).None?
    requires FindByEmail(users, known).Some? && !comparePassword(FindByEmail(users, known).value.value, p2)
    ensures Login(users, Some(unknown), p1, comparePassword) == Login(users, Some(known), p2, comparePassword)
  {
  }

  /** The email is matched as submitted: a stored `a@b.c` is not found by
      `A@b.c`, whatever the password. */
  lemma EmailMatchedExactly(u: Entry<User>, password: string, comparePassword: (User, string) -> bool)
    requires u.value.email == "a@b.c"
    ensures Login([u], Some("A@b.c"), password, comparePassword) == Unauthorized(BadCredentials)
  {
    assert [u][0].value.email != "A@b.c";
  }

  /** A body without `email` is checked against the first stored user: the
      password of that user, and only that user, signs in as them. */
  lemma MissingEmailTriesFirstUser(users: seq<Entry<User>>, password: string,
                                   comparePassword: (User, string) -> bool)
    ensures users == [] ==> Login(users, None, password, comparePassword) == Unauthorized(BadCredentials)
    ensures users != [] ==>
              (Login(users, None, password, comparePassword).LoggedIn? <==> comparePassword(users[0].value, password))
    ensures users != [] && comparePassword(users[0].value, password) ==>
              Login(users, None, password, comparePassword).user.id == users[0].id
  {
  }
}
