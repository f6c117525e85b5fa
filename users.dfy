/** The users table and the three operations on it: `register` and `login`
    (app/routers/auth.py) and the identity resolution `get_current_user`
    (app/dependencies.py) that every calculation handler depends on. */
module Users {
  import opened Common
  import opened Text
  import opened Security

  datatype User = User(
    email: string,
    fullName: Option<string>,
    hashedPassword: string,
    isActive: bool)

  /** A user row together with its id, as the handlers return it. */
  datatype Account = Account(id: int, user: User)

  /** What `login` answers on success. */
  datatype TokenResponse = TokenResponse(accessToken: string, tokenType: string)

  /** No two users share an email (exact, case-sensitive comparison). */
  ghost predicate EmailsUnique(users: map<int, User>) {
    forall i, j :: i in users && j in users && users[i].email == users[j].email ==> i == j
  }

  predicate EmailTaken(users: map<int, User>, email: string) {
    exists id :: id in users && users[id].email == email
  }

  const CredentialsDetail := "Could not validate credentials"
  const LoginDetail := "Incorrect email or password"
  const EmailTakenDetail := "Email already registered"
  const ServerErrorDetail := "Internal Server Error"

  /** The user the no-token fallback creates in an empty store. The handler
      does not set `is_active`; `true` is the assumed column default of the
      users table, whose definition is not part of this model. */
  function DefaultUser(p: Primitives): User {
    User("test@example.com", Some("Test User"), p.hash("test123"), true)
  }

  /** Python's `if token:`: an absent or empty token takes the fallback path. */
  predicate HasToken(token: Option<string>) {
    token.Some? && token.value != ""
  }

  /** The token branch of `get_current_user`: every way the token can fail
      to name a stored user is the same 401, except a subject that `int()`
      rejects, whose `ValueError` is raised outside the `try` and escapes as
      a 500. */
  function ResolveToken(users: map<int, User>, p: Primitives, token: string): (r: Result<Account, Error>)
    ensures r.Ok? ==> r.value.id in users && users[r.value.id] == r.value.user
    ensures r.Err? ==> r.error == Unauthorized(CredentialsDetail) || r.error == InternalServerError(ServerErrorDetail)
    ensures p.decode(token).None? ==> r == Err(Unauthorized(CredentialsDetail))
    ensures p.decode(token) == Some(None) ==> r == Err(Unauthorized(CredentialsDetail))
    ensures r.Err? && r.error.InternalServerError? <==>
      p.decode(token).Some? && p.decode(token).value.Some? && ParseInt(p.decode(token).value.value).None?
    ensures r.Ok? <==>
      && p.decode(token).Some? && p.decode(token).value.Some?
      && ParseInt(p.decode(token).value.value).Some?
      && ParseInt(p.decode(token).value.value).value in users
    ensures r.Ok? ==> r.value.id == ParseInt(p.decode(token).value.value).value
  {
    match p.decode(token)
    case None => Err(Unauthorized(CredentialsDetail))
    case Some(None) => Err(Unauthorized(CredentialsDetail))
    case Some(Some(subject)) =>
      match ParseInt(subject)
      case None => Err(InternalServerError(ServerErrorDetail))
      case Some(id) =>
        if id in users then Ok(Account(id, users[id])) else Err(Unauthorized(CredentialsDetail))
  }

  /** A token issued at login for a stored user resolves back to that user. */
  lemma IssuedTokenResolves(users: map<int, User>, p: Primitives, id: int)
    requires TokensRoundTrip(p)
    requires id in users
    ensures ResolveToken(users, p, p.issue(IntToString(id))) == Ok(Account(id, users[id]))
  {
    assert p.decode(p.issue(IntToString(id))) == Some(Some(IntToString(id)));
    ParseIntToString(id);
  }

  /** Inserting a user whose email is new keeps emails unique. */
  lemma InsertKeepsEmailsUnique(users: map<int, User>, id: int, u: User)
    requires EmailsUnique(users)
    requires id !in users && !EmailTaken(users, u.email)
    ensures EmailsUnique(users[id := u])
  {
  }

  /** The users table: users by id, the id the next insert receives, and the
      security primitives the handlers call. */
  class UserStore {
    var users: map<int, User>
    var nextId: int
    const primitives: Primitives

    ghost predicate Valid()
      reads this
    {
      && 1 <= nextId
      && (forall id :: id in users ==> 1 <= id < nextId)
      && EmailsUnique(users)
    }

    constructor (primitives: Primitives)
      ensures Valid() && users == map[] && nextId == 1 && this.primitives == primitives
    {
      users := map[];
      nextId := 1;
      this.primitives := primitives;
    }

    /** `register`: a taken email fails with 400 and changes nothing; a new
        one is inserted, active, with the hash of the password. */
    method Register(email: string, password: string) returns (r: Result<Account, Error>)
      requires Valid()
      modifies this
      ensures Valid()
      ensures EmailTaken(old(users), email) ==>
        r == Err(BadRequest(EmailTakenDetail)) && users == old(users) && nextId == old(nextId)
      ensures !EmailTaken(old(users), email) ==>
        && old(nextId) !in old(users)
        && r == Ok(Account(old(nextId), User(email, None, primitives.hash(password), true)))
        && users == old(users)[old(nextId) := r.value.user]
        && nextId == old(nextId) + 1
    {
      if EmailTaken(users, email) {
        return Err(BadRequest(EmailTakenDetail));
      }
      var user := User(email, None, primitives.hash(password), true);
      var id := nextId;
      InsertKeepsEmailsUnique(users, id, user);
      users := users[id := user];
      nextId := nextId + 1;
      r := Ok(Account(id, user));
    }

    /** `login`: the one user with that email, if its password verifies, gets a
        bearer token whose subject is its id; otherwise one 401 for both
        causes. Reads the store and never changes it. */
    method Login(email: string, password: string) returns (r: Result<TokenResponse, Error>)
      requires Valid()
      ensures r.Ok? <==> exists id :: id in users && users[id].email == email
                                   && primitives.verify(password, users[id].hashedPassword)
      ensures r.Ok? ==> exists id :: id in users && users[id].email == email
                                   && r.value == TokenResponse(primitives.issue(IntToString(id)), "bearer")
      ensures r.Err? ==> r.error == Unauthorized(LoginDetail)
    {
      if !EmailTaken(users, email) {
        return Err(Unauthorized(LoginDetail));
      }
      var id :| id in users && users[id].email == email;
      if !primitives.verify(password, users[id].hashedPassword) {
        return Err(Unauthorized(LoginDetail));
      }
      r := Ok(TokenResponse(primitives.issue(IntToString(id)), "bearer"));
    }

    /** `get_current_user`: with a token, the token branch and no change to
        the store; without one, some existing user (the query has no order),
        or, in an empty store, exactly one new default user. The result is
        always a stored user. */
    method CurrentUser(token: Option<string>) returns (r: Result<Account, Error>)
      requires Valid()
      modifies this
      ensures Valid()
      ensures r.Ok? ==> r.value.id in users && users[r.value.id] == r.value.user
      ensures HasToken(token) ==>
        r == ResolveToken(old(users), primitives, token.value) && users == old(users) && nextId == old(nextId)
      ensures !HasToken(token) && old(users) != map[] ==>
        r.Ok? && users == old(users) && nextId == old(nextId)
      ensures !HasToken(token) && old(users) == map[] ==>
        && r == Ok(Account(old(nextId), DefaultUser(primitives)))
        && users == map[old(nextId) := DefaultUser(primitives)]
        && nextId == old(nextId) + 1
    {
      if HasToken(token) {
        return ResolveToken(users, primitives, token.value);
      }
      if users != map[] {
        assert exists k :: k in users by {
          if forall k :: k !in users {
            assert false;
          }
        }
        var id :| id in users;
        return Ok(Account(id, users[id]));
      }
      var user := DefaultUser(primitives);
      var id := nextId;
      users := map[id := user];
      nextId := nextId + 1;
      r := Ok(Account(id, user));
    }
  }
}
