/** Accounts of the Postgres-backed server: registration with unique emails, login with one
    failure message for every kind of failure, and user lookups that never expose the stored
    password hash. Hashing, hash comparison and token signing are opaque functions. */
module Accounts {
  import opened Wrappers

  const EmailTaken := "User with this email already exists"
  const InvalidCredentials := "Invalid email or password"

  /** A row of the users table; a user's id is its position. */
  datatype User = User(id: UserId, email: string, passwordHash: string, firstName: Option<string>, lastName: Option<string>)

  /** A user as the service hands it out: every column except the password hash. */
  datatype PublicUser = PublicUser(id: UserId, email: string, firstName: Option<string>, lastName: Option<string>)

  /** What register and login return: the user and a token for the user's id. */
  datatype AuthResponse = AuthResponse(user: PublicUser, token: string)

  datatype CreateUserInput = CreateUserInput(email: string, password: string, firstName: Option<string>, lastName: Option<string>)

  /** The destructuring that drops `password_hash`. */
  function Public(u: User): (r: PublicUser)
    ensures r.id == u.id && r.email == u.email && r.firstName == u.firstName && r.lastName == u.lastName
  {
    PublicUser(u.id, u.email, u.firstName, u.lastName)
  }

  /** Ids are positions and emails are unique. */
  predicate UsersValid(users: seq<User>)
  {
    && (forall i :: 0 <= i < |users| ==> users[i].id == i)
    && (forall i, j :: 0 <= i < j < |users| ==> users[i].email != users[j].email)
  }

  /** The lookup by email: the position of the user with that email, if any. */
  function FindByEmail(users: seq<User>, email: string): (r: Option<nat>)
    ensures r.None? <==> forall u :: u in users ==> u.email != email
    ensures r.Some? ==> r.value < |users| && users[r.value].email == email
  {
    if users == [] then None
    else if users[|users| - 1].email == email then Some(|users| - 1)
    else
      var r := FindByEmail(users[..|users| - 1], email);
      assert forall u :: u in users ==> u in users[..|users| - 1] || u == users[|users| - 1];
      r
  }

  /** login: the user with that email, if the password matches its stored hash; every failure
      gives the same message, so an unknown email and a wrong password look alike. */
  function Login(users: seq<User>, matches: (string, string) -> bool, sign: UserId -> string,
                 email: string, password: string): (r: Result<AuthResponse>)
    ensures r.Err? ==> r.message == InvalidCredentials
    ensures UsersValid(users) ==>
      (r.Ok? <==> exists i :: 0 <= i < |users| && users[i].email == email && matches(password, users[i].passwordHash))
    ensures r.Ok? ==> r.value.user.email == email && r.value.token == sign(r.value.user.id)
    ensures r.Ok? && UsersValid(users) ==>
      r.value.user.id < |users| && r.value.user == Public(users[r.value.user.id])
      && matches(password, users[r.value.user.id].passwordHash)
  {
    match FindByEmail(users, email)
    case None => Err(InvalidCredentials)
    case Some(i) =>
      if !matches(password, users[i].passwordHash) then Err(InvalidCredentials)
      else Ok(AuthResponse(Public(users[i]), sign(users[i].id)))
  }

  /** getUserById: the user with that id without its hash, or None for an unknown id. */
  function GetUserById(users: seq<User>, id: UserId): (r: Option<PublicUser>)
    ensures r.Some? <==> exists u :: u in users && u.id == id
    ensures r.Some? ==> exists u :: u in users && u.id == id && r.value == Public(u)
    ensures r.Some? && UsersValid(users) ==> r.value == Public(users[id])
  {
    if users == [] then None
    else if users[0].id == id then Some(Public(users[0]))
    else
      var r := GetUserById(users[1..], id);
      assert forall u :: u in users ==> u == users[0] || u in users[1..];
      r
  }

  /** The users table with the opaque hashing and signing it is used with. */
  class AuthService {
    /** bcrypt.hash with the service's cost factor. */
    const hash: string -> string
    /** bcrypt.compare(password, hash). */
    const matches: (string, string) -> bool
    /** jwt.sign of `{ userId }` with the service's secret and expiry. */
    const sign: UserId -> string
    var users: seq<User>

    ghost predicate Valid()
      reads this
    {
      UsersValid(users)
    }

    constructor(hash: string -> string, matches: (string, string) -> bool, sign: UserId -> string)
      ensures Valid() && users == []
      ensures this.hash == hash && this.matches == matches && this.sign == sign
    {
      this.hash := hash;
      this.matches := matches;
      this.sign := sign;
      users := [];
    }

    /** register: an email already in use is refused and nothing is inserted; otherwise one
        user is appended holding the password's hash, and the reply carries the user without
        the hash and a token for the new id. */
    method Register(input: CreateUserInput) returns (r: Result<AuthResponse>)
      requires Valid()
      modifies this
      ensures Valid()
      ensures FindByEmail(old(users), input.email).Some? ==> r == Err(EmailTaken) && users == old(users)
      ensures FindByEmail(old(users), input.email).None? ==>
        var u := User(|old(users)|, input.email, hash(input.password), input.firstName, input.lastName);
        && users == old(users) + [u]
        && r == Ok(AuthResponse(Public(u), sign(u.id)))
    {
      var existing := FindByEmail(users, input.email);
      if existing.Some? {
        return Err(EmailTaken);
      }
      var u := User(|users|, input.email, hash(input.password), input.firstName, input.lastName);
      RegisterKeepsValid(users, u);
      users := users + [u];
      return Ok(AuthResponse(Public(u), sign(u.id)));
    }
  }

  /** A user who has just registered can log in with the same password, provided the hash
      function and the comparison agree (as bcrypt's do); the login returns the same user and
      token as the registration. */
  lemma LoginAfterRegister(users: seq<User>, hash: string -> string, matches: (string, string) -> bool,
                           sign: UserId -> string, input: CreateUserInput)
    requires UsersValid(users) && FindByEmail(users, input.email).None?
    requires matches(input.password, hash(input.password))
    ensures var u := User(|users|, input.email, hash(input.password), input.firstName, input.lastName);
      Login(users + [u], matches, sign, input.email, input.password) == Ok(AuthResponse(Public(u), sign(|users|)))
  {
  }

  /** Registering keeps ids as positions and emails unique. */
  lemma RegisterKeepsValid(users: seq<User>, u: User)
    requires UsersValid(users) && FindByEmail(users, u.email).None? && u.id == |users|
    ensures UsersValid(users + [u])
  {
    assert forall i :: 0 <= i < |users| ==> users[i] in users;
  }
}
