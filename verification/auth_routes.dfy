/** Registration and login (backend/routes/auth.js). Password hashing and
    password comparison are parameters: the hash depends on a random salt, and
    the comparison is bcrypt's. A signed token is represented by the user id it
    carries. */
module AuthRoutes {
  import opened Wrappers
  import opened Records
  import opened Text
  import Seqs

  /** A signed token; only the user id it was issued for matters here. */
  datatype Token = Signed(userId: Id)

  /** The body of a successful register or login reply. */
  datatype Session = Session(token: Token, id: Id, username: string, email: string, role: Role)

  /** The `$or` lookup: some user already has this username, or this email once
      the schema has lower-cased it. */
  predicate Taken(users: seq<User>, username: string, email: string) {
    exists k :: 0 <= k < |users| && (users[k].username == username || users[k].email == ToLower(email))
  }

  /** No two accounts share a username or an email. */
  predicate UniqueAccounts(users: seq<User>) {
    forall i, j :: 0 <= i < j < |users| ==>
      users[i].username != users[j].username && users[i].email != users[j].email
  }

  /** POST /auth/register. A missing or empty username, email or password is a
      400; a taken username or email is a 409; a role outside the enum fails
      validation (500); otherwise exactly one user is stored, with the email
      lower-cased, the default role 'student' when none is given, and the hash
      of the password, and the reply echoes the username and email as sent. */
  function Register(db: Db, username: Option<string>, email: Option<string>, password: Option<string>,
                    role: Option<string>, hash: string -> string): (r: (Reply<Session>, Db))
    ensures !Truthy(username) || !Truthy(email) || !Truthy(password) ==>
              r == (Fail(400, "username, email, password required"), db)
    ensures Truthy(username) && Truthy(email) && Truthy(password) && Taken(db.users, username.value, email.value) ==>
              r == (Fail(409, "Username or email already in use"), db)
    ensures r.0.Fail? ==> r.1 == db
    ensures r.0.Ok? <==>
              && Truthy(username) && Truthy(email) && Truthy(password)
              && !Taken(db.users, username.value, email.value)
              && (role.None? || ParseRole(role.value).Some?)
    ensures r.0.Ok? ==> |r.1.users| == |db.users| + 1
    ensures r.0.Ok? ==>
              var u := r.1.users[|db.users|];
              && r.0.status == 201
              && r.1 == db.(users := db.users + [u])
              && (forall k :: 0 <= k < |db.users| ==> db.users[k].id != u.id)
              && u.username == username.value && u.email == ToLower(email.value)
              && u.passwordHash == hash(password.value)
              && u.role == (if role.None? then Student else ParseRole(role.value).value)
              && u.savedJobs == []
              && r.0.value == Session(Signed(u.id), u.id, username.value, email.value, u.role)
  {
    if !Truthy(username) || !Truthy(email) || !Truthy(password) then
      (Fail(400, "username, email, password required"), db)
    else if Taken(db.users, username.value, email.value) then
      (Fail(409, "Username or email already in use"), db)
    else
      var parsed := if role.None? then Some(Student) else ParseRole(role.value);
      match parsed
      case None => (Fail(500, "Registration failed"), db)
      case Some(rl) =>
        var u := User(NextId(db.users, (v: User) => v.id), username.value, ToLower(email.value), hash(password.value), rl, []);
        (Ok(201, Session(Signed(u.id), u.id, username.value, email.value, rl)), db.(users := db.users + [u]))
  }

  /** Registration keeps usernames and emails unique. */
  lemma RegisterKeepsUniqueAccounts(db: Db, username: Option<string>, email: Option<string>,
                                    password: Option<string>, role: Option<string>, hash: string -> string)
    requires UniqueAccounts(db.users)
    ensures UniqueAccounts(Register(db, username, email, password, role, hash).1.users)
  {
    var r := Register(db, username, email, password, role, hash);
    if r.0.Ok? {
      var users := r.1.users;
      forall i, j | 0 <= i < j < |users|
        ensures users[i].username != users[j].username && users[i].email != users[j].email
      {
        if j == |db.users| {
          assert users[i] == db.users[i];
        }
      }
    }
  }

  /** `User.findOne({username})`: the first user with that username. */
  function Account(users: seq<User>, username: string): (r: Option<User>)
    ensures r.Some? ==> r.value in users && r.value.username == username
    ensures r.None? <==> forall k :: 0 <= k < |users| ==> users[k].username != username
  {
    Seqs.Find(users, (u: User) => u.username == username)
  }

  /** POST /auth/login. A missing or empty username or password is a 400; an
      unknown username and a wrong password give the same 401; otherwise the
      reply carries a token for the first user with that username. */
  function Login(db: Db, username: Option<string>, password: Option<string>,
                 compare: (string, string) -> bool): (r: Reply<Session>)
    ensures !Truthy(username) || !Truthy(password) ==> r == Fail(400, "username & password required")
    ensures Truthy(username) && Truthy(password)
            && (forall k :: 0 <= k < |db.users| ==> db.users[k].username != username.value)
            ==> r == Fail(401, "Invalid credentials")
    ensures r.Fail? ==> r.error in {"username & password required", "Invalid credentials"}
    ensures Truthy(username) && Truthy(password) ==>
              && (r.Fail? ==> r == Fail(401, "Invalid credentials"))
              && (r.Ok? <==> Account(db.users, username.value).Some?
                             && compare(password.value, Account(db.users, username.value).value.passwordHash))
    ensures r.Ok? ==>
              var u := Account(db.users, username.value).value;
              r == Ok(200, Session(Signed(u.id), u.id, u.username, u.email, u.role))
    ensures r.Ok? ==>
              && Truthy(username) && Truthy(password)
              && r.status == 200
              && exists k :: 0 <= k < |db.users| && db.users[k].username == username.value
                   && compare(password.value, db.users[k].passwordHash)
                   && r.value == Session(Signed(db.users[k].id), db.users[k].id, db.users[k].username,
                                         db.users[k].email, db.users[k].role)
  {
    if !Truthy(username) || !Truthy(password) then Fail(400, "username & password required")
    else
      match Account(db.users, username.value)
      case None => Fail(401, "Invalid credentials")
      case Some(u) =>
        if !compare(password.value, u.passwordHash) then Fail(401, "Invalid credentials")
        else Ok(200, Session(Signed(u.id), u.id, u.username, u.email, u.role))
  }

  /** An account that was just registered can log in with the same password,
      provided the comparison accepts a password against its own hash, and the
      login names the new account. */
  lemma RegisterThenLogin(db: Db, username: string, email: string, password: string,
                          role: Option<string>, hash: string -> string, compare: (string, string) -> bool)
    requires forall p :: compare(p, hash(p))
    requires Register(db, Some(username), Some(email), Some(password), role, hash).0.Ok?
    ensures var (reg, db') := Register(db, Some(username), Some(email), Some(password), role, hash);
            Login(db', Some(username), Some(password), compare) == Ok(200, reg.value.(email := ToLower(email)))
  {
    var (reg, db') := Register(db, Some(username), Some(email), Some(password), role, hash);
    var u := db'.users[|db.users|];
    var found := Account(db'.users, username);
    assert db'.users[|db.users|].username == username;
    assert found == Some(u);
  }
}
