/** Account routes (routes/auth.js): register and login. */
module Auth {
  import opened Records
  import opened External
  import opened Database
  import JwtMiddleware

  const MinPasswordLength: nat := 6
  const InvalidCredentials: Response := Response(400, Message("Invalid credentials"))

  /** `validationResult(req).array()` for the register validators, in the
      order they are declared. An absent body field is validated as "". */
  function RegisterErrors(name: string, email: string, password: string, services: Services): (errors: seq<string>)
    ensures |errors| <= 3
    ensures errors == [] <==> name != "" && services.isEmail(email) && |password| >= MinPasswordLength
    ensures name == "" ==> "Name is required" in errors
    ensures |password| < MinPasswordLength ==> "Password must be at least 6 characters" in errors
  {
    (if name == "" then ["Name is required"] else [])
    + (if !services.isEmail(email) then ["Valid email is required"] else [])
    + (if |password| < MinPasswordLength then ["Password must be at least 6 characters"] else [])
  }

  /** The same for the login validators. */
  function LoginErrors(email: string, password: string, services: Services): (errors: seq<string>)
    ensures |errors| <= 2
    ensures errors == [] <==> services.isEmail(email) && password != ""
  {
    (if !services.isEmail(email) then ["Valid email is required"] else [])
    + (if password == "" then ["Password is required"] else [])
  }

  /** The row a successful registration creates. */
  function NewUser(id: Id, name: string, email: string, password: string, services: Services): (u: User)
    ensures u.id == id && u.name == name && u.email == email
    ensures u.password == services.hash(password)
  {
    User(id, name, email, services.hash(password))
  }

  /** Adding a user whose e-mail is not yet taken keeps e-mails unique. */
  lemma AddingFreshEmailKeepsUnique(users: map<Id, User>, u: User)
    requires UsersWellFormed(users)
    requires !EmailTaken(users, u.email)
    ensures UsersWellFormed(users[u.id := u])
  {
  }

  /** POST `/register`. `newId` is the identifier the database's default
      assigns to the new row. */
  method Register(db: Store, name: string, email: string, password: string, newId: Id, services: Services)
      returns (r: Response)
    requires db.Valid()
    modifies db
    ensures db.Valid()
    ensures db.projects == old(db.projects) && db.tasks == old(db.tasks)
    ensures
      var errors := RegisterErrors(name, email, password, services);
      if errors != [] then
        r == Response(400, ValidationErrors(errors)) && db.users == old(db.users)
      else if EmailTaken(old(db.users), email) then
        r == Response(400, Message("User already exists")) && db.users == old(db.users)
      else if newId in old(db.users) then
        r == Response(500, Message("Server error")) && db.users == old(db.users)
      else
        var u := NewUser(newId, name, email, password, services);
        r == Response(201, Registered("User registered successfully", u))
        && db.users == old(db.users)[newId := u]
  {
    var errors := RegisterErrors(name, email, password, services);
    if errors != [] {
      return Response(400, ValidationErrors(errors));
    }
    var existing := FindUserByEmail(db.users, email);
    if existing.Some? {
      return Response(400, Message("User already exists"));
    }
    if newId in db.users {
      // the create violates the primary key and the catch answers 500
      return Response(500, Message("Server error"));
    }
    var hashed := services.hash(password);
    var user := User(newId, name, email, hashed);
    AddingFreshEmailKeepsUnique(db.users, user);
    db.users := db.users[newId := user];
    r := Response(201, Registered("User registered successfully", user));
  }

  /** POST `/login`: a read-only lookup, compare and sign at clock time `now`. */
  function Login(users: map<Id, User>, email: string, password: string, services: Services, now: int): (r: Response)
    requires UsersWellFormed(users)
    ensures r.status in {200, 400}
    ensures LoginErrors(email, password, services) != [] ==>
              r == Response(400, ValidationErrors(LoginErrors(email, password, services)))
    ensures LoginErrors(email, password, services) == [] && r.status == 400 ==> r == InvalidCredentials
    ensures r.status == 200 <==>
              && LoginErrors(email, password, services) == []
              && exists id :: id in users && users[id].email == email && services.compare(password, users[id].password)
    ensures r.status == 200 ==>
              exists id :: id in users && users[id].email == email
                        && r.body == LoggedIn(services.sign(IssueClaims(id, now)), id)
  {
    var errors := LoginErrors(email, password, services);
    if errors != [] then Response(400, ValidationErrors(errors))
    else
      match FindUserByEmail(users, email)
      case None => InvalidCredentials
      case Some(user) =>
        if !services.compare(password, user.password) then InvalidCredentials
        else Response(200, LoggedIn(services.sign(IssueClaims(user.id, now)), user.id))
  }

  /** An unknown e-mail and a wrong password for a known one get the very
      same response, so a client cannot tell which accounts exist. */
  lemma LoginHidesWhichCheckFailed(users: map<Id, User>, unknownEmail: string, anyPassword: string,
                                   knownEmail: string, wrongPassword: string, services: Services, now: int)
    requires UsersWellFormed(users)
    requires LoginErrors(unknownEmail, anyPassword, services) == []
    requires LoginErrors(knownEmail, wrongPassword, services) == []
    requires !EmailTaken(users, unknownEmail)
    requires forall id :: id in users && users[id].email == knownEmail ==> !services.compare(wrongPassword, users[id].password)
    ensures Login(users, unknownEmail, anyPassword, services, now) == InvalidCredentials
    ensures Login(users, knownEmail, wrongPassword, services, now) == InvalidCredentials
  {
  }

  /** After a successful registration, logging in with the same e-mail and
      password succeeds as the new user. */
  lemma LoginAfterRegister(users: map<Id, User>, newId: Id, name: string, email: string, password: string,
                           services: Services, now: int)
    requires UsersWellFormed(users)
    requires RegisterErrors(name, email, password, services) == []
    requires !EmailTaken(users, email) && newId !in users
    requires HashSound(services)
    ensures UsersWellFormed(users[newId := NewUser(newId, name, email, password, services)])
    ensures Login(users[newId := NewUser(newId, name, email, password, services)], email, password, services, now)
            == Response(200, LoggedIn(services.sign(IssueClaims(newId, now)), newId))
  {
    var u := NewUser(newId, name, email, password, services);
    var users' := users[newId := u];
    AddingFreshEmailKeepsUnique(users, u);
    var found := FindUserByEmail(users', email);
    assert users'[newId].email == email;
    assert found.Some?;
    assert found.value.id == newId;
    assert services.compare(password, services.hash(password));
  }

  /** ... and with a password that bcrypt does not match against the stored
      digest it fails with the same answer as an unknown e-mail. Which
      passwords those are is up to bcrypt (see `Services.compare`). */
  lemma WrongPasswordAfterRegister(users: map<Id, User>, newId: Id, name: string, email: string, password: string,
                                   other: string, services: Services, now: int)
    requires UsersWellFormed(users)
    requires RegisterErrors(name, email, password, services) == [] && other != ""
    requires !EmailTaken(users, email) && newId !in users
    requires !services.compare(other, services.hash(password))
    ensures Login(users[newId := NewUser(newId, name, email, password, services)], email, other, services, now)
            == InvalidCredentials
  {
  }

  /** The token a successful login returns opens the gate, with the
      `Bearer ` prefix, as the logged-in user until 24 hours have passed,
      and is refused with 400 from then on. */
  lemma LoginTokenOpensGate(users: map<Id, User>, email: string, password: string, services: Services,
                            issuedAt: int, now: int)
    requires UsersWellFormed(users)
    requires TokensSound(services)
    requires Login(users, email, password, services, issuedAt).status == 200
    ensures
      var body := Login(users, email, password, services, issuedAt).body;
      && body.LoggedIn?
      && JwtMiddleware.Gate(Some(JwtMiddleware.BearerPrefix + body.token), services, now)
         == if now < issuedAt + TokenLifetime
            then JwtMiddleware.Next(IssueClaims(body.userId, issuedAt))
            else JwtMiddleware.Reject(Response(400, Message("Invalid token")))
  {
    var body := Login(users, email, password, services, issuedAt).body;
    var id :| id in users && users[id].email == email
              && body == LoggedIn(services.sign(IssueClaims(id, issuedAt)), id);
    JwtMiddleware.StripBearerOfPrefixed(body.token);
    var c := IssueClaims(id, issuedAt);
    assert services.verify(services.sign(c), now) == if now < c.exp then Some(c) else None;
  }
}
