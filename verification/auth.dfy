/** The `/signup`, `/login` and `/logout` routes as transitions over an abstract user store.
    Password hashing, token signing and the database are abstracted: the store is a map from
    email to user record, the hash is a digest value only `Compare` looks into, and a token is
    the claim it carries. */
module Auth {
  import opened Common

  /** bcrypt's cost factor as the signup route passes it. */
  const SaltRounds: nat := 10

  /** A bcrypt digest of `of` under `salt`. The stored record holds this value, never a string
      password; only `Compare` looks at `of`. */
  datatype Digest = Digest(rounds: nat, salt: string, of: string)

  /** `bcrypt.hash(password, 10)`; the salt is the random value bcrypt draws. */
  function Hash(password: string, salt: string): (d: Digest)
    ensures d.rounds == SaltRounds && d.salt == salt
  {
    Digest(SaltRounds, salt, password)
  }

  /** `bcrypt.compare(password, digest)`. */
  function Compare(password: string, d: Digest): bool
  {
    d.of == password
  }

  /** A hash accepts its own password and no other, whatever the salt. */
  lemma CompareHashIff(p: string, q: string, salt: string)
    ensures Compare(q, Hash(p, salt)) <==> q == p
  {
  }

  /** A user record as the database holds it. `id` stands for the store-assigned `_id`. */
  datatype User = User(id: nat, name: string, email: string, password: Digest, role: string)

  /** The users collection, keyed by email, and the next `_id` the store will assign. */
  datatype Store = Store(users: map<string, User>, nextId: nat)

  /** Each record sits under its own email and has an id of its own, below `nextId`. */
  ghost predicate Valid(st: Store)
  {
    && (forall e :: e in st.users ==> st.users[e].email == e && st.users[e].id < st.nextId)
    && (forall e1, e2 :: e1 in st.users && e2 in st.users && e1 != e2 ==> st.users[e1].id != st.users[e2].id)
  }

  /** A token is modelled by its claim: the user's id and the signed lifetime ("1h").
      The signature and the secret are not modelled. */
  datatype Token = Token(userId: nat, expiresIn: string)

  /** The part of a user the login response reveals. */
  datatype PublicUser = PublicUser(id: nat, name: string, email: string)

  datatype Body =
    | MessageBody(message: string)
    | LoginBody(user: PublicUser, message: string)

  /** An HTTP response: status, JSON body, and the token cookie it sets, if any. */
  datatype Response = Response(status: nat, body: Body, cookie: Option<Token>)

  /** The requests the router handles. `salt` is the randomness bcrypt would draw for a signup. */
  datatype Request =
    | SignupReq(name: string, email: string, password: string, role: string, salt: string)
    | LoginReq(email: string, password: string)
    | LogoutReq

  /** The store after a request and the response sent. */
  datatype Outcome = Outcome(store: Store, response: Response)

  const UserExists := Response(400, MessageBody("User already exists"), None)
  const InvalidCredentials := Response(400, MessageBody("Invalid credentials"), None)
  const LogoutOk := Response(200, MessageBody("Logout successful"), None)

  /** `POST /signup`. The submitted role is ignored: every new user is a patient. */
  function Signup(st: Store, name: string, email: string, password: string, role: string, salt: string): (r: Outcome)
    ensures email in st.users ==> r.store == st && r.response == Response(400, MessageBody("User already exists"), None)
    ensures email !in st.users ==>
              && r.store.users.Keys == st.users.Keys + {email}
              && |r.store.users| == |st.users| + 1
              && (forall e :: e in st.users ==> r.store.users[e] == st.users[e])
              && r.store.users[email].name == name
              && r.store.users[email].email == email
              && r.store.users[email].password == Hash(password, salt)
              && r.store.users[email].role == "patient"
              && r.response.status == 201
              && r.response.body == MessageBody("User created successfully")
              && r.response.cookie == Some(Token(r.store.users[email].id, "1h"))
  {
    if email in st.users then Outcome(st, UserExists)
    else
      var user := User(st.nextId, name, email, Hash(password, salt), "patient");
      Outcome(Store(st.users[email := user], st.nextId + 1),
              Response(201, MessageBody("User created successfully"), Some(Token(user.id, "1h"))))
  }

  /** `POST /login`. An unknown email and a wrong password get the same response. */
  function Login(st: Store, email: string, password: string): (r: Response)
    ensures email !in st.users ==> r == Response(400, MessageBody("Invalid credentials"), None)
    ensures email in st.users && !Compare(password, st.users[email].password) ==> r == InvalidCredentials
    ensures r.status == 200 <==> email in st.users && Compare(password, st.users[email].password)
    ensures r.status == 200 ==>
              var u := st.users[email];
              r == Response(200, LoginBody(PublicUser(u.id, u.name, u.email), "Login successful"), Some(Token(u.id, "1h")))
  {
    if email !in st.users then InvalidCredentials
    else
      var u := st.users[email];
      if !Compare(password, u.password) then InvalidCredentials
      else Response(200, LoginBody(PublicUser(u.id, u.name, u.email), "Login successful"), Some(Token(u.id, "1h")))
  }

  /** `POST /logout`: acknowledges and does nothing else; the cookie is not cleared. */
  function Logout(): (r: Response)
    ensures r.status == 200 && r.cookie.None? && r.body == MessageBody("Logout successful")
  {
    LogoutOk
  }

  /** The router: one request against the store. */
  function Handle(st: Store, req: Request): Outcome
  {
    match req
    case SignupReq(name, email, password, role, salt) => Signup(st, name, email, password, role, salt)
    case LoginReq(email, password) => Outcome(st, Login(st, email, password))
    case LogoutReq => Outcome(st, Logout())
  }

  /** Only a signup can change the store; login and logout leave it as it was. */
  lemma OnlySignupWrites(st: Store, req: Request)
    requires !req.SignupReq?
    ensures Handle(st, req).store == st
  {
  }

  /** Signing up preserves the store's invariant. */
  lemma SignupKeepsValid(st: Store, name: string, email: string, password: string, role: string, salt: string)
    requires Valid(st)
    ensures Valid(Signup(st, name, email, password, role, salt).store)
  {
  }

  /** The submitted role has no effect on anything signup does. */
  lemma SignupIgnoresRole(st: Store, name: string, email: string, password: string, r1: string, r2: string, salt: string)
    ensures Signup(st, name, email, password, r1, salt) == Signup(st, name, email, password, r2, salt)
  {
  }

  /** A second signup with the same email is refused and creates no second record. */
  lemma SignupTwice(st: Store, name: string, email: string, password: string, role: string, salt: string,
                    name2: string, password2: string, role2: string, salt2: string)
    ensures var first := Signup(st, name, email, password, role, salt).store;
            var second := Signup(first, name2, email, password2, role2, salt2);
            second.store == first && second.response == UserExists
  {
  }

  /** Signing up then logging in with the same password succeeds and reveals the new user's id,
      name and email; any other password is refused with the generic error. */
  lemma SignupThenLogin(st: Store, name: string, email: string, password: string, role: string, salt: string, attempt: string)
    requires email !in st.users
    ensures var after := Signup(st, name, email, password, role, salt).store;
            var u := after.users[email];
            && Login(after, email, password).status == 200
            && Login(after, email, password).body == LoginBody(PublicUser(u.id, name, email), "Login successful")
            && (attempt != password ==> Login(after, email, attempt) == InvalidCredentials)
  {
  }

  /** The two ways a login can fail are indistinguishable to the client. */
  lemma FailedLoginsLookAlike(st: Store, unknown: string, known: string, p1: string, p2: string)
    requires unknown !in st.users
    requires known in st.users && !Compare(p2, st.users[known].password)
    ensures Login(st, unknown, p1) == Login(st, known, p2)
  {
  }

  /** A sequence of requests from a starting store; the final store. */
  function Run(st: Store, reqs: seq<Request>): Store
    decreases |reqs|
  {
    if |reqs| == 0 then st else Run(Handle(st, reqs[0]).store, reqs[1..])
  }

  /** Every user record in the store has the patient role. */
  predicate AllPatients(st: Store)
  {
    forall e :: e in st.users ==> st.users[e].role == "patient"
  }

  /** One request keeps the store valid, keeps every existing record, and creates only patients. */
  lemma HandleInvariant(st: Store, req: Request)
    requires Valid(st)
    ensures Valid(Handle(st, req).store)
    ensures forall e :: e in st.users ==> e in Handle(st, req).store.users && Handle(st, req).store.users[e] == st.users[e]
    ensures AllPatients(st) ==> AllPatients(Handle(st, req).store)
  {
    if req.SignupReq? {
      SignupKeepsValid(st, req.name, req.email, req.password, req.role, req.salt);
    }
  }

  /** Any run keeps the store valid, never loses or alters a record, and creates only patients:
      starting from a store of patients, no sequence of requests produces a doctor. */
  lemma {:induction false} RunInvariant(st: Store, reqs: seq<Request>)
    requires Valid(st)
    ensures Valid(Run(st, reqs))
    ensures forall e :: e in st.users ==> e in Run(st, reqs).users && Run(st, reqs).users[e] == st.users[e]
    ensures AllPatients(st) ==> AllPatients(Run(st, reqs))
    decreases |reqs|
  {
    if |reqs| > 0 {
      var next := Handle(st, reqs[0]).store;
      HandleInvariant(st, reqs[0]);
      RunInvariant(next, reqs[1..]);
      assert Run(st, reqs) == Run(next, reqs[1..]);
    }
  }

  /** The empty store the application starts with. */
  function EmptyStore(): Store
  {
    Store(map[], 0)
  }

  /** The signup route never creates a doctor: every user reachable through the routes is a patient. */
  lemma NoDoctorsFromRoutes(reqs: seq<Request>)
    ensures AllPatients(Run(EmptyStore(), reqs))
    ensures Valid(Run(EmptyStore(), reqs))
  {
    RunInvariant(EmptyStore(), reqs);
  }

  /** A signup asking to be a doctor still records a patient and answers 201. */
  lemma DoctorSignupScenario()
    ensures var r := Signup(EmptyStore(), "Alice", "a@x.com", "secret123", "doctor", "s");
            r.store.users["a@x.com"].role == "patient" && r.response.status == 201
    ensures var st := Signup(EmptyStore(), "Alice", "a@x.com", "secret123", "doctor", "s").store;
            Login(st, "a@x.com", "wrong") == Response(400, MessageBody("Invalid credentials"), None)
  {
  }
}
