/** The account handlers, POST /register and POST /login, over an in-memory
    users table. Password hashing (bcrypt) and token signing (JWT) are
    foreign calls and enter as function parameters: `hash` maps a password
    to the stored hash, and a stored hash accepts exactly the passwords
    that hash to it; `sign` maps the claims to the token. */
module Credentials {
  import opened Http
  import opened Validation
  import opened Auth

  const AccountExists := "Username or email already exists"
  const Registered := "User registered successfully"
  const CredentialsRequired := "Username and password are required"
  const InvalidCredentials := "Invalid credentials"
  const LoggedIn := "Login successful"

  /** A row of the users table; `passwordHash` is the `password` column. */
  datatype User = User(id: nat, username: string, email: string, passwordHash: string)

  /** The user record a reply carries: everything but the hash. */
  datatype PublicUser = PublicUser(id: nat, username: string, email: string)

  /** The payload of a successful register or login. */
  datatype Session = Session(message: string, token: string, user: PublicUser)

  /** The users table: its rows in creation order and the next SERIAL id. */
  datatype Accounts = Accounts(users: seq<User>, nextId: nat)

  /** A handler's reply together with the users table it leaves behind. */
  datatype Enrolment = Enrolment(reply: Outcome<Session>, after: Accounts)

  function Public(u: User): PublicUser {
    PublicUser(u.id, u.username, u.email)
  }

  /** The reply body of a successful register or login for this user. */
  function SessionFor(message: string, u: User, sign: Claims -> string): Session {
    Session(message, sign(Claims(u.id, u.username)), Public(u))
  }

  // ------------------------------------------------------------ invariant

  /** Ids increase with creation order and lie below the next id. */
  ghost predicate IdsInOrder(a: Accounts) {
    && (forall i, j | 0 <= i < j < |a.users| :: a.users[i].id < a.users[j].id)
    && (forall i | 0 <= i < |a.users| :: a.users[i].id < a.nextId)
  }

  /** No two users share a username. */
  ghost predicate UniqueUsernames(users: seq<User>) {
    forall i, j | 0 <= i < j < |users| :: users[i].username != users[j].username
  }

  /** No two users share an email. */
  ghost predicate UniqueEmails(users: seq<User>) {
    forall i, j | 0 <= i < j < |users| :: users[i].email != users[j].email
  }

  ghost predicate Consistent(a: Accounts) {
    IdsInOrder(a) && UniqueUsernames(a.users) && UniqueEmails(a.users)
  }

  // -------------------------------------------------------------- queries

  /** `SELECT * FROM users WHERE username = $1 OR email = $2`. */
  function Clashing(users: seq<User>, username: string, email: string): (r: seq<User>)
    ensures |r| <= |users|
    ensures forall u :: u in r <==> u in users && (u.username == username || u.email == email)
  {
    if users == [] then []
    else
      var rest := Clashing(users[1..], username, email);
      assert forall u :: u in users <==> u == users[0] || u in users[1..];
      if users[0].username == username || users[0].email == email then [users[0]] + rest else rest
  }

  /** `SELECT * FROM users WHERE username = $1`, in table order. */
  function Named(users: seq<User>, username: string): (r: seq<User>)
    ensures |r| <= |users|
    ensures forall u :: u in r <==> u in users && u.username == username
  {
    if users == [] then []
    else
      var rest := Named(users[1..], username);
      assert forall u :: u in users <==> u == users[0] || u in users[1..];
      if users[0].username == username then [users[0]] + rest else rest
  }

  // ------------------------------------------------------- specification

  /** POST /register: the registration validator first (400 with its
      message), then a username or email already taken answers 400; both
      leave the table unchanged. Otherwise one user is appended with the
      next id and the hashed password, and the reply (201) carries a token
      signed over the new id and username. */
  function RegisterEffect(a: Accounts, username: Option<string>, email: Option<string>, password: Option<string>,
                          hash: string -> string, sign: Claims -> string): (e: Enrolment)
    ensures ValidateRegistration(username, email, password).Reject? ==>
              e == Enrolment(Error(400, ValidateRegistration(username, email, password).message), a)
    ensures e.reply.Ok? <==>
              && ValidateRegistration(username, email, password).Next?
              && forall u | u in a.users :: u.username != username.value && u.email != email.value
    ensures e.reply.Error? ==> e.after == a
    ensures ValidateRegistration(username, email, password).Next? && e.reply.Error? ==>
              e.reply == Error(400, AccountExists)
    ensures e.reply.Ok? ==>
              var joined := User(a.nextId, username.value, email.value, hash(password.value));
              && e.reply == Ok(201, SessionFor(Registered, joined, sign))
              && e.after == Accounts(a.users + [joined], a.nextId + 1)
  {
    var v := ValidateRegistration(username, email, password);
    if v.Reject? then Enrolment(Error(v.status, v.message), a)
    else if |Clashing(a.users, username.value, email.value)| > 0 then
      var taken := Clashing(a.users, username.value, email.value)[0];
      assert taken in a.users;
      Enrolment(Error(400, AccountExists), a)
    else
      var joined := User(a.nextId, username.value, email.value, hash(password.value));
      Enrolment(Ok(201, SessionFor(Registered, joined, sign)), Accounts(a.users + [joined], a.nextId + 1))
  }

  /** POST /login: a missing or empty username or password answers 400;
      an unknown username and a password the stored hash does not accept
      both answer the same 401; otherwise 200 with a token signed over the
      user's id and username. */
  function LoginReply(a: Accounts, username: Option<string>, password: Option<string>,
                      hash: string -> string, sign: Claims -> string): (r: Outcome<Session>)
    ensures !Truthy(username) || !Truthy(password) <==> r == Error(400, CredentialsRequired)
    ensures Truthy(username) && Truthy(password) && r.Error? ==> r == Error(401, InvalidCredentials)
    ensures r.Ok? ==>
              exists u | u in a.users :: u.username == username.value && hash(password.value) == u.passwordHash
                                        && r == Ok(200, SessionFor(LoggedIn, u, sign))
  {
    if !Truthy(username) || !Truthy(password) then Error(400, CredentialsRequired)
    else
      var found := Named(a.users, username.value);
      if found == [] then Error(401, InvalidCredentials)
      else
        var u := found[0];
        if hash(password.value) != u.passwordHash then Error(401, InvalidCredentials)
        else Ok(200, SessionFor(LoggedIn, u, sign))
  }

  // --------------------------------------------------------------- lemmas

  /** With unique usernames the lookup finds at most the one user. */
  lemma {:induction false} NamedUnique(users: seq<User>, username: string, k: nat)
    requires UniqueUsernames(users)
    requires k < |users| && users[k].username == username
    ensures Named(users, username) == [users[k]]
    decreases |users|
  {
    if k == 0 {
      forall u | u in users[1..] ensures u.username != username {
        var j :| 1 <= j < |users| && users[j] == u;
      }
      NamedNone(users[1..], username);
    } else {
      assert users[0].username != username by { assert users[0].username != users[k].username; }
      NamedUnique(users[1..], username, k - 1);
    }
  }

  /** A username nobody has finds nothing. */
  lemma NamedNone(users: seq<User>, username: string)
    requires forall u | u in users :: u.username != username
    ensures Named(users, username) == []
  {
  }

  /** With unique usernames, login succeeds exactly when some user has
      that username and the password hashes to that user's stored hash. */
  lemma LoginSucceedsIff(a: Accounts, username: Option<string>, password: Option<string>,
                         hash: string -> string, sign: Claims -> string)
    requires UniqueUsernames(a.users)
    ensures LoginReply(a, username, password, hash, sign).Ok? <==>
              && Truthy(username) && Truthy(password)
              && exists k | 0 <= k < |a.users| :: a.users[k].username == username.value && hash(password.value) == a.users[k].passwordHash
  {
    if Truthy(username) && Truthy(password) {
      if k :| 0 <= k < |a.users| && a.users[k].username == username.value && hash(password.value) == a.users[k].passwordHash {
        NamedUnique(a.users, username.value, k);
      }
    }
  }

  /** An unknown username and a wrong password cannot be told apart from
      the reply. */
  lemma UnknownUserLooksLikeWrongPassword(a: Accounts, who: string, stranger: string, password: string,
                                         hash: string -> string, sign: Claims -> string)
    requires UniqueUsernames(a.users)
    requires who != [] && stranger != [] && password != []
    requires forall u | u in a.users :: u.username != stranger
    requires exists u | u in a.users :: u.username == who && hash(password) != u.passwordHash
    ensures LoginReply(a, Some(stranger), Some(password), hash, sign)
         == LoginReply(a, Some(who), Some(password), hash, sign)
         == Error(401, InvalidCredentials)
  {
    var u :| u in a.users && u.username == who && hash(password) != u.passwordHash;
    var k :| 0 <= k < |a.users| && a.users[k] == u;
    NamedUnique(a.users, who, k);
  }

  /** Registration keeps usernames and emails unique and ids in order. */
  lemma RegisterKeepsConsistent(a: Accounts, username: Option<string>, email: Option<string>, password: Option<string>,
                                hash: string -> string, sign: Claims -> string)
    requires Consistent(a)
    ensures Consistent(RegisterEffect(a, username, email, password, hash, sign).after)
  {
    var e := RegisterEffect(a, username, email, password, hash, sign);
    if e.reply.Ok? {
      var users := e.after.users;
      assert users[|a.users|] == User(a.nextId, username.value, email.value, hash(password.value));
      assert forall i | 0 <= i < |a.users| :: users[i] == a.users[i] && users[i] in a.users;
    }
  }

  /** A user who has just registered can log in with the same username and
      password: the session names the same account, and its token is signed
      over that account's id and username, the claims the registration's
      token was signed over. */
  lemma RegisterThenLogin(a: Accounts, username: string, email: string, password: string,
                          hash: string -> string, sign: Claims -> string)
    requires Consistent(a)
    requires RegisterEffect(a, Some(username), Some(email), Some(password), hash, sign).reply.Ok?
    ensures var e := RegisterEffect(a, Some(username), Some(email), Some(password), hash, sign);
            LoginReply(e.after, Some(username), Some(password), hash, sign)
              == Ok(200, Session(LoggedIn, sign(Claims(e.reply.value.user.id, e.reply.value.user.username)), e.reply.value.user))
  {
    var e := RegisterEffect(a, Some(username), Some(email), Some(password), hash, sign);
    RegisterKeepsConsistent(a, Some(username), Some(email), Some(password), hash, sign);
    var k := |a.users|;
    assert e.after.users[k].username == username;
    NamedUnique(e.after.users, username, k);
  }

  // ------------------------------------------------------------ the store

  class UserStore {
    var users: seq<User>
    var nextId: nat

    function State(): Accounts
      reads this
    {
      Accounts(users, nextId)
    }

    ghost predicate Valid()
      reads this
    {
      Consistent(State())
    }

    constructor ()
      ensures Valid() && users == [] && nextId == 1
    {
      users := [];
      nextId := 1;
    }

    /** POST /register after the validator: look for a clash, then insert. */
    method Register(username: Option<string>, email: Option<string>, password: Option<string>,
                    hash: string -> string, sign: Claims -> string) returns (r: Outcome<Session>)
      requires Valid()
      modifies this
      ensures Valid()
      ensures Enrolment(r, State()) == RegisterEffect(old(State()), username, email, password, hash, sign)
    {
      ghost var before := State();
      RegisterKeepsConsistent(before, username, email, password, hash, sign);
      var verdict := ValidateRegistration(username, email, password);
      if verdict.Reject? {
        r := Error(verdict.status, verdict.message);
      } else {
        var clash := Clashing(users, username.value, email.value);
        if |clash| > 0 {
          r := Error(400, AccountExists);
        } else {
          var user := User(nextId, username.value, email.value, hash(password.value));
          users := users + [user];
          nextId := nextId + 1;
          r := Ok(201, SessionFor(Registered, user, sign));
        }
      }
    }

    /** POST /login: look the user up, check the password, sign a token;
        the table is only read. */
    method Login(username: Option<string>, password: Option<string>,
                 hash: string -> string, sign: Claims -> string) returns (r: Outcome<Session>)
      ensures r == LoginReply(State(), username, password, hash, sign)
    {
      if !Truthy(username) || !Truthy(password) {
        return Error(400, CredentialsRequired);
      }
      var found := Named(users, username.value);
      if |found| == 0 {
        return Error(401, InvalidCredentials);
      }
      var user := found[0];
      var valid := hash(password.value) == user.passwordHash;
      if !valid {
        return Error(401, InvalidCredentials);
      }
      r := Ok(200, SessionFor(LoggedIn, user, sign));
    }
  }
}
