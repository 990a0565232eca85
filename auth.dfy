/** The signup and login routes of controllers/auth.js over the User
    collection, found by email. Password hashing (bcrypt), password
    comparison and token signing (JWT) are opaque functions passed in. */
module Auth {
  import opened Common

  /** The bcrypt cost factor used for every stored password. */
  const SaltRounds: nat := 12

  const EmailTaken := "Email already taken."
  const InvalidCredentials := "Invalid credentials."

  type Token = string

  /** A stored account. Only the hash of the password is kept. */
  datatype User = User(id: UserId, name: string, email: string, hashedPassword: string)

  /** The primitives the routes call but do not define:
      `hash(password, rounds, salt)` is `bcrypt.hashSync` with its random salt
      made explicit; `compare` is `bcrypt.compareSync`; `sign(payload, secret,
      issuedAt)` is `jwt.sign`, which stamps the issue time; `secret` is
      JWT_SECRET from the environment. */
  datatype Crypto = Crypto(
    hash: (string, nat, string) -> string,
    compare: (string, string) -> bool,
    sign: (Profile, string, Time) -> Token,
    secret: string)

  /** The one fact assumed of bcrypt: a password matches any hash made of it. */
  ghost predicate Sound(c: Crypto)
  {
    forall password, rounds, salt :: c.compare(password, c.hash(password, rounds, salt))
  }

  /** The token payload `{name, email, _id}` built from a stored user. */
  function Payload(u: User): (p: Profile)
    ensures p.id == u.id && p.name == u.name && p.email == u.email
  {
    Profile(u.id, u.name, u.email)
  }

  /** The ids in use in a user collection. */
  function Ids(users: map<string, User>): set<UserId>
  {
    set e | e in users :: users[e].id
  }

  class UserStore {
    /** The User collection, keyed by the email that `findOne` looks up. */
    var users: map<string, User>

    /** Each user is filed under its own email, and no two users share an id. */
    ghost predicate Valid()
      reads this
    {
      && (forall e :: e in users ==> users[e].email == e)
      && (forall e1, e2 :: e1 in users && e2 in users && e1 != e2 ==> users[e1].id != users[e2].id)
    }

    constructor ()
      ensures Valid() && users == map[]
    {
      users := map[];
    }

    /** POST /auth/signup. A taken email gives 409 and changes nothing.
        Otherwise exactly one user is added, with a fresh id, the given name
        and email and the hash of the password at cost 12. The 201 reply
        carries a token signed over that user's `{name, email, _id}`. */
    method Signup(name: string, email: string, password: string, salt: string, c: Crypto, now: Time)
      returns (r: Reply<Token>)
      requires Valid()
      modifies this
      ensures Valid()
      ensures email in old(users) ==> r == Fail(StatusConflict, EmailTaken) && users == old(users)
      ensures email !in old(users) ==>
        && email in users
        && users == old(users)[email := users[email]]
        && users[email].id !in Ids(old(users))
        && users[email].name == name
        && users[email].hashedPassword == c.hash(password, SaltRounds, salt)
        && r == Ok(StatusCreated, c.sign(Payload(users[email]), c.secret, now))
    {
      if email in users {
        r := Fail(StatusConflict, EmailTaken);
        return;
      }
      ghost var bound := Above(Ids(users));
      assert bound !in Ids(users);
      var id :| id !in Ids(users);
      var user := User(id, name, email, c.hash(password, SaltRounds, salt));
      users := users[email := user];
      r := Ok(StatusCreated, c.sign(Payload(user), c.secret, now));
    }

    /** POST /auth/login. An unknown email and a wrong password give the
        same 401 reply; a matching password gives 200 with a token signed
        over the stored user's `{name, email, _id}`. Reads only. */
    function Login(email: string, password: string, c: Crypto, now: Time): (r: Reply<Token>)
      reads this
      ensures r.Ok? <==> email in users && c.compare(password, users[email].hashedPassword)
      ensures r.Ok? ==> r == Ok(StatusOk, c.sign(Payload(users[email]), c.secret, now))
      ensures r.Fail? ==> r == Fail(StatusUnauthorized, InvalidCredentials)
    {
      if email !in users then Fail(StatusUnauthorized, InvalidCredentials)
      else if !c.compare(password, users[email].hashedPassword) then Fail(StatusUnauthorized, InvalidCredentials)
      else Ok(StatusOk, c.sign(Payload(users[email]), c.secret, now))
    }
  }

  /** The two ways login can fail give replies that cannot be told apart. */
  lemma LoginFailuresAlike(store: UserStore, unknown: string, p1: string, known: string, p2: string, c: Crypto, t1: Time, t2: Time)
    requires unknown !in store.users
    requires known in store.users && !c.compare(p2, store.users[known].hashedPassword)
    ensures store.Login(unknown, p1, c, t1) == store.Login(known, p2, c, t2)
  {
  }

  /** The password a user signed up with logs that user in. */
  lemma LoginAcceptsOwnPassword(store: UserStore, email: string, password: string, salt: string, c: Crypto, now: Time)
    requires Sound(c)
    requires email in store.users && store.users[email].hashedPassword == c.hash(password, SaltRounds, salt)
    ensures store.Login(email, password, c, now) == Ok(StatusOk, c.sign(Payload(store.users[email]), c.secret, now))
  {
  }

  /** Signing up twice with one email, then logging in: the first signup
      succeeds, the second is refused and leaves the first account as it
      was, and login issues a token over the same claims as signup did. */
  method SignupTwiceThenLogin(c: Crypto, name: string, email: string, password: string,
                              otherName: string, otherPassword: string, salt1: string, salt2: string,
                              t1: Time, t2: Time, t3: Time)
    returns (first: Reply<Token>, second: Reply<Token>, login: Reply<Token>, account: User)
    requires Sound(c)
    ensures account.name == name && account.email == email
    ensures first == Ok(StatusCreated, c.sign(Payload(account), c.secret, t1))
    ensures second == Fail(StatusConflict, EmailTaken)
    ensures login == Ok(StatusOk, c.sign(Payload(account), c.secret, t3))
  {
    var store := new UserStore();
    first := store.Signup(name, email, password, salt1, c, t1);
    account := store.users[email];
    second := store.Signup(otherName, email, otherPassword, salt2, c, t2);
    LoginAcceptsOwnPassword(store, email, password, salt1, c, t3);
    login := store.Login(email, password, c, t3);
  }
}
