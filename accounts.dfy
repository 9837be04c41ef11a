/** The backend's in-memory account store: `users_db` maps an email to the
    registered user record and `tokens_db` maps an issued token to the email
    it was issued for. `/register` and `/login` are the only operations. */
module Accounts {
  import opened Wrappers
  import opened Http

  /** The record `user.dict()` stores for a registration. */
  datatype UserRecord = UserRecord(email: string, username: string, password: string)

  /** Body of a successful `/register`. */
  datatype RegisterReply = RegisterReply(message: string, user: string)

  /** Body of a successful `/login`. */
  datatype LoginReply = LoginReply(accessToken: string, tokenType: string, username: string)

  /** The two module-level dictionaries. */
  datatype Store = Store(users: map<string, UserRecord>, tokens: map<string, string>)

  const EmptyStore := Store(map[], map[])

  const EmailTaken := HttpError(400, "Email already registered")
  const BadCredentials := HttpError(401, "Invalid credentials")

  /** The deterministic mock token issued to an email. */
  function TokenFor(email: string): string {
    "mock-token-" + email
  }

  /** Two emails never share a token. */
  lemma TokenForInjective(a: string, b: string)
    requires TokenFor(a) == TokenFor(b)
    ensures a == b
  {
    assert a == TokenFor(a)[|"mock-token-"|..];
    assert b == TokenFor(b)[|"mock-token-"|..];
  }

  /** What the store keeps true: each user is filed under its own email, and
      every token belongs to a registered email and is that email's token. */
  ghost predicate Consistent(s: Store) {
    && (forall e :: e in s.users ==> s.users[e].email == e)
    && (forall t :: t in s.tokens ==> s.tokens[t] in s.users && t == TokenFor(s.tokens[t]))
  }

  /** `/register`: a known email is refused with 400 and nothing changes;
      otherwise exactly that email is added, mapped to the submitted record,
      and the reply names the user. Tokens are never touched. */
  function RegisterStep(s: Store, u: UserRecord): (r: (Store, Result<RegisterReply, HttpError>))
    ensures u.email in s.users ==> r == (s, Err(EmailTaken))
    ensures u.email !in s.users ==>
      && r.1 == Ok(RegisterReply("Registration successful", u.username))
      && r.0.tokens == s.tokens
      && r.0.users.Keys == s.users.Keys + {u.email}
      && r.0.users[u.email] == u
      && (forall e :: e in s.users ==> r.0.users[e] == s.users[e])
  {
    if u.email in s.users then (s, Err(EmailTaken))
    else (s.(users := s.users[u.email := u]), Ok(RegisterReply("Registration successful", u.username)))
  }

  /** `/login`: fails with 401 and changes nothing exactly when the email is
      unknown or the password differs; otherwise issues the email's token,
      records it in `tokens_db` and returns the stored username. */
  function LoginStep(s: Store, email: string, password: string): (r: (Store, Result<LoginReply, HttpError>))
    ensures r.1.Err? <==> (email !in s.users || s.users[email].password != password)
    ensures r.1.Err? ==> r == (s, Err(BadCredentials))
    ensures r.1.Ok? ==>
      && r.1.value == LoginReply(TokenFor(email), "bearer", s.users[email].username)
      && r.0.users == s.users
      && r.0.tokens.Keys == s.tokens.Keys + {TokenFor(email)}
      && r.0.tokens[TokenFor(email)] == email
      && (forall t :: t in s.tokens && t != TokenFor(email) ==> r.0.tokens[t] == s.tokens[t])
  {
    if email !in s.users || s.users[email].password != password then (s, Err(BadCredentials))
    else
      var token := TokenFor(email);
      (s.(tokens := s.tokens[token := email]), Ok(LoginReply(token, "bearer", s.users[email].username)))
  }

  /** Registration keeps the store consistent. */
  lemma RegisterKeepsConsistent(s: Store, u: UserRecord)
    requires Consistent(s)
    ensures Consistent(RegisterStep(s, u).0)
  {
  }

  /** Login keeps the store consistent. */
  lemma LoginKeepsConsistent(s: Store, email: string, password: string)
    requires Consistent(s)
    ensures Consistent(LoginStep(s, email, password).0)
  {
  }

  /** A freshly registered user can log in at once with the password given,
      and gets their own token and username back. */
  lemma RegisterThenLogin(s: Store, u: UserRecord)
    requires u.email !in s.users
    ensures
      var s1 := RegisterStep(s, u).0;
      LoginStep(s1, u.email, u.password).1 == Ok(LoginReply(TokenFor(u.email), "bearer", u.username))
  {
  }

  /** A second registration of the same email is refused and leaves the store as the first left it. */
  lemma RegisterTwiceRefused(s: Store, u: UserRecord, v: UserRecord)
    requires u.email !in s.users && v.email == u.email
    ensures
      var s1 := RegisterStep(s, u).0;
      RegisterStep(s1, v) == (s1, Err(EmailTaken))
  {
  }

  /** Logging in twice leaves `tokens_db` as logging in once does, and both replies agree. */
  lemma LoginIdempotent(s: Store, email: string, password: string)
    ensures
      var (s1, r1) := LoginStep(s, email, password);
      var (s2, r2) := LoginStep(s1, email, password);
      s2 == s1 && r2 == r1
  {
    var (s1, r1) := LoginStep(s, email, password);
    if r1.Ok? {
      assert s1.tokens[TokenFor(email) := email] == s1.tokens;
    }
  }

  /** The store as the server holds it: two dictionaries updated in place. */
  class AccountServer {
    var users: map<string, UserRecord>
    var tokens: map<string, string>

    function State(): Store
      reads this
    {
      Store(users, tokens)
    }

    /** Both dictionaries start empty. */
    constructor ()
      ensures State() == EmptyStore && Consistent(State())
    {
      users := map[];
      tokens := map[];
    }

    /** The `/register` handler. */
    method Register(u: UserRecord) returns (reply: Result<RegisterReply, HttpError>)
      requires Consistent(State())
      modifies this
      ensures (State(), reply) == RegisterStep(old(State()), u)
      ensures Consistent(State())
    {
      RegisterKeepsConsistent(State(), u);
      if u.email in users {
        return Err(EmailTaken);
      }
      users := users[u.email := u];
      reply := Ok(RegisterReply("Registration successful", u.username));
    }

    /** The `/login` handler. */
    method Login(email: string, password: string) returns (reply: Result<LoginReply, HttpError>)
      requires Consistent(State())
      modifies this
      ensures (State(), reply) == LoginStep(old(State()), email, password)
      ensures Consistent(State())
    {
      LoginKeepsConsistent(State(), email, password);
      if email !in users || users[email].password != password {
        return Err(BadCredentials);
      }
      var token := TokenFor(email);
      tokens := tokens[token := email];
      reply := Ok(LoginReply(token, "bearer", users[email].username));
    }
  }
}
