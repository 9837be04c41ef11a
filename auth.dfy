/** The login/register screen: a mode flag, a loading flag, an error line
    and the three-field form. Submitting is asynchronous, so it is split
    into the synchronous start (`BeginSubmit`) and the continuation that
    runs when the awaited reply is in (`FinishSubmit`); `Submit` runs both. */
module AuthScreen {
  import opened Wrappers
  import opened Browser
  import Accounts

  datatype Field = Username | Email | Password

  /** The form record. */
  datatype Credentials = Credentials(username: string, email: string, password: string)

  const EmptyCredentials := Credentials("", "", "")

  function Get(c: Credentials, name: Field): string {
    match name
    case Username => c.username
    case Email => c.email
    case Password => c.password
  }

  /** `{ ...formData, [name]: value }`: the named field takes the value, the others keep theirs. */
  function SetField(c: Credentials, name: Field, value: string): (r: Credentials)
    ensures Get(r, name) == value
    ensures forall g :: g != name ==> Get(r, g) == Get(c, g)
  {
    match name
    case Username => c.(username := value)
    case Email => c.(email := value)
    case Password => c.(password := value)
  }

  datatype Endpoint = LoginEndpoint | RegisterEndpoint

  /** The JSON body sent: login sends only email and password, register the whole form. */
  datatype Payload = LoginPayload(email: string, password: string) | RegisterPayload(username: string, email: string, password: string)

  datatype Request = Request(endpoint: Endpoint, payload: Payload)

  /** The request a submit sends: `/login` exactly in login mode, and the
      payload shape goes with the endpoint; no field is altered on the way. */
  function RequestFor(isLogin: bool, form: Credentials): (req: Request)
    ensures req.endpoint == LoginEndpoint <==> isLogin
    ensures req.payload.LoginPayload? <==> req.endpoint == LoginEndpoint
    ensures req.payload.email == form.email && req.payload.password == form.password
    ensures req.payload.RegisterPayload? ==> req.payload.username == form.username
  {
    if isLogin then Request(LoginEndpoint, LoginPayload(form.email, form.password))
    else Request(RegisterEndpoint, RegisterPayload(form.username, form.email, form.password))
  }

  const AuthFailedMessage := "Authentication failed"
  const RegisteredMessage := "Registration successful! Please login."

  /** How a submit ends. */
  datatype Outcome = LoggedIn(token: string, username: string) | Registered | Failed(message: string)

  /** The branch a reply takes: a thrown error or a non-ok response fails
      (with the server's `detail` when it has one, else the fixed message);
      an ok response logs in or registers according to the mode submitted in. */
  function OutcomeOf(submittedInLogin: bool, reply: HttpReply): (o: Outcome)
    ensures o.Failed? <==> reply.Failure? || !reply.ok
    ensures reply.Failure? ==> o == Failed(reply.message)
    ensures reply.Response? && !reply.ok ==>
      o.message == (if "detail" in reply.body && reply.body["detail"] != "" then reply.body["detail"] else AuthFailedMessage)
    ensures reply.Response? && reply.ok ==> (o.LoggedIn? <==> submittedInLogin)
    ensures o.LoggedIn? ==> o.token == FieldText(reply.body, "access_token") && o.username == FieldText(reply.body, "username")
  {
    match reply
    case Failure(m) => Failed(m)
    case Response(ok, body) =>
      if !ok then Failed(FieldOr(body, "detail", AuthFailedMessage))
      else if submittedInLogin then LoggedIn(FieldText(body, "access_token"), FieldText(body, "username"))
      else Registered
  }

  /** The backend reply to a successful login, as the screen receives it. */
  function LoginBody(r: Accounts.LoginReply): map<string, string> {
    map["access_token" := r.accessToken, "token_type" := r.tokenType, "username" := r.username]
  }

  /** Registering from the form and then logging in from the same form
      stores the backend's token for that email and the registered username. */
  lemma RegisterThenLoginFromForm(s: Accounts.Store, form: Credentials)
    requires form.email !in s.users
    ensures
      var reg := RequestFor(false, form).payload;
      var s1 := Accounts.RegisterStep(s, Accounts.UserRecord(reg.email, reg.username, reg.password)).0;
      var login := RequestFor(true, form).payload;
      var r := Accounts.LoginStep(s1, login.email, login.password).1;
      r.Ok? && OutcomeOf(true, Response(true, LoginBody(r.value))) == LoggedIn(Accounts.TokenFor(form.email), form.username)
  {
    var u := Accounts.UserRecord(form.email, form.username, form.password);
    Accounts.RegisterThenLogin(s, u);
  }

  class Auth {
    const window: Window
    var isLogin: bool
    var isLoading: bool
    var error: string
    var form: Credentials

    /** Login mode, not loading, no error, empty form. */
    constructor (window: Window)
      ensures this.window == window
      ensures isLogin && !isLoading && error == "" && form == EmptyCredentials
    {
      this.window := window;
      isLogin := true;
      isLoading := false;
      error := "";
      form := EmptyCredentials;
    }

    /** `handleChange`: one field of the form changes, nothing else. */
    method HandleChange(name: Field, value: string)
      modifies this
      ensures form == SetField(old(form), name, value)
      ensures isLogin == old(isLogin) && isLoading == old(isLoading) && error == old(error)
    {
      form := SetField(form, name, value);
    }

    /** The mode toggle: flips the mode and nothing else. */
    method Toggle()
      modifies this
      ensures isLogin == !old(isLogin)
      ensures isLoading == old(isLoading) && error == old(error) && form == old(form)
    {
      isLogin := !isLogin;
    }

    /** The synchronous start of `handleSubmit`: loading on, error cleared,
        and the request for the current mode and form. */
    method BeginSubmit() returns (req: Request)
      modifies this
      ensures isLoading && error == ""
      ensures req == RequestFor(isLogin, form)
      ensures isLogin == old(isLogin) && form == old(form)
    {
      isLoading := true;
      error := "";
      req := RequestFor(isLogin, form);
    }

    /** The rest of `handleSubmit` once the reply is in. Failure sets the
        error and touches neither storage nor route nor mode; a login stores
        token and username and goes to `/dashboard`; a registration switches
        to login mode with the success message. Loading is off in every case. */
    method FinishSubmit(submittedInLogin: bool, reply: HttpReply)
      modifies this, window
      ensures !isLoading && form == old(form) && window.alerts == old(window.alerts)
      ensures match OutcomeOf(submittedInLogin, reply)
        case Failed(m) =>
          && error == m && isLogin == old(isLogin)
          && window.storage == old(window.storage) && window.route == old(window.route)
        case LoggedIn(t, u) =>
          && error == old(error) && isLogin == old(isLogin)
          && window.storage == old(window.storage)["token" := t]["username" := u]
          && window.route == "/dashboard"
        case Registered =>
          && error == RegisteredMessage && isLogin
          && window.storage == old(window.storage) && window.route == old(window.route)
    {
      match reply {
        case Failure(m) =>
          error := m;
        case Response(ok, body) =>
          if !ok {
            error := FieldOr(body, "detail", AuthFailedMessage);
          } else if submittedInLogin {
            window.storage := window.storage["token" := FieldText(body, "access_token")];
            window.storage := window.storage["username" := FieldText(body, "username")];
            window.route := "/dashboard";
          } else {
            isLogin := true;
            error := RegisteredMessage;
          }
      }
      isLoading := false;
    }

    /** A whole submit whose reply is `reply`: the request goes out for the
        mode at submit time, and the screen ends as `OutcomeOf` says, not loading. */
    method Submit(reply: HttpReply) returns (req: Request)
      modifies this, window
      ensures req == RequestFor(old(isLogin), old(form))
      ensures !isLoading && form == old(form)
      ensures match OutcomeOf(old(isLogin), reply)
        case Failed(m) =>
          && error == m && isLogin == old(isLogin)
          && window.storage == old(window.storage) && window.route == old(window.route)
        case LoggedIn(t, u) =>
          && error == "" && isLogin
          && window.storage == old(window.storage)["token" := t]["username" := u]
          && window.route == "/dashboard"
        case Registered =>
          && error == RegisteredMessage && isLogin
          && window.storage == old(window.storage) && window.route == old(window.route)
    {
      req := BeginSubmit();
      FinishSubmit(isLogin, reply);
    }
  }
}
