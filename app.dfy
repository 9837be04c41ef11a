/** The application shell: the route table with its token guard, the
    result page's data, the dashboard's generation handler and logout. */
module AppShell {
  import opened Wrappers
  import opened Browser

  datatype Page = AuthPage | DashboardPage | ResultPage | ImageGeneratorPage

  /** What a route renders: a page, a `<Navigate replace>` to another path,
      or nothing when no route matches. */
  datatype View = Show(page: Page) | Redirect(to: string) | NoMatch

  /** `localStorage.getItem('token')` is truthy: present and not empty. */
  predicate HasToken(storage: map<string, string>) {
    "token" in storage && storage["token"] != ""
  }

  const LoginPath := "/login"
  const RegisterPath := "/register"
  const DashboardPath := "/dashboard"
  const ResultPath := "/result"
  const ImageGeneratorPath := "/image-generator"
  const RootPath := "/"

  const AlertPrefix := "Generation failed: "
  /** The message of the error thrown for a non-ok status. */
  const ApiErrorMessage := "API Error"

  const GuardedPaths: set<string> := {DashboardPath, ResultPath, ImageGeneratorPath}

  /** `ProtectedRoute`: its children unchanged when a token is stored, a
      redirect to the login page otherwise. */
  function Protected(storage: map<string, string>, children: View): (v: View)
    ensures HasToken(storage) ==> v == children
    ensures !HasToken(storage) ==> v == Redirect(LoginPath)
  {
    if !HasToken(storage) then Redirect(LoginPath) else children
  }

  /** `ResultWrapper`: the result page when there is data, else back to the dashboard. */
  function ResultView(data: Option<map<string, string>>): (v: View)
    ensures v == Show(ResultPage) <==> data.Some?
    ensures data.None? ==> v == Redirect(DashboardPath)
  {
    if data.None? then Redirect(DashboardPath) else Show(ResultPage)
  }

  /** The route table: the five listed paths and "/" are matched, every
      redirect leads to the login page or the dashboard, and no page but
      the auth page is shown without a token. */
  function Route(path: string, storage: map<string, string>, data: Option<map<string, string>>): (v: View)
    ensures v == NoMatch <==> path !in GuardedPaths + {LoginPath, RegisterPath, RootPath}
    ensures v.Redirect? ==> v.to == LoginPath || v.to == DashboardPath
    ensures v.Show? && v.page != AuthPage ==> HasToken(storage)
  {
    if path == LoginPath || path == RegisterPath then Show(AuthPage)
    else if path == DashboardPath then Protected(storage, Show(DashboardPage))
    else if path == ResultPath then Protected(storage, ResultView(data))
    else if path == ImageGeneratorPath then Protected(storage, Show(ImageGeneratorPage))
    else if path == RootPath then Redirect(DashboardPath)
    else NoMatch
  }

  /** Exactly the three guarded paths send a visitor without a token to the
      login page; the login and register pages never redirect. */
  lemma GuardedIffRedirectsToLogin(path: string, storage: map<string, string>, data: Option<map<string, string>>)
    requires !HasToken(storage)
    ensures Route(path, storage, data) == Redirect(LoginPath) <==> path in GuardedPaths
    ensures path == LoginPath || path == RegisterPath ==> Route(path, storage, data) == Show(AuthPage)
  {
  }

  /** With a token the guard lets every guarded path through. */
  lemma TokenOpensGuardedPaths(path: string, storage: map<string, string>, data: Option<map<string, string>>)
    requires HasToken(storage) && path in GuardedPaths
    ensures Route(path, storage, data) != Redirect(LoginPath)
    ensures path != ResultPath || data.Some? ==> Route(path, storage, data).Show?
  {
  }

  /** The view reached after following at most `hops` redirects. */
  function Settle(path: string, storage: map<string, string>, data: Option<map<string, string>>, hops: nat): View
    decreases hops
  {
    var v := Route(path, storage, data);
    if v.Redirect? && hops > 0 then Settle(v.to, storage, data, hops - 1) else v
  }

  /** Every path settles within three redirects: "/" goes to the dashboard,
      which may go on to the login page; the result page without data goes
      to the dashboard. No redirect loop exists. */
  lemma SettlesWithinThree(path: string, storage: map<string, string>, data: Option<map<string, string>>)
    ensures !Settle(path, storage, data, 3).Redirect?
    ensures !HasToken(storage) ==> Settle(path, storage, data, 3) in {Show(AuthPage), NoMatch}
    ensures HasToken(storage) && data.None? && path in {RootPath, ResultPath} ==> Settle(path, storage, data, 3) == Show(DashboardPage)
  {
    var v := Route(path, storage, data);
    if v.Redirect? {
      var w := Route(v.to, storage, data);
      assert Settle(path, storage, data, 3) == Settle(v.to, storage, data, 2);
      if w.Redirect? {
        var x := Route(w.to, storage, data);
        assert Settle(v.to, storage, data, 2) == Settle(w.to, storage, data, 1);
        assert !x.Redirect?;
        assert Settle(w.to, storage, data, 1) == x;
      }
    }
  }

  /** The shell's own state and handlers. */
  class Shell {
    const window: Window
    /** `generatedData`: the last `/generate` response body, if any. */
    var generatedData: Option<map<string, string>>

    /** No data until a generation succeeds. */
    constructor (window: Window)
      ensures this.window == window && generatedData == None
    {
      this.window := window;
      generatedData := None;
    }

    function CurrentView(): View
      reads this, window
    {
      Route(window.route, window.storage, generatedData)
    }

    /** `DashboardWrapper.handleGen` once the reply is in. An ok response is
        kept and the result page opened; otherwise an alert names the error
        (`ApiErrorMessage` for a non-ok status) and nothing else changes. */
    method HandleGen(reply: HttpReply)
      modifies this, window
      ensures window.storage == old(window.storage)
      ensures match reply
        case Response(ok, body) =>
          if ok then
            && generatedData == Some(body) && window.route == ResultPath
            && window.alerts == old(window.alerts)
          else
            && generatedData == old(generatedData) && window.route == old(window.route)
            && window.alerts == old(window.alerts) + [AlertPrefix + ApiErrorMessage]
        case Failure(m) =>
          && generatedData == old(generatedData) && window.route == old(window.route)
          && window.alerts == old(window.alerts) + [AlertPrefix + m]
      ensures HasToken(window.storage) && reply.Response? && reply.ok ==> CurrentView() == Show(ResultPage)
    {
      match reply {
        case Response(ok, body) =>
          if !ok {
            window.alerts := window.alerts + [AlertPrefix + ApiErrorMessage];
          } else {
            generatedData := Some(body);
            window.route := ResultPath;
          }
        case Failure(m) =>
          window.alerts := window.alerts + [AlertPrefix + m];
      }
    }

    /** The logout button: all of storage is cleared and the login page opened,
        after which every guarded path redirects to it. */
    method Logout()
      modifies window
      ensures window.storage == map[] && window.route == LoginPath
      ensures window.alerts == old(window.alerts) && generatedData == old(generatedData)
      ensures CurrentView() == Show(AuthPage)
      ensures forall p :: p in GuardedPaths ==> Route(p, window.storage, generatedData) == Redirect(LoginPath)
    {
      window.storage := map[];
      window.route := LoginPath;
    }
  }
}
