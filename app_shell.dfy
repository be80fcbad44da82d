/** What a page hands to `onNavigate`: the page name and, optionally, data carrying a user. */
module Navigation {
  import opened Wrappers
  import AuthRoutes

  /** The signed-in user as the pages pass it around: the fields the sign-in route sends back. */
  type User = AuthRoutes.Profile

  /** The `data` argument; `user` is `None` when the field is missing or falsy. */
  datatype NavData = NavData(user: Option<User>)

  datatype Request = Request(page: string, data: Option<NavData>)
}

/**
 * The page shell of both versions of `App`: the current page name, the signed-in user, the
 * navigation callback every page receives and the switch that picks the page to show.
 */
module App {
  import opened Wrappers
  import opened Navigation

  /** The page `renderPage` shows, with the user it hands to the pages that take one. */
  datatype Screen =
    | LoginScreen
    | SignupScreen
    | WelcomeScreen(user: Option<User>)
    | SettingsScreen(user: Option<User>)
    | BlogScreen(user: Option<User>)
    | AdventureScreen

  /** The page names the current `renderPage` knows besides 'login'. */
  const Pages: set<string> := {"signup", "welcome", "settings", "blog", "adventure"}

  /** The page names the older `renderPage` knows besides 'login'. */
  const LegacyPages: set<string> := {"signup", "welcome", "blog"}

  /** The page name each screen other than the login screen is shown for. */
  function PageOf(s: Screen): string {
    match s
    case LoginScreen => "login"
    case SignupScreen => "signup"
    case WelcomeScreen(_) => "welcome"
    case SettingsScreen(_) => "settings"
    case BlogScreen(_) => "blog"
    case AdventureScreen => "adventure"
  }

  /** `renderPage`: every known name shows its own page, anything else the login page. */
  function RenderPage(page: string, user: Option<User>): (s: Screen)
    ensures s.LoginScreen? <==> page !in Pages
    ensures page in Pages ==> PageOf(s) == page
    ensures s.WelcomeScreen? || s.SettingsScreen? || s.BlogScreen? ==> s.user == user
  {
    match page
    case "signup" => SignupScreen
    case "welcome" => WelcomeScreen(user)
    case "settings" => SettingsScreen(user)
    case "blog" => BlogScreen(user)
    case "adventure" => AdventureScreen
    case _ => LoginScreen
  }

  /** The older `renderPage`, which has no settings or adventure page. */
  function LegacyRenderPage(page: string, user: Option<User>): (s: Screen)
    ensures s.LoginScreen? <==> page !in LegacyPages
    ensures page in LegacyPages ==> PageOf(s) == page
    ensures s.WelcomeScreen? || s.BlogScreen? ==> s.user == user
    ensures !s.SettingsScreen? && !s.AdventureScreen?
  {
    match page
    case "signup" => SignupScreen
    case "welcome" => WelcomeScreen(user)
    case "blog" => BlogScreen(user)
    case _ => LoginScreen
  }

  /** The screen determines the page name that produced it (apart from the login fallback). */
  lemma RenderPageInjective(p: string, q: string, user: Option<User>)
    requires p in Pages && q in Pages
    ensures RenderPage(p, user) == RenderPage(q, user) <==> p == q
  {
    if RenderPage(p, user) == RenderPage(q, user) {
      assert PageOf(RenderPage(p, user)) == p;
    }
  }

  /**
   * The newer switch extends the older one: they agree on every name except 'settings' and
   * 'adventure', which the older one sends to the login page.
   */
  lemma LegacyAgrees(page: string, user: Option<User>)
    ensures page !in {"settings", "adventure"} ==> LegacyRenderPage(page, user) == RenderPage(page, user)
    ensures page in {"settings", "adventure"} ==>
      LegacyRenderPage(page, user) == LoginScreen && RenderPage(page, user) != LoginScreen
  {
  }

  /** The `App` component's state: the page name and the user, and which `renderPage` it uses. */
  class Shell {
    const legacy: bool
    var currentPage: string
    var user: Option<User>

    /** The first render: the login page and no user. */
    constructor (legacy: bool)
      ensures this.legacy == legacy && currentPage == "login" && user == None
      ensures View() == LoginScreen
    {
      this.legacy := legacy;
      currentPage := "login";
      user := None;
    }

    /** What the shell shows for its current state. */
    function View(): (s: Screen)
      reads this
      ensures s.LoginScreen? <==> currentPage !in (if legacy then LegacyPages else Pages)
    {
      if legacy then LegacyRenderPage(currentPage, user) else RenderPage(currentPage, user)
    }

    /**
     * `handleNavigate`: always moves to the requested page; replaces the user only when the data
     * carries one, so navigating without a user never signs anybody out.
     */
    method HandleNavigate(r: Request)
      modifies this
      ensures currentPage == r.page
      ensures r.data.Some? && r.data.value.user.Some? ==> user == r.data.value.user
      ensures !(r.data.Some? && r.data.value.user.Some?) ==> user == old(user)
    {
      if r.data.Some? && r.data.value.user.Some? {
        user := r.data.value.user;
      }
      currentPage := r.page;
    }
  }

  /** Once signed in, a user stays signed in through any navigation that carries no user. */
  method NavigateKeepsUser(legacy: bool, signedIn: User, pages: seq<string>) returns (last: Option<User>)
    ensures last == Some(signedIn)
  {
    var shell := new Shell(legacy);
    shell.HandleNavigate(Request("welcome", Some(NavData(Some(signedIn)))));
    var i := 0;
    while i < |pages|
      invariant 0 <= i <= |pages|
      invariant shell.user == Some(signedIn)
    {
      shell.HandleNavigate(Request(pages[i], None));
      i := i + 1;
    }
    last := shell.user;
  }
}
