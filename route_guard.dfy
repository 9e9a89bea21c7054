/** The route guard wrapped around every page: from the authentication state
    (is there a user, is the state still loading) and the current path it
    decides what to render and whether to navigate away. */
module RouteGuard {
  import opened Common

  /** The routes meant for visitors without a session. */
  const AuthPages: seq<string> := ["/login", "/register", "/verify-email", "/forgot-password", "/reset-password"]

  /** `pages.some(page => path.startsWith(page))` */
  predicate SomePrefix(pages: seq<string>, path: string)
    decreases |pages|
  {
    |pages| > 0 && (StartsWith(path, pages[0]) || SomePrefix(pages[1..], path))
  }

  /** A path is an auth page when it starts with one of the auth routes. */
  predicate IsAuthPage(path: string) {
    SomePrefix(AuthPages, path)
  }

  /** What the guard wants done about the current path. */
  datatype Decision = Allow | RedirectLogin | RedirectHome

  /** Case 1 and case 2 of the redirect effect; both blocking panels use the same tests. */
  function Decide(signedIn: bool, path: string): Decision {
    if !signedIn && !IsAuthPage(path) then RedirectLogin
    else if signedIn && IsAuthPage(path) && !StartsWith(path, ResetPasswordPath) then RedirectHome
    else Allow
  }

  /** Where a redirecting decision navigates to. */
  function TargetOf(d: Decision): (t: Option<string>)
    ensures t.None? <==> d == Allow
  {
    match d
    case Allow => None
    case RedirectLogin => Some(LoginPath)
    case RedirectHome => Some(HomePath)
  }

  /** The five things the guard can render. */
  datatype View =
    | CheckingAuthentication
    | Redirecting(toLogin: bool)   // "Redirecting to login..." or "... to home..."
    | AuthenticationRequired       // panel with a "Go to Login" button
    | AlreadyLoggedIn              // panel with a "Go to Home" button
    | Children

  /** The render's precedence chain: loading, then redirecting, then the two
      blocking panels, then the wrapped page. */
  function ViewOf(signedIn: bool, loading: bool, isRedirecting: bool, path: string): View {
    if loading then CheckingAuthentication
    else if isRedirecting then Redirecting(!signedIn)
    else match Decide(signedIn, path)
      case RedirectLogin => AuthenticationRequired
      case RedirectHome => AlreadyLoggedIn
      case Allow => Children
  }

  /** Where the button on a blocking panel navigates to, if the view has one. */
  function PanelButtonTarget(v: View): (t: Option<string>)
    ensures t.Some? <==> v.AuthenticationRequired? || v.AlreadyLoggedIn?
  {
    match v
    case AuthenticationRequired => Some(LoginPath)
    case AlreadyLoggedIn => Some(HomePath)
    case _ => None
  }

  /** The state the guard component keeps: the `isRedirecting` flag, the 100 ms
      navigation timer scheduled by the effect (at most one, because the
      effect's cleanup cancels the previous one), and the number of 3 s
      fallback timers that renders have started and that have not fired yet. */
  class Guard {
    var isRedirecting: bool
    var scheduled: Option<string>
    var armedFallbacks: nat

    constructor ()
      ensures !isRedirecting && scheduled == None && armedFallbacks == 0
    {
      isRedirecting := false;
      scheduled := None;
      armedFallbacks := 0;
    }

    /** The effect, run whenever the user, loading flag or path changes. The
        previous run's cleanup first cancels a pending navigation timer. */
    method RunEffect(signedIn: bool, loading: bool, path: string)
      modifies this
      ensures armedFallbacks == old(armedFallbacks)
      ensures loading ==> isRedirecting == old(isRedirecting) && scheduled == None
      ensures !loading ==> isRedirecting == (Decide(signedIn, path) != Allow)
      ensures !loading ==> scheduled == TargetOf(Decide(signedIn, path))
    {
      scheduled := None;
      if loading {
        return;
      }
      if !signedIn && !IsAuthPage(path) {
        isRedirecting := true;
        scheduled := Some(LoginPath);
        return;
      }
      if signedIn && IsAuthPage(path) && !StartsWith(path, ResetPasswordPath) {
        isRedirecting := true;
        scheduled := Some(HomePath);
        return;
      }
      isRedirecting := false;
    }

    /** A render. While redirecting (and not loading) it starts one more 3 s
        fallback timer, which nothing ever cancels. */
    method Render(signedIn: bool, loading: bool, path: string) returns (v: View)
      modifies this
      ensures v == ViewOf(signedIn, loading, old(isRedirecting), path)
      ensures isRedirecting == old(isRedirecting) && scheduled == old(scheduled)
      ensures armedFallbacks == old(armedFallbacks) + (if !loading && isRedirecting then 1 else 0)
    {
      v := ViewOf(signedIn, loading, isRedirecting, path);
      if !loading && isRedirecting {
        armedFallbacks := armedFallbacks + 1;
      }
    }

    /** The 100 ms navigation timer fires: the scheduled navigation happens. */
    method NavigationTimerFires() returns (nav: Option<string>)
      modifies this
      ensures nav == old(scheduled) && scheduled == None
      ensures isRedirecting == old(isRedirecting) && armedFallbacks == old(armedFallbacks)
    {
      nav := scheduled;
      scheduled := None;
    }

    /** One of the 3 s fallback timers fires: the flag is cleared and nothing
        navigates. With no armed timer there is nothing to fire. */
    method FallbackTimerFires()
      modifies this
      ensures scheduled == old(scheduled)
      ensures old(armedFallbacks) > 0 ==> !isRedirecting && armedFallbacks == old(armedFallbacks) - 1
      ensures old(armedFallbacks) == 0 ==> isRedirecting == old(isRedirecting) && armedFallbacks == 0
    {
      if armedFallbacks > 0 {
        armedFallbacks := armedFallbacks - 1;
        isRedirecting := false;
      }
    }
  }

  // ---------------------------------------------------------------------------
  // Properties of the classification and of the decision

  /** The auth-page test is a prefix match against exactly the five routes. */
  lemma IsAuthPageIff(path: string)
    ensures IsAuthPage(path) <==>
      StartsWith(path, "/login") || StartsWith(path, "/register") ||
      StartsWith(path, "/verify-email") || StartsWith(path, "/forgot-password") ||
      StartsWith(path, "/reset-password")
  {
    var p := AuthPages;
    assert p[1..][1..][1..][1..][1..] == [];
  }

  /** Being a prefix match, the test also classifies extensions of the routes. */
  lemma PrefixExamples()
    ensures IsAuthPage("/loginx")
    ensures IsAuthPage("/reset-password/confirm")
    ensures !IsAuthPage("/todos")
    ensures !IsAuthPage("/")
  {
    IsAuthPageIff("/loginx");
    IsAuthPageIff("/reset-password/confirm");
    IsAuthPageIff("/todos");
    assert "/todos"[..6][1] != "/login"[1];
    IsAuthPageIff("/");
  }

  /** The two redirect conditions never hold together, and the effect only
      stands still (Allow) when neither holds. */
  lemma RedirectConditionsExclusive(signedIn: bool, path: string)
    ensures !((!signedIn && !IsAuthPage(path)) &&
              (signedIn && IsAuthPage(path) && !StartsWith(path, ResetPasswordPath)))
    ensures Decide(signedIn, path) == Allow <==>
      !(!signedIn && !IsAuthPage(path)) &&
      !(signedIn && IsAuthPage(path) && !StartsWith(path, ResetPasswordPath))
  {
  }

  /** While loading, the interstitial is shown whatever the user, flag and path. */
  lemma LoadingShowsInterstitial(signedIn: bool, isRedirecting: bool, path: string)
    ensures ViewOf(signedIn, true, isRedirecting, path) == CheckingAuthentication
  {
  }

  /** The wrapped page is shown exactly when nothing stands in its way. */
  lemma ChildrenIff(signedIn: bool, loading: bool, isRedirecting: bool, path: string)
    ensures ViewOf(signedIn, loading, isRedirecting, path) == Children <==>
      !loading && !isRedirecting &&
      !(!signedIn && !IsAuthPage(path)) &&
      !(signedIn && IsAuthPage(path) && !StartsWith(path, ResetPasswordPath))
  {
  }

  /** Recovery carve-out: a signed-in user on any path under /reset-password is
      allowed, although that path is an auth page. */
  lemma ResetPasswordCarveOut(path: string)
    requires StartsWith(path, ResetPasswordPath)
    ensures IsAuthPage(path)
    ensures Decide(true, path) == Allow
    ensures TargetOf(Decide(true, path)) == None
    ensures ViewOf(true, false, false, path) == Children
  {
    IsAuthPageIff(path);
  }

  /** The decision table: anonymous visitors may see exactly the auth pages,
      and signed-in users are sent home from every auth page but the recovery one. */
  lemma DecisionTable(signedIn: bool, path: string)
    ensures !signedIn && IsAuthPage(path) ==> Decide(signedIn, path) == Allow
    ensures !signedIn && !IsAuthPage(path) ==> Decide(signedIn, path) == RedirectLogin
    ensures signedIn && IsAuthPage(path) && !StartsWith(path, ResetPasswordPath) ==>
      Decide(signedIn, path) == RedirectHome
    ensures signedIn && !IsAuthPage(path) ==> Decide(signedIn, path) == Allow
  {
  }

  /** When a blocking panel is shown, its button leads where the redirect would. */
  lemma PanelAgreesWithRedirect(signedIn: bool, path: string)
    ensures PanelButtonTarget(ViewOf(signedIn, false, false, path)) ==
      TargetOf(Decide(signedIn, path))
  {
  }

  // ---------------------------------------------------------------------------
  // Scenarios, stated over the class

  /** An anonymous visitor asks for /todos. The first render after loading
      comes before the effect runs, so it paints the "Authentication Required"
      panel; the effect then raises the flag, the next render is the
      interstitial, and the navigation timer goes to /login. */
  method AnonymousVisitsTodos() returns (first: View, v: View, nav: Option<string>)
    ensures first == AuthenticationRequired
    ensures v == Redirecting(true) && nav == Some(LoginPath)
  {
    var g := new Guard();
    PrefixExamples();
    first := g.Render(false, false, "/todos");
    g.RunEffect(false, false, "/todos");
    v := g.Render(false, false, "/todos");
    nav := g.NavigationTimerFires();
  }

  /** A signed-in visitor asks for /login: interstitial, then home. */
  method SignedInVisitsLogin() returns (v: View, nav: Option<string>)
    ensures v == Redirecting(false) && nav == Some(HomePath)
  {
    var g := new Guard();
    IsAuthPageIff("/login");
    g.RunEffect(true, false, "/login");
    v := g.Render(true, false, "/login");
    nav := g.NavigationTimerFires();
  }

  /** A visitor signed in by a recovery link lands on /reset-password: the page
      is shown and nothing is scheduled. */
  method RecoveryLinkVisitor() returns (v: View, nav: Option<string>)
    ensures v == Children && nav == None
  {
    var g := new Guard();
    ResetPasswordCarveOut("/reset-password");
    g.RunEffect(true, false, "/reset-password");
    v := g.Render(true, false, "/reset-password");
    nav := g.NavigationTimerFires();
  }

  /** Re-running the effect with unchanged inputs gives the same state and still
      at most one scheduled navigation. */
  method EffectIdempotent(g: Guard, signedIn: bool, loading: bool, path: string)
    returns (first: (bool, Option<string>), second: (bool, Option<string>))
    modifies g
    ensures first == second
    ensures !loading ==> first.1 == TargetOf(Decide(signedIn, path))
    ensures g.armedFallbacks == old(g.armedFallbacks)
  {
    g.RunEffect(signedIn, loading, path);
    first := (g.isRedirecting, g.scheduled);
    g.RunEffect(signedIn, loading, path);
    second := (g.isRedirecting, g.scheduled);
  }

  /** The fallback timer started by a redirecting render clears the flag
      without navigating, even when the scheduled navigation never happened:
      the next render shows the blocking panel with its manual button. */
  method FallbackUnsticks(signedIn: bool, path: string) returns (before: View, after: View, nav: Option<string>)
    requires Decide(signedIn, path) != Allow
    ensures before.Redirecting? && !after.Redirecting? && after != CheckingAuthentication
    ensures after == (if signedIn then AlreadyLoggedIn else AuthenticationRequired)
    ensures nav == TargetOf(Decide(signedIn, path))
  {
    var g := new Guard();
    g.RunEffect(signedIn, false, path);
    before := g.Render(signedIn, false, path);
    g.FallbackTimerFires();
    after := g.Render(signedIn, false, path);
    nav := g.scheduled;
  }
}
