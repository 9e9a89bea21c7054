/** The authentication state provider: it holds the current user, session and
    loading flag, fills them from the backend's initial session, keeps them
    current from the backend's change notifications, and signs out. Every
    backend answer is a parameter; navigation is returned to the caller. */
module AuthProvider {
  import opened Common
  import opened Identity
  import RouteGuard

  /** The browser location as far as the provider touches it. */
  datatype Url = Url(path: string, search: string, hash: string)

  /** The local-storage key holding the e-mail of a registration in progress. */
  const RegistrationEmailKey: string := "registrationEmail"

  /** `cleanUrl`: when the location has a fragment, the history entry is
      replaced by the same location without it; otherwise nothing is done. */
  function CleanUrl(u: Url): (r: Option<Url>)
    ensures r.None? <==> u.hash == ""
    ensures r.Some? ==> r.value.hash == "" && r.value.path == u.path && r.value.search == u.search
  {
    if u.hash != "" then Some(u.(hash := "")) else None
  }

  /** The location after `cleanUrl`. */
  function AfterCleanUrl(u: Url): Url {
    CleanUrl(u).GetOr(u)
  }

  /** Applying `cleanUrl` a second time does nothing. */
  lemma CleanUrlIdempotent(u: Url)
    ensures CleanUrl(AfterCleanUrl(u)) == None
    ensures AfterCleanUrl(AfterCleanUrl(u)) == AfterCleanUrl(u)
  {
  }

  /** The tag of a session-change notification. */
  datatype AuthEvent = SignedIn | SignedOut | TokenRefreshed | OtherEvent(name: string)

  /** What the initial `getSession` call produced. */
  datatype SessionFetch =
    | Fetched(session: Option<Session>)   // `{ data: { session }, error: null }`
    | FetchError(message: string)          // `{ error }` returned
    | FetchThrew                           // the awaited call rejected

  /** What the backend's sign-out produced. */
  datatype SignOutReply = SignOutOk | SignOutError(message: string) | SignOutThrew

  /** The outcome of `signOut` as its caller sees it. */
  datatype SignOutOutcome = NavigatedTo(path: string) | Rethrown

  /** The navigation a notification causes, given the path it arrives on:
      signing in from a page whose path mentions /login or /register goes
      home, signing out always goes to the login page, nothing else moves. */
  function EventNavigation(event: AuthEvent, session: Option<Session>, path: string): Option<string> {
    match event
    case SignedIn =>
      if session.Some? && (Contains(path, "/login") || Contains(path, "/register")) then Some(HomePath)
      else None
    case SignedOut => Some(LoginPath)
    case TokenRefreshed => None
    case OtherEvent(_) => None
  }

  /** The provider's state. `loadingWrites` records every value written to
      `loading`, in order, so that the transient `true` of a sign-out is visible. */
  class Provider {
    var user: Option<User>
    var session: Option<Session>
    var loading: bool
    var url: Url
    var storage: map<string, string>
    ghost var loadingWrites: seq<bool>

    /** Mounting: no user, no session, still loading. */
    constructor (location: Url, stored: map<string, string>)
      ensures user == None && session == None && loading
      ensures url == location && storage == stored && loadingWrites == []
    {
      user := None;
      session := None;
      loading := true;
      url := location;
      storage := stored;
      loadingWrites := [];
    }

    method SetLoading(b: bool)
      modifies this
      ensures loading == b && loadingWrites == old(loadingWrites) + [b]
      ensures user == old(user) && session == old(session) && url == old(url) && storage == old(storage)
    {
      loading := b;
      loadingWrites := loadingWrites + [b];
    }

    /** `getInitialSession`: on success the session and its user are stored
        and the fragment is cleaned; on an error or a rejection they are left
        as they were; in every case loading ends false. */
    method GetInitialSession(fetch: SessionFetch)
      modifies this
      ensures !loading && loadingWrites == old(loadingWrites) + [false]
      ensures storage == old(storage)
      ensures fetch.Fetched? ==> session == fetch.session && user == UserOf(fetch.session)
      ensures fetch.Fetched? ==> url == AfterCleanUrl(old(url))
      ensures !fetch.Fetched? ==> session == old(session) && user == old(user) && url == old(url)
    {
      match fetch {
        case Fetched(s) =>
          session := s;
          user := UserOf(s);
          url := AfterCleanUrl(url);
        case FetchError(_) =>
        case FetchThrew =>
      }
      SetLoading(false);
    }

    /** The `onAuthStateChange` callback: the session and user are replaced,
        loading is cleared, the fragment is cleaned, and the event tag decides
        the navigation, judged on the path read after cleaning (which
        cleaning does not change). */
    method OnAuthStateChange(event: AuthEvent, current: Option<Session>) returns (nav: Option<string>)
      modifies this
      ensures session == current && user == UserOf(current)
      ensures !loading && loadingWrites == old(loadingWrites) + [false]
      ensures url == AfterCleanUrl(old(url)) && storage == old(storage)
      ensures nav == EventNavigation(event, current, url.path) && url.path == old(url).path
    {
      session := current;
      user := UserOf(current);
      SetLoading(false);
      url := AfterCleanUrl(url);
      var path := url.path;
      match event {
        case SignedIn =>
          nav := None;
          if current.Some? {
            if Contains(path, "/login") || Contains(path, "/register") {
              nav := Some(HomePath);
            }
          }
        case SignedOut =>
          nav := Some(LoginPath);
        case TokenRefreshed =>
          nav := None;
        case OtherEvent(_) =>
          nav := None;
      }
    }

    /** `signOut`: loading goes up first and down last whatever happens. On a
        backend error (returned or thrown) the error is rethrown and nothing
        else happens; on success the stored registration e-mail is removed,
        the fragment cleaned, and the login page is the navigation target.
        The user and session are left to the SIGNED_OUT notification. */
    method SignOut(reply: SignOutReply) returns (outcome: SignOutOutcome)
      modifies this
      ensures !loading && loadingWrites == old(loadingWrites) + [true, false]
      ensures user == old(user) && session == old(session)
      ensures reply.SignOutOk? ==> outcome == NavigatedTo(LoginPath)
      ensures reply.SignOutOk? ==> storage == old(storage) - {RegistrationEmailKey}
      ensures reply.SignOutOk? ==> url == AfterCleanUrl(old(url))
      ensures !reply.SignOutOk? ==> outcome == Rethrown && storage == old(storage) && url == old(url)
    {
      SetLoading(true);
      if reply.SignOutOk? {
        storage := storage - {RegistrationEmailKey};
        url := AfterCleanUrl(url);
        outcome := NavigatedTo(LoginPath);
      } else {
        outcome := Rethrown;
      }
      SetLoading(false);
    }
  }

  // ---------------------------------------------------------------------------
  // Properties of the notification handling

  /** Signing in navigates home exactly when there is a session and the path
      contains /login or /register anywhere, not only at its start. */
  lemma SignedInNavigation(session: Option<Session>, path: string)
    ensures EventNavigation(SignedIn, session, path) == Some(HomePath) <==>
      session.Some? && (Contains(path, "/login") || Contains(path, "/register"))
    ensures EventNavigation(SignedIn, session, path) != Some(LoginPath)
  {
  }

  /** Containment, not prefix: a nested login path also sends the user home. */
  lemma SignedInOnNestedLoginPath(s: Session)
    ensures EventNavigation(SignedIn, Some(s), "/auth/login") == Some(HomePath)
    ensures EventNavigation(SignedIn, Some(s), "/todos") == None
  {
    assert OccursAt("/auth/login", "/login", 5);
    var p := "/todos";
    forall i | 0 <= i <= |p| ensures !OccursAt(p, "/login", i) && !OccursAt(p, "/register", i) {
      if i == 0 {
        assert p[1] != "/login"[1];
      }
    }
  }

  /** On a path that starts with /login or /register, a signed-in user is
      sent home by both components: the SIGNED_IN notification and the route
      guard's redirect agree on the target. */
  lemma SignedInLoginPagesAgree(s: Session, path: string)
    requires StartsWith(path, LoginPath) || StartsWith(path, "/register")
    ensures EventNavigation(SignedIn, Some(s), path) == Some(HomePath)
    ensures RouteGuard.Decide(true, path) == RouteGuard.RedirectHome
    ensures RouteGuard.TargetOf(RouteGuard.Decide(true, path)) == EventNavigation(SignedIn, Some(s), path)
  {
    RouteGuard.IsAuthPageIff(path);
    if StartsWith(path, LoginPath) {
      StartsWithContains(path, LoginPath);
      assert path[1] != ResetPasswordPath[1];
    } else {
      StartsWithContains(path, "/register");
      assert path[3] != ResetPasswordPath[3];
    }
  }

  /** Signing out always goes to the login page; a token refresh or any other
      tag never navigates. */
  lemma OtherEventsNavigation(session: Option<Session>, path: string, name: string)
    ensures EventNavigation(SignedOut, session, path) == Some(LoginPath)
    ensures EventNavigation(TokenRefreshed, session, path) == None
    ensures EventNavigation(OtherEvent(name), session, path) == None
  {
  }

  /** Scenario: on /todos with a session, the sign-out notification leaves no
      user behind and sends the visitor to the login page. */
  method SignOutEventOnTodos(s: Session) returns (user: Option<User>, nav: Option<string>)
    ensures user == None && nav == Some(LoginPath)
  {
    var p := new Provider(Url("/todos", "", ""), map[]);
    p.GetInitialSession(Fetched(Some(s)));
    nav := p.OnAuthStateChange(SignedOut, None);
    user := p.user;
  }

  /** Scenario: a failed sign-out rethrows, keeps the stored e-mail and the
      user, and still leaves loading false. */
  method FailedSignOutKeepsState(s: Session, email: string, message: string)
    returns (outcome: SignOutOutcome, stored: bool, signedIn: bool, loading: bool)
    ensures outcome == Rethrown && stored && signedIn && !loading
  {
    var p := new Provider(Url("/todos", "", ""), map[RegistrationEmailKey := email]);
    p.GetInitialSession(Fetched(Some(s)));
    outcome := p.SignOut(SignOutError(message));
    stored := RegistrationEmailKey in p.storage;
    signedIn := p.user.Some?;
    loading := p.loading;
  }
}
