# Task Manager authentication and todo core, in Dafny

This project models the client-side core of the Task Manager web application, a Next.js front end that sits on a hosted authentication and data backend. The model covers:

- **The auth state provider** (`AuthProvider`). It holds the current user, session and loading flag. It fills them from the initial `getSession` answer and keeps them current from session-change notifications. It also implements `signOut`: it clears the stored registration e-mail, strips the URL fragment and navigates to the login page.
- **The route guard** (`RouteGuard`). It classifies the path as an auth page or not. It decides between staying, going to `/login` or going home, with the `/reset-password` exception for password recovery. It picks one of five renders. Its state is the `isRedirecting` flag, the 100 ms navigation timer and the 3 s fallback timers.
- **The auth callback route** (`AuthCallback`). It is the server redirect that e-mailed links land on.
- **The todo list page** (`TodoList`). This covers status filter and search, the counts, the empty-state texts, and the add, edit, toggle and delete handlers with the requests they send.
- **The home page's statistics** (`HomeStats`): totals and the rounded completion percentage.
- **The navigation bar's display name and initials** (`Navigation`).
- **The authentication form schemas and the password strength meter** (`AuthSchemas`).
- **The todo schemas and the due-date helpers** (`TodoTypes`).

The backend, the browser clock and the browser location are never called. Each backend answer is a method parameter, and the current time is an integer count of milliseconds passed in. Each navigation is returned as a value. Backend values (`User`, `Session`) live in `Identity`, and the shared option, result and string helpers live in `Common`.

Timers are modelled as explicit events: `Guard.NavigationTimerFires` and `Guard.FallbackTimerFires`. The guard records which navigation is pending and how many fallback timers are armed.

When the initial session fetch returns an error or rejects, the code writes neither the user nor the session: they keep whatever they held, and a notification that arrived earlier is not undone. `AuthProvider.Provider.GetInitialSession` states this.

## Model

Functions that only compute (such as `RouteGuard.Decide`, `AuthProvider.EventNavigation` or `TodoTypes.TodoStatus`) have no row of their own: the lemmas in their rows state their meaning. `DecisionTable` and `ChildrenIff` state `Decide` and `ViewOf`; `SignedInNavigation` and `OtherEventsNavigation` state `EventNavigation`; `StatusRules`, `DaysUntilDueMeaning` and `DueSoonIff` state the due-date helpers; `CreateTodoAcceptsIff` and `TodoFilterBoundsAndDefaults` state the todo parsers; the `*AcceptsIff` lemmas state the auth form schemas; `UserNameChain` and `UserInitialsFallbacks` state the display name and initials; `CompletionRateRounds` and `ComputeStatsConsistent` state the statistics; `CountsPartition` and `CountsMatchFilters` state the todo counts; `EmptyStateHeading` states the empty-state texts.

| member | source | states |
|---|---|---|
| RouteGuard.IsAuthPageIff | components/AuthGuard.tsx:21-23 | a path is an auth page exactly when it starts with one of /login, /register, /verify-email, /forgot-password, /reset-password |
| RouteGuard.PrefixExamples | components/AuthGuard.tsx:23 | the test is a prefix match: /loginx and /reset-password/confirm are auth pages, /todos and / are not |
| RouteGuard.RedirectConditionsExclusive | components/AuthGuard.tsx:28-50 | the two redirect conditions never hold together, and the decision is Allow exactly when neither holds |
| RouteGuard.DecisionTable | components/AuthGuard.tsx:28-50 | anonymous visitors are allowed on auth pages and sent to /login elsewhere; signed-in users are sent home from auth pages other than /reset-password and allowed elsewhere |
| RouteGuard.ResetPasswordCarveOut | components/AuthGuard.tsx:38-47 | every path under /reset-password is an auth page, yet a signed-in user there is allowed, nothing is scheduled and the page renders |
| RouteGuard.LoadingShowsInterstitial | components/AuthGuard.tsx:53-63 | while loading, the "checking authentication" view is rendered whatever the user, flag and path |
| RouteGuard.ChildrenIff | components/AuthGuard.tsx:53-123 | the wrapped page renders exactly when not loading, not redirecting and neither redirect condition holds |
| RouteGuard.PanelAgreesWithRedirect | components/AuthGuard.tsx:84-121 | when a blocking panel is shown, its button goes where the redirect would (/login or /), and no other view has a button |
| RouteGuard.Guard.constructor | components/AuthGuard.tsx:18 | the guard starts not redirecting, with no timer pending |
| RouteGuard.Guard.RunEffect | components/AuthGuard.tsx:25-51 | while loading nothing changes except cancelling the pending timer; otherwise the flag is set exactly when a redirect is due and the one pending navigation targets it |
| RouteGuard.Guard.Render | components/AuthGuard.tsx:53-123 | the view follows the precedence loading, redirecting, login panel, home panel, page; a redirecting render arms one more uncancelled 3 s fallback |
| RouteGuard.Guard.NavigationTimerFires | components/AuthGuard.tsx:32-34 | the scheduled navigation happens once and the slot empties |
| RouteGuard.Guard.FallbackTimerFires | components/AuthGuard.tsx:66-70 | an armed fallback clears the flag without navigating |
| RouteGuard.AnonymousVisitsTodos | components/AuthGuard.tsx:25-101 | an anonymous visit to /todos first paints the "Authentication Required" panel (the render comes before the effect), then shows "Redirecting to login" and navigates to /login |
| RouteGuard.SignedInVisitsLogin | components/AuthGuard.tsx:38-47 | a signed-in visit to /login shows "Redirecting to home" and then navigates to / |
| RouteGuard.RecoveryLinkVisitor | components/AuthGuard.tsx:38-50 | a signed-in visitor on /reset-password sees the page and no navigation is scheduled |
| RouteGuard.EffectIdempotent | components/AuthGuard.tsx:25-51 | from any guard state, re-running the effect on unchanged inputs gives the same flag and a single pending navigation to the decided target, and arms no fallback |
| RouteGuard.FallbackUnsticks | components/AuthGuard.tsx:65-82 | after the fallback timer fires, the next render is the blocking panel (authentication required, or already logged in) instead of the interstitial, while the pending navigation is untouched |
| AuthProvider.CleanUrl | contexts/AuthContext.tsx:37-43 | the history entry is replaced exactly when there is a fragment, by the same path and query without it |
| AuthProvider.CleanUrlIdempotent | contexts/AuthContext.tsx:37-43 | a second cleaning does nothing |
| AuthProvider.Provider.constructor | contexts/AuthContext.tsx:31-33 | the provider mounts with no user, no session and loading true |
| AuthProvider.Provider.GetInitialSession | contexts/AuthContext.tsx:47-68 | a fetched session and its user are stored and the URL cleaned; an error or rejection leaves user, session and URL as they were; loading ends false in every case |
| AuthProvider.Provider.OnAuthStateChange | contexts/AuthContext.tsx:75-108 | the session and user are replaced, loading cleared and the URL cleaned; the navigation is the event's, judged on the path read after cleaning, which cleaning leaves unchanged |
| AuthProvider.Provider.SignOut | contexts/AuthContext.tsx:115-138 | loading goes true then false in every case; success removes the stored registration e-mail, cleans the URL and navigates to /login; an error is rethrown with storage and URL unchanged |
| AuthProvider.SignedInNavigation | contexts/AuthContext.tsx:87-100 | SIGNED_IN goes home exactly when there is a session and the path contains /login or /register; it never goes to /login |
| AuthProvider.SignedInLoginPagesAgree | contexts/AuthContext.tsx:87-100 | on a path starting with /login or /register a signed-in user is sent home both by SIGNED_IN and by the route guard, to the same target |
| AuthProvider.SignedInOnNestedLoginPath | contexts/AuthContext.tsx:90-95 | the test is containment, not prefix: /auth/login goes home, /todos stays |
| AuthProvider.OtherEventsNavigation | contexts/AuthContext.tsx:101-107 | SIGNED_OUT always goes to /login; TOKEN_REFRESHED and any other tag never navigate |
| AuthProvider.SignOutEventOnTodos | contexts/AuthContext.tsx:78-103 | a sign-out notification on /todos leaves no user and navigates to /login |
| AuthProvider.FailedSignOutKeepsState | contexts/AuthContext.tsx:115-138 | a failed sign-out rethrows, keeps the stored e-mail and the user, and leaves loading false |
| AuthCallback.RedirectTarget | app/auth/callback/route.ts:3-21 | every redirect target starts with the request's origin string (which does not by itself keep it on the same host, see Left out) |
| AuthCallback.RecoveryIgnoresNext | app/auth/callback/route.ts:13-16 | a recovery link goes to /reset-password whatever `next` says |
| AuthCallback.OtherLinksFollowNext | app/auth/callback/route.ts:6-20 | any other link goes to origin + next; home when next is absent, the bare origin when next is empty |
| AuthCallback.ResetPageIff | app/auth/callback/route.ts:5-20 | a link lands on /reset-password exactly when it is a recovery link or next names that page |
| TodoList.FilteredTodos | app/todos/page.tsx:174-185 | the list is no longer than all todos and holds only todos that pass both the status filter and the search |
| TodoList.FilteredMembership | app/todos/page.tsx:174-185 | a todo is listed exactly when it is among the todos and passes the filter and the case-insensitive title search |
| TodoList.FilteredIsSubsequence | app/todos/page.tsx:174 | the listed todos keep their order in the loaded list |
| TodoList.AllWithEmptySearch | app/todos/page.tsx:174-185 | filter "all" with an empty search lists every todo, in order |
| TodoList.CountsPartition | app/todos/page.tsx:188-189 | active and completed counts add up to the number of todos |
| TodoList.CountsAgreeWithStats | app/todos/page.tsx:188-189 | the page's completed count equals the home page's completed figure over the same rows' completed flags, and the active count is the rest |
| TodoList.CountsMatchFilters | app/todos/page.tsx:174-189 | each count is the length of the matching filter's list with an empty search |
| TodoList.EmptyStateHeading | app/todos/page.tsx:338-347 | "No todos found" exactly when a search or a non-"all" filter is in force, and "No todos yet" otherwise |
| TodoList.EmptyListFirstVisit | app/todos/page.tsx:335-347 | an empty list under "all" with no search gets "No todos yet" |
| TodoList.TodosPage.constructor | app/todos/page.tsx:36-42 | the page starts with no todos, loading, filter "all", empty search and no dialog open |
| TodoList.TodosPage.Visible | app/todos/page.tsx:174-185 | what is shown is drawn from the loaded todos |
| TodoList.TodosPage.LoadTodos | app/todos/page.tsx:70-87 | rows replace the list, null counts as empty, an error keeps the list; loading ends false |
| TodoList.TodosPage.SubmitNewTodo | app/todos/page.tsx:50-108 | an invalid title sends nothing; a valid one inserts an uncompleted todo for the current user; success closes the form and reloads |
| TodoList.TodosPage.OpenEditDialog | app/todos/page.tsx:168-171 | the chosen todo becomes the one being edited |
| TodoList.TodosPage.SubmitEdit | app/todos/page.tsx:60-128 | without a selected todo or with an invalid title nothing is sent; otherwise the selected todo's title is updated and success closes the dialog and reloads |
| TodoList.TodosPage.ToggleTodo | app/todos/page.tsx:131-146 | the request flips the todo's completion flag; success reloads |
| TodoList.TodosPage.AskDelete | app/todos/page.tsx:408 | the chosen todo becomes the one awaiting delete confirmation |
| TodoList.TodosPage.DeleteTodo | app/todos/page.tsx:149-165 | without a selected todo nothing is sent; otherwise the selected todo is deleted and success closes the confirmation and reloads |
| TodoList.ToggleTwice | app/todos/page.tsx:131-146 | toggling the result of a toggle sends the original flag back |
| Common.CountTrue | app/page.tsx:131 | the number of completed rows never exceeds the number of rows |
| HomeStats.CompletionRateRounds | app/page.tsx:133 | the rate is within one half of 100·completed/total, reaching one half only from below (round half up) |
| HomeStats.CompletionRateRange | app/page.tsx:133 | the rate lies in 0..100: 0 with nothing completed, 100 with everything completed |
| HomeStats.ComputeStatsConsistent | app/page.tsx:129-135 | computed figures have total = rows, active = total − completed, and a rate in 0..100 that is 0 when there are no todos |
| HomeStats.InitialStatsConsistent | app/page.tsx:104-109 | the all-zero initial figures satisfy the same invariant |
| HomeStats.StatsSection.constructor | app/page.tsx:104-110 | the section starts with zero figures, which satisfy its consistency invariant, and loading true |
| HomeStats.StatsSection.OnUserChange | app/page.tsx:112-118 | with a user the stats are fetched; without one nothing is fetched and loading ends; the figures and their consistency are kept |
| HomeStats.StatsSection.LoadTodoStats | app/page.tsx:120-141 | rows (null as none) give new figures computed from the rows, an error keeps the old ones; the consistency invariant is kept and loading ends false |
| HomeStats.StatsSection.Render | app/page.tsx:143-165 | the section renders nothing exactly when there is no user, a spinner exactly when there is one and loading is true, and the current figures exactly when loading has ended |
| Navigation.GetUserInitials | components/Navigation.tsx:20-29 | the initials are at most two characters |
| Navigation.SplitFirstChars | components/Navigation.tsx:22-24 | splitting on spaces and taking first characters gives exactly the non-space characters that begin the name or follow a space |
| Navigation.WordStartsAreNonSpace | components/Navigation.tsx:22-24 | those characters are non-space characters of the name, no more of them than the name's length |
| Navigation.InitialsFromName | components/Navigation.tsx:21-26 | with a real name, the initials are the first two word starts upper-cased, each the upper case of a non-space character of the name |
| Navigation.InitialsFromEmail | components/Navigation.tsx:28 | with no name or "User", the initial is the e-mail's first character upper-cased, or empty for an empty e-mail |
| Navigation.InitialsSkipEmptyWords | components/Navigation.tsx:22-26 | "a  b" gives "AB": the empty word between two spaces adds nothing |
| Navigation.InitialsKeepTwo | components/Navigation.tsx:26 | "a b c" gives "AB": only two initials are kept |
| Navigation.SplitFirstPiece | components/Navigation.tsx:31 | the first piece of a split is the text before the first separator |
| Navigation.UserNameChain | components/Navigation.tsx:31 | the display name is never empty: the full name, else the e-mail's local part, else "User"; a user with no usable name and no usable e-mail local part is shown as "User" |
| Navigation.NamelessUserHasNoInitials | components/Navigation.tsx:31-32 | a signed-in user with neither name nor e-mail is shown as "User" with no initials |
| Navigation.UserInitialsFallbacks | components/Navigation.tsx:32 | without a user the avatar shows "U"; a user named "User" gets the e-mail's first letter; never more than two characters |
| Navigation.EmailOnlyUser | components/Navigation.tsx:31-32 | a user known only as al@x is named "al" with initial "A" |
| Common.CountTrueBounds | types/auth.ts:111-118 | the number of met criteria is at most their count, equal to it exactly when all hold and 0 exactly when none does |
| Common.CountTrueMonotone | types/auth.ts:111-118 | meeting more criteria never counts fewer |
| AuthSchemas.CalculatePasswordStrength | types/auth.ts:111-118 | the strength is the number of the five criteria the password meets, between 0 and 5 |
| AuthSchemas.EmptyPasswordScoresZero | types/auth.ts:111-118 | the empty password scores 0 |
| AuthSchemas.ScoreMonotone | types/auth.ts:111-118 | appending characters never lowers the score |
| AuthSchemas.StrengthOf | types/auth.ts:7-13 | the enum has a member exactly for 0..4, and that member carries the value |
| AuthSchemas.ScoreFiveHasNoLabel | types/auth.ts:7-118 | "Abcdefg1!" scores 5, which is no enum member and has no label |
| AuthSchemas.StrengthLevel | types/auth.ts:7-118 | the corrected level is the score capped at STRONG (4) |
| AuthSchemas.StrengthLevelLabelled | types/auth.ts:15-21 | every capped level has its label; the empty password is "Very Weak" |
| AuthSchemas.PasswordIssuesIff | types/auth.ts:36-45 | the password rules pass exactly for the policy (8 characters, upper, lower, digit, special) and blame only the password |
| AuthSchemas.PolicyIffScoreFive | types/auth.ts:36-118 | a password meets the policy exactly when its strength is 5 |
| AuthSchemas.RegisterAcceptsIff | types/auth.ts:32-54 | registration passes exactly with a 2-character name, a valid e-mail, a policy password, accepted terms and a matching confirmation |
| AuthSchemas.RegisterMismatchBlamesConfirm | types/auth.ts:51-54 | a mismatch is reported on confirmPassword, and confirmPassword is blamed exactly when the two differ |
| AuthSchemas.ResetAcceptsIff | types/auth.ts:66-83 | the reset form passes exactly for a policy password confirmed exactly; a mismatch is reported on confirmPassword |
| AuthSchemas.AcceptedPasswordsScoreFive | types/auth.ts:32-83 | every password registration or reset accepts has strength 5 |
| AuthSchemas.LoginAcceptsIff | types/auth.ts:56-60 | login passes exactly with a valid e-mail and a non-empty password |
| TodoTypes.CreateTodoAcceptsIff | types/todo.ts:82-90 | a todo is accepted exactly with a 1 to 100 character title and a description that is absent or at most 500 characters |
| TodoTypes.CreateTodoIssuesBlameFields | types/todo.ts:82-90 | a rejection blames the title exactly when the title is invalid, and the description exactly when it is invalid |
| TodoTypes.CreateTodoDefaults | types/todo.ts:82-96 | parsing keeps the given fields and defaults priority to medium, category to personal and reminder to false; a given reminder is kept, and the due date and reminder date pass through unchanged |
| TodoTypes.TodoFilterBoundsAndDefaults | types/todo.ts:116-127 | filters are accepted exactly with a limit in 1..100 and a non-negative offset; defaults are limit 20, offset 0, created_at, descending |
| TodoTypes.CeilDivBounds | types/todo.ts:189 | the rounded-up quotient is the least integer whose multiple reaches the dividend |
| TodoTypes.StatusRules | types/todo.ts:166-174 | status is never cancelled; completed todos are completed; an open todo is pending exactly when overdue, in progress otherwise |
| TodoTypes.NoDateNoDeadline | types/todo.ts:176-199 | without a due date (null or empty) nothing is overdue or due soon and there is no day count |
| TodoTypes.DaysUntilDueMeaning | types/todo.ts:193-199 | the day count is null exactly without a date, else the number of days to the due time rounded up |
| TodoTypes.DueSoonIff | types/todo.ts:181-199 | due soon means the day count lies between 0 and the horizon |
| TodoTypes.JustMissedIsOverdueAndDueSoon | types/todo.ts:176-191 | a due time less than a day past is both overdue and due soon (day count 0) |
| TodoTypes.LongOverdueNotDueSoon | types/todo.ts:181-191 | a due time a full day or more past has a negative count and is not due soon |
| TodoTypes.DefaultHorizon | types/todo.ts:181-191 | with the default 3 days, a due time up to three days ahead is due soon and one later is not |

## Left out

- Backend calls (getSession, onAuthStateChange, signOut, the `todos` table) are inputs or returned requests. Their timing is not modelled, nor the interleaving of the initial fetch with notifications, nor the unsubscribe on unmount.
- Timer durations (100 ms, 3000 ms) are not modelled; timers are events. A component unmounting with a timer armed is not modelled.
- Console logging and the JSX markup beyond the rendered texts and button targets are left out.
- Dates are integer milliseconds. Parsing a due-date string, invalid dates (NaN) and time zones are not modelled, and `toISOString` timestamps are the `now` parameter.
- HomeStats.CompletionRateRounds: integer rounding with halves up stands for `Math.round` of a floating-point quotient; binary floating-point error at exact halves is not modelled.
- TodoTypes.TodoFilterBoundsAndDefaults: limits and offsets are integers; `z.number()` also accepts fractions and rejects non-numbers, which the model does not represent. The enum array fields and the search string pass through unchecked, as in the schema.
- Case mapping (`toLowerCase`, `toUpperCase`) covers ASCII letters only; other Unicode case mappings are not modelled.
- TodoTypes.TitleValid, TodoTypes.DescriptionValid, AuthSchemas.PasswordPolicy, AuthSchemas.PasswordScore, AuthSchemas.RegisterIssues, AuthSchemas.LoginIssues and Navigation.GetUserInitials: strings are sequences of Unicode scalar values, so lengths, `charAt` and `slice` count scalar values where JavaScript counts UTF-16 code units. Results differ for characters outside the Basic Multilingual Plane: sixty "😀" make a title the schema rejects (length 120) but the model accepts, "Ab1!😀😀" has length 8 in the source and 6 here, and `charAt(0)` of "😀 b" is a lone surrogate in the source but the whole emoji here.
- AuthSchemas.EmailIssues: the e-mail format check is an input flag; the validator's e-mail pattern is not modelled. Non-string or missing fields (type errors, which stop a zod parse) are not modelled.
- AuthProvider.CleanUrl: the location is path, query and fragment; the `document.title` argument and the history state are not modelled.
- AuthCallback.RedirectTarget: the target is a string concatenation, as in the source; URL parsing is not modelled. A `next` that does not start with "/" (for example "@evil.example") can move the redirect to another host, and the model does not capture this.
- The list's sort order comes from the backend query (newest first), so it is an input.
- The form library's reset after a successful submit is not modelled; neither are the dialogs' open state beyond the selected todo, nor the search and filter inputs' own handlers.
- Out of this model: the forgot-password, verify-email and reset-password screens, the dashboard, the check-email route, `updateTodoSchema`, `forgotPasswordSchema`, the OAuth provider type, and the label, colour and icon maps other than the strength labels.

## Findings

| source | as written | input that shows it | evidently intended | confidence | as-written member | corrected member |
|---|---|---|---|---|---|---|
| types/auth.ts:111-118 | the strength counts five criteria and is cast to an enum with members 0..4 | "Abcdefg1!" scores 5, which has no enum member and no entry in the label map | the strongest passwords rate STRONG (4) and always have a label | medium, not executed | AuthSchemas.ScoreFiveHasNoLabel | AuthSchemas.StrengthLevel |
