/** The server route that e-mailed authentication links land on: it picks the
    page to redirect to from the `type` and `next` query parameters. */
module AuthCallback {
  import opened Common

  const RecoveryType: string := "recovery"
  const DefaultNext: string := "/"

  /** `searchParams.get('next') ?? '/'`: only an absent parameter defaults. */
  function NextPath(next: Option<string>): string {
    next.GetOr(DefaultNext)
  }

  /** The redirect target of `GET`: recovery links always go to the reset
      page; any other link goes to `next` on the same origin. */
  function RedirectTarget(origin: string, typeParam: Option<string>, next: Option<string>): (target: string)
    ensures StartsWith(target, origin)
  {
    if typeParam == Some(RecoveryType) then origin + ResetPasswordPath
    else origin + NextPath(next)
  }

  /** A recovery link ignores `next` altogether. */
  lemma RecoveryIgnoresNext(origin: string, next1: Option<string>, next2: Option<string>)
    ensures RedirectTarget(origin, Some(RecoveryType), next1) == RedirectTarget(origin, Some(RecoveryType), next2)
    ensures RedirectTarget(origin, Some(RecoveryType), next1)[|origin|..] == ResetPasswordPath
  {
    assert (origin + ResetPasswordPath)[|origin|..] == ResetPasswordPath;
  }

  /** Any other link, with or without a type, lands on `next` after the origin:
      home when `next` is absent, and the bare origin when `next` is empty. */
  lemma OtherLinksFollowNext(origin: string, typeParam: Option<string>, next: Option<string>)
    requires typeParam != Some(RecoveryType)
    ensures RedirectTarget(origin, typeParam, next)[|origin|..] == NextPath(next)
    ensures next.None? ==> RedirectTarget(origin, typeParam, next) == origin + "/"
    ensures next == Some("") ==> RedirectTarget(origin, typeParam, next) == origin
  {
    assert (origin + NextPath(next))[|origin|..] == NextPath(next);
    assert origin + "" == origin;
  }

  /** A link lands on the reset page exactly when it is a recovery link or
      its `next` asks for that page. */
  lemma ResetPageIff(origin: string, typeParam: Option<string>, next: Option<string>)
    ensures RedirectTarget(origin, typeParam, next) == origin + ResetPasswordPath <==>
      typeParam == Some(RecoveryType) || NextPath(next) == ResetPasswordPath
  {
    var t := RedirectTarget(origin, typeParam, next);
    if t == origin + ResetPasswordPath && typeParam != Some(RecoveryType) {
      assert t[|origin|..] == NextPath(next);
      assert (origin + ResetPasswordPath)[|origin|..] == ResetPasswordPath;
    }
  }
}
