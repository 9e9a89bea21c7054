/** Values handed out by the hosted authentication backend. The application never
    builds them itself; the model receives them as inputs. */
module Identity {
  import opened Common

  /** The authenticated subject: its id, its e-mail (optional in the backend's
      type) and the `full_name` entry of its user metadata, if any. */
  datatype User = User(id: string, email: Option<string>, fullName: Option<string>)

  /** A session always embeds the user it was issued to. */
  datatype Session = Session(user: User, accessToken: string)

  /** `session?.user ?? null` */
  function UserOf(session: Option<Session>): (u: Option<User>)
    ensures u.Some? <==> session.Some?
    ensures session.Some? ==> u.value == session.value.user
  {
    match session
    case Some(s) => Some(s.user)
    case None => None
  }
}
