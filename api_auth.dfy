/** The session helper of the API routes: who is signed in, and the profile
    stored for their email; plus the two refusal responses. */
module ApiAuth {
  import opened Util
  import opened Profiles

  /** The user of the auth session, whose email may be missing. */
  datatype SessionUser = SessionUser(id: string, email: Option<string>)

  /** `{ id, email }` as returned to the route. */
  datatype Identity = Identity(id: string, email: string)

  datatype AuthContext = AuthContext(authUser: Identity, profile: Option<User>)

  /** `getAuthUserAndProfile`; `session` is what the auth server reports. */
  function GetAuthUserAndProfile(session: Option<SessionUser>, users: seq<User>): (r: Option<AuthContext>)
    ensures r.None? <==> session.None? || !Present(session.value.email)
    ensures r.Some? ==> r.value.authUser == Identity(session.value.id, session.value.email.value)
    ensures r.Some? ==>
      (r.value.profile.None? <==> forall u :: u in users ==> u.email != r.value.authUser.email)
    ensures r.Some? && r.value.profile.Some? ==>
      r.value.profile.value in users && r.value.profile.value.email == r.value.authUser.email
  {
    if session.None? || !Present(session.value.email) then None
    else
      var email := session.value.email.value;
      Some(AuthContext(Identity(session.value.id, email), FindByEmail(users, email)))
  }

  /** The three outcomes a route distinguishes. */
  datatype Outcome = NoIdentity | IdentityWithoutProfile | WithProfile(profile: User)

  function OutcomeOf(r: Option<AuthContext>): Outcome {
    if r.None? then NoIdentity
    else if r.value.profile.None? then IdentityWithoutProfile
    else WithProfile(r.value.profile.value)
  }

  /** On a table with unique emails, a signed-in user with an email gets
      exactly the one profile stored under that email, or none. */
  lemma ThreeWayOutcome(session: Option<SessionUser>, users: seq<User>)
    requires UniqueEmails(users)
    ensures var o := OutcomeOf(GetAuthUserAndProfile(session, users));
      && (o.NoIdentity? <==> session.None? || !Present(session.value.email))
      && (o.IdentityWithoutProfile? <==>
            session.Some? && Present(session.value.email)
            && forall i :: 0 <= i < |users| ==> users[i].email != session.value.email.value)
      && (o.WithProfile? ==> exists i :: 0 <= i < |users| && users[i] == o.profile
                               && users[i].email == session.value.email.value)
      && (o.WithProfile? ==> forall i :: 0 <= i < |users| && users[i].email == session.value.email.value
                               ==> users[i] == o.profile)
  {
    var r := GetAuthUserAndProfile(session, users);
    if r.Some? {
      var email := session.value.email.value;
      if exists i :: 0 <= i < |users| && users[i].email == email {
        var i :| 0 <= i < |users| && users[i].email == email;
        FindByEmailUnique(users, email, i);
        forall j | 0 <= j < |users| && users[j].email == email
          ensures users[j] == users[i]
        {
          FindByEmailUnique(users, email, j);
        }
      } else {
        forall u | u in users
          ensures u.email != email
        {
          var j :| 0 <= j < |users| && users[j] == u;
        }
      }
    }
  }

  /** A JSON error response. */
  datatype ErrorResponse = ErrorResponse(status: int, error: string)

  const UnauthorizedMessage := "Unauthorized. Please sign in."
  const ForbiddenDefault := "You do not have permission to perform this action."

  /** `unauthorized()`. */
  function Unauthorized(): (r: ErrorResponse)
    ensures r.status == 401 && r.error == UnauthorizedMessage
  {
    ErrorResponse(401, UnauthorizedMessage)
  }

  /** `forbidden(message?)`: an omitted message falls back to the default,
      while any given message, the empty one included, is used as is. */
  function Forbidden(message: Option<string>): (r: ErrorResponse)
    ensures r.status == 403
    ensures message.Some? ==> r.error == message.value
    ensures message.None? ==> r.error == ForbiddenDefault
  {
    ErrorResponse(403, if message.Some? then message.value else ForbiddenDefault)
  }
}
