/**
  The `GET /api/users/search?email=...` handler of src/app/api/users/search/route.ts:
  an ordered ladder of early returns from the query parameter, the session and
  the outcome of the single-row profile lookup. The session read and the lookup
  are inputs; the handler changes no state.
 */
module UsersSearch {
  import opened Wrappers

  const JsonContentType := "application/json"
  const EmailRequired := "Email parameter is required"
  // The texts below are the literals of src/app/api/users/search/route.ts. Other files repeat
  // some of them ("Unauthorized", "Failed to search for user", "Anonymous User") as literals
  // of their own, so each module keeps its file's copy.
  const Unauthorized := "Unauthorized"
  const OwnEmail := "Cannot search for your own email"
  const NotRegistered := "This email is not registered to PotatoChat"
  const SearchFailed := "Failed to search for user"
  const InternalError := "Internal server error"
  const AnonymousName := "Anonymous User"
  /** The lookup error code for "`.single()` found no row". */
  const NoRowsCode := "PGRST116"

  /** The `profiles` row as this endpoint reads it (`select('*')`, of which it uses `id`, `email`
      and `full_name`); the chat list's query selects different columns (`ChatList.Profile`). */
  datatype Profile = Profile(id: string, email: string, fullName: Option<string>)

  /** What `auth.getSession()` gave: it threw, there is no session, or a session whose user has this email. */
  datatype SessionOutcome = SessionThrew | NoSession | Active(userEmail: Option<string>)

  /** What the profile lookup by email gave: the row, a query error with its code, or an exception. */
  datatype Lookup = Row(profile: Profile) | QueryError(code: string) | LookupThrew

  datatype Body = ErrorBody(error: string) | UserBody(id: string, email: string, fullName: string)

  datatype Response = Response(status: int, contentType: string, body: Body)

  function Json(status: int, body: Body): Response {
    Response(status, JsonContentType, body)
  }

  /** `GET`: validate, authenticate, refuse the caller's own email, look up, respond. */
  function Search(email: Option<string>, session: SessionOutcome, lookup: Lookup): (r: Response)
    // every response, the catch-all included, is JSON
    ensures r.contentType == JsonContentType
    // a missing or empty parameter is refused before the session is consulted
    ensures !Truthy(email) ==> r == Json(400, ErrorBody(EmailRequired))
    ensures Truthy(email) && session.SessionThrew? ==> r == Json(500, ErrorBody(InternalError))
    ensures Truthy(email) && session.NoSession? ==> r == Json(401, ErrorBody(Unauthorized))
    ensures Truthy(email) && session.Active? && session.userEmail == email ==> r == Json(400, ErrorBody(OwnEmail))
    // past the guards, the lookup outcome alone decides
    ensures Truthy(email) && session.Active? && session.userEmail != email ==>
      match lookup
      case Row(p) => r == Json(200, UserBody(p.id, p.email, if Truthy(p.fullName) then p.fullName.value else AnonymousName))
      case QueryError(code) => r == Json(if code == NoRowsCode then 404 else 500, ErrorBody(if code == NoRowsCode then NotRegistered else SearchFailed))
      case LookupThrew => r == Json(500, ErrorBody(InternalError))
    // success only for someone else's registered email, and then the name is never empty
    ensures r.status == 200 <==> Truthy(email) && session.Active? && session.userEmail != email && lookup.Row?
    ensures r.status == 200 ==> r.body.UserBody? && r.body.fullName != ""
    ensures r.status != 200 ==> r.body.ErrorBody?
  {
    if !Truthy(email) then Json(400, ErrorBody(EmailRequired))
    else match session
      case SessionThrew => Json(500, ErrorBody(InternalError))
      case NoSession => Json(401, ErrorBody(Unauthorized))
      case Active(userEmail) =>
        if userEmail == email then Json(400, ErrorBody(OwnEmail))
        else match lookup
          case Row(p) => Json(200, UserBody(p.id, p.email, if Truthy(p.fullName) then p.fullName.value else AnonymousName))
          case QueryError(code) =>
            if code == NoRowsCode then Json(404, ErrorBody(NotRegistered))
            else Json(500, ErrorBody(SearchFailed))
          case LookupThrew => Json(500, ErrorBody(InternalError))
  }
}
