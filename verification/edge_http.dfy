/**
  What the two administrator edge functions (`supabase/functions/delete-user/index.ts` and
  `supabase/functions/create-admin/index.ts`) share: the response they answer with and
  the first three checks on the caller, which read the `Authorization` header, resolve
  its token to a user and look up that user's administrator role.

  The authentication service and the role table are not modelled; their answers are
  function parameters (oracles).
 */
module EdgeHttp {

  import opened Wrappers
  import Js

  /** The JSON (or plain) body of a response. */
  datatype ResponseBody =
    | Text(text: string)              // `new Response('ok')`
    | NoBody                          // `new Response(null)`
    | ErrorJson(error: string)        // `{ error }`
    | SuccessJson(message: Option<string>)  // `{ success: true[, message] }`

  /** Status and body; the CORS and content-type headers are the same on every answer
      and are left out. */
  datatype Response = Response(status: int, body: ResponseBody)

  /** A user as the authentication service returns it. */
  datatype AuthUser = AuthUser(id: string, email: Option<string>)

  /** `authHeader.replace('Bearer ', '')`: the first "Bearer ", wherever it stands, is
      cut out; a header without one is the token itself. */
  function BearerToken(header: string): (token: string)
    ensures !Js.Contains(header, "Bearer ") ==> token == header
    ensures Js.Contains(header, "Bearer ") ==>
      exists k :: Js.FirstOccurrence(header, "Bearer ", k) && token == header[..k] + header[k + 7..]
  {
    Js.RemoveFirstRemovesFirst(header, "Bearer ");
    Js.RemoveFirst(header, "Bearer ")
  }

  lemma BearerTokenOfHeader(token: string)
    ensures BearerToken("Bearer " + token) == token
  {
    Js.RemoveFirstPrefix("Bearer ", token);
  }

  /** The outcome of the caller checks, in the order they run. */
  datatype CallerCheck = NoHeader | InvalidToken | NotAdmin | Admin(user: AuthUser)

  /** `None` or an empty header is a missing header (`!authHeader`). */
  predicate HasHeader(authorization: Option<string>) {
    authorization.Some? && authorization.value != ""
  }

  /** The caller checks: a missing header, then a token the service does not resolve
      (`getUser` answers `None` for an error or no user), then a user without the `admin`
      row in `user_roles` (`hasAdminRole` answers false for an error or no row). */
  function CheckCaller(authorization: Option<string>, getUser: string -> Option<AuthUser>,
                       hasAdminRole: string -> bool): (r: CallerCheck)
    ensures r.NoHeader? <==> !HasHeader(authorization)
    ensures r.InvalidToken? <==> HasHeader(authorization) && getUser(BearerToken(authorization.value)).None?
    ensures r.NotAdmin? <==>
      HasHeader(authorization) && getUser(BearerToken(authorization.value)).Some?
      && !hasAdminRole(getUser(BearerToken(authorization.value)).value.id)
    ensures r.Admin? ==>
      && r.user == getUser(BearerToken(authorization.value)).value
      && hasAdminRole(r.user.id)
  {
    if !HasHeader(authorization) then NoHeader
    else
      match getUser(BearerToken(authorization.value))
      case None => InvalidToken
      case Some(user) => if hasAdminRole(user.id) then Admin(user) else NotAdmin
  }

  /** The `details` object of an audit row. */
  datatype AuditDetails =
    | DeletedUserDetails(deleted_username: string, timestamp: string)
    | CreatedAdminDetails(created_username: string)

  /** A row inserted into `audit_logs`. */
  datatype AuditEntry = AuditEntry(
    user_id: string,
    username: string,
    action: string,
    table_name: string,
    record_id: string,
    details: AuditDetails)

  /** A write an edge function sends, in the order it sends them. */
  datatype Effect =
    | DeleteAuthUser(id: string)
    | CreateAuthUser(email: string, password: string, username: string)
    | SetFullAccess(profileId: string)
    | InsertAudit(entry: AuditEntry)
}
