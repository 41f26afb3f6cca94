/**
  The `create-admin` edge function, `supabase/functions/create-admin/index.ts`: an
  administrator creates another administrator account. After the caller checks come
  the body's checks (both fields given, the username's and the password's minimum
  lengths, a username not yet taken); then the account is created with an e-mail
  address derived from the username, optionally given full access, and audited.
 */
module CreateAdmin {

  import opened Wrappers
  import opened Js
  import opened EdgeHttp

  /** The request body: `Unparsable` when `req.json()` throws (the message is the
      error's); otherwise its `username` and `password` (`None` when absent or null) and
      its `full_access` value (`Undefined` when absent). */
  datatype CreateRequestBody =
    | Unparsable(message: string)
    | Json(username: Option<string>, password: Option<string>, fullAccess: Value)

  /** `full_access = false` as a default, then `if (full_access)`: only a truthy value
      asks for full access, and an absent key does not. */
  predicate FullAccessRequested(fullAccess: Value) {
    Truthy(if fullAccess == Undefined then Bool(false) else fullAccess)
  }

  lemma FullAccessDefault()
    ensures !FullAccessRequested(Undefined)
    ensures FullAccessRequested(Bool(true)) && !FullAccessRequested(Bool(false))
  {
  }

  /** The address of the created account: `${username}@inventory.local`. */
  function AdminEmail(username: string): (email: string)
    ensures |email| == |username| + 16
    ensures email[..|username|] == username && email[|username|..] == "@inventory.local"
  {
    username + "@inventory.local"
  }

  /** Distinct usernames get distinct addresses. */
  lemma AdminEmailInjective(u1: string, u2: string)
    requires AdminEmail(u1) == AdminEmail(u2)
    ensures u1 == u2
  {
    assert |u1| == |u2|;
    assert u1 == AdminEmail(u1)[..|u1|];
  }

  const RequiredFields := Response(400, ErrorJson("Username și parola sunt obligatorii"))
  const UsernameTooShort := Response(400, ErrorJson("Username-ul trebuie să aibă cel puțin 3 caractere"))
  const PasswordTooShort := Response(400, ErrorJson("Parola trebuie să aibă cel puțin 6 caractere"))
  const UsernameTaken := Response(400, ErrorJson("Acest username există deja"))

  /** The end of the checks: an early answer, or what the account is created from. */
  datatype CreateGuard =
    | Reject(response: Response)
    | Proceed(caller: AuthUser, username: string, password: string, fullAccess: bool)

  /** The checks in their order; the first that fails decides the answer.
      `usernameTaken` answers the profile lookup by username. */
  function GuardCreateAdmin(authorization: Option<string>, body: CreateRequestBody,
                            getUser: string -> Option<AuthUser>, hasAdminRole: string -> bool,
                            usernameTaken: string -> bool): (g: CreateGuard)
    ensures var caller := CheckCaller(authorization, getUser, hasAdminRole);
      && (g.Proceed? <==>
            && caller.Admin? && body.Json?
            && body.username.GetOr("") != "" && body.password.GetOr("") != ""
            && |body.username.value| >= 3 && |body.password.value| >= 6
            && !usernameTaken(body.username.value))
      && (g.Proceed? ==>
            && g.caller == caller.user
            && body.username == Some(g.username) && body.password == Some(g.password)
            && g.fullAccess == FullAccessRequested(body.fullAccess))
      && (caller.NoHeader? ==> g == Reject(Response(401, ErrorJson("Nu sunteți autentificat"))))
      && (caller.InvalidToken? ==> g == Reject(Response(401, ErrorJson("Token invalid"))))
      && (caller.NotAdmin? ==> g == Reject(Response(403, ErrorJson("Nu aveți permisiuni de administrator"))))
      && (caller.Admin? && body.Unparsable? ==> g == Reject(Response(500, ErrorJson(body.message))))
      && (caller.Admin? && body.Json? ==>
            if body.username.GetOr("") == "" || body.password.GetOr("") == "" then g == Reject(RequiredFields)
            else if |body.username.value| < 3 then g == Reject(UsernameTooShort)
            else if |body.password.value| < 6 then g == Reject(PasswordTooShort)
            else if usernameTaken(body.username.value) then g == Reject(UsernameTaken)
            else g.Proceed?)
  {
    match CheckCaller(authorization, getUser, hasAdminRole)
    case NoHeader => Reject(Response(401, ErrorJson("Nu sunteți autentificat")))
    case InvalidToken => Reject(Response(401, ErrorJson("Token invalid")))
    case NotAdmin => Reject(Response(403, ErrorJson("Nu aveți permisiuni de administrator")))
    case Admin(caller) =>
      match body
      case Unparsable(message) => Reject(Response(500, ErrorJson(message)))
      case Json(username, password, fullAccess) =>
        if username.GetOr("") == "" || password.GetOr("") == "" then Reject(RequiredFields)
        else if |username.value| < 3 then Reject(UsernameTooShort)
        else if |password.value| < 6 then Reject(PasswordTooShort)
        else if usernameTaken(username.value) then Reject(UsernameTaken)
        else Proceed(caller, username.value, password.value, FullAccessRequested(fullAccess))
  }

  /** Every refusal of the checks is an error status, and a 400 always carries one of
      the four body messages. */
  lemma {:induction false} GuardStatuses(authorization: Option<string>, body: CreateRequestBody,
                                         getUser: string -> Option<AuthUser>, hasAdminRole: string -> bool,
                                         usernameTaken: string -> bool)
    ensures var g := GuardCreateAdmin(authorization, body, getUser, hasAdminRole, usernameTaken);
      g.Reject? ==>
        && g.response.status in {400, 401, 403, 500}
        && (g.response.status == 400 ==>
              g.response in {RequiredFields, UsernameTooShort, PasswordTooShort, UsernameTaken})
  {
    var g := GuardCreateAdmin(authorization, body, getUser, hasAdminRole, usernameTaken);
    match CheckCaller(authorization, getUser, hasAdminRole)
    case NoHeader =>
    case InvalidToken =>
    case NotAdmin =>
    case Admin(_) =>
      if body.Json? && g.Reject? {
        assert g.response in {RequiredFields, UsernameTooShort, PasswordTooShort, UsernameTaken};
      }
  }

  /** What the authentication service answers to the account creation. */
  datatype CreateOutcome = AuthError(message: string) | NoUser | Created(id: string)

  /** The audit row of a creation. */
  function CreationAudit(caller: AuthUser, callerProfileUsername: Option<string>,
                         newId: string, username: string): (e: AuditEntry)
    ensures e.user_id == caller.id && e.record_id == newId
    ensures e.action == "CREATE_ADMIN" && e.table_name == "user_roles"
    ensures e.username == if callerProfileUsername.GetOr("") != "" then callerProfileUsername.value else "unknown"
    ensures e.details == CreatedAdminDetails(username)
  {
    AuditEntry(caller.id, if callerProfileUsername.GetOr("") != "" then callerProfileUsername.value else "unknown",
               "CREATE_ADMIN", "user_roles", newId, CreatedAdminDetails(username))
  }

  function SuccessMessage(username: string): string {
    "Utilizatorul " + username + " a fost adăugat ca administrator"
  }

  /** One request. `createUser` answers the account creation for an address, password and
      username; `profileUsername` answers the caller's profile lookup. */
  method HandleCreateAdmin(httpMethod: string, authorization: Option<string>, body: CreateRequestBody,
                           getUser: string -> Option<AuthUser>, hasAdminRole: string -> bool,
                           usernameTaken: string -> bool,
                           createUser: (string, string, string) -> CreateOutcome,
                           profileUsername: string -> Option<string>)
    returns (response: Response, effects: seq<Effect>)
    ensures httpMethod == "OPTIONS" ==> response == Response(200, NoBody) && effects == []
    ensures var g := GuardCreateAdmin(authorization, body, getUser, hasAdminRole, usernameTaken);
      && (httpMethod != "OPTIONS" && g.Reject? ==> response == g.response && effects == [])
      && (httpMethod != "OPTIONS" && g.Proceed? ==>
            var create := CreateAuthUser(AdminEmail(g.username), g.password, g.username);
            match createUser(AdminEmail(g.username), g.password, g.username)
            case AuthError(message) =>
              response == Response(400, ErrorJson(message)) && effects == [create]
            case NoUser =>
              response == Response(500, ErrorJson("Nu s-a putut crea utilizatorul")) && effects == [create]
            case Created(id) =>
              && response == Response(200, SuccessJson(Some(SuccessMessage(g.username))))
              && effects == [create] + (if g.fullAccess then [SetFullAccess(id)] else [])
                            + [InsertAudit(CreationAudit(g.caller, profileUsername(g.caller.id), id, g.username))])
    // no account is created for a refused request or an already taken username
    ensures forall e :: e in effects && e.CreateAuthUser? ==>
      && CheckCaller(authorization, getUser, hasAdminRole).Admin?
      && !usernameTaken(e.username) && |e.username| >= 3 && |e.password| >= 6
      && e.email == AdminEmail(e.username)
    // full access is granted only when asked for
    ensures (exists e :: e in effects && e.SetFullAccess?) ==> body.Json? && FullAccessRequested(body.fullAccess)
  {
    if httpMethod == "OPTIONS" {
      return Response(200, NoBody), [];
    }
    effects := [];
    var guard := GuardCreateAdmin(authorization, body, getUser, hasAdminRole, usernameTaken);
    if guard.Reject? {
      return guard.response, effects;
    }
    var email := AdminEmail(guard.username);
    var outcome := createUser(email, guard.password, guard.username);
    effects := effects + [CreateAuthUser(email, guard.password, guard.username)];
    match outcome
    case AuthError(message) =>
      return Response(400, ErrorJson(message)), effects;
    case NoUser =>
      return Response(500, ErrorJson("Nu s-a putut crea utilizatorul")), effects;
    case Created(id) =>
      if guard.fullAccess {
        effects := effects + [SetFullAccess(id)];
      }
      var callerUsername := profileUsername(guard.caller.id);
      effects := effects + [InsertAudit(CreationAudit(guard.caller, callerUsername, id, guard.username))];
      response := Response(200, SuccessJson(Some(SuccessMessage(guard.username))));
  }
}
