/**
  The `delete-user` edge function, `supabase/functions/delete-user/index.ts`: an
  administrator deletes an account by id. The request passes an ordered chain of checks
  (header, token, administrator role, a `userId` in the body, the id's UUID shape); only
  then is the account deleted and, when that succeeded, an audit row written.
 */
module DeleteUser {

  import opened Wrappers
  import opened Js
  import opened EdgeHttp

  // ---------------------------------------------------------------------------
  // The id format: `/^[0-9a-f]{8}-[0-9a-f]{4}-4[0-9a-f]{3}-[89ab][0-9a-f]{3}-[0-9a-f]{12}$/i`,
  // the layout of section 3 of RFC 4122 with version 4 (section 4.1.3) and the variant
  // bits 10 (section 4.1.1).

  /** A hexadecimal digit of either case (the `i` flag). */
  predicate HexChar(c: char) {
    '0' <= c <= '9' || 'a' <= c <= 'f' || 'A' <= c <= 'F'
  }

  predicate AllHex(s: string) {
    forall i :: 0 <= i < |s| ==> HexChar(s[i])
  }

  /** The characters from `from` up to `to` are hexadecimal digits. */
  predicate HexBetween(s: string, from: nat, to: nat)
    requires from <= to <= |s|
  {
    forall i :: from <= i < to ==> HexChar(s[i])
  }

  /** The first digit of the fourth group: `[89ab]`, either case. */
  predicate VariantChar(c: char) {
    c in "89abAB"
  }

  /** The text matches the id pattern. */
  predicate IsUuid(s: string) {
    && |s| == 36
    && s[8] == '-' && s[13] == '-' && s[18] == '-' && s[23] == '-'
    && s[14] == '4' && VariantChar(s[19])
    && HexBetween(s, 0, 8) && HexBetween(s, 9, 13) && HexBetween(s, 15, 18)
    && HexBetween(s, 20, 23) && HexBetween(s, 24, 36)
  }

  /** Five groups of 8, 4, 4, 4 and 12 hexadecimal digits joined by dashes, where the third
      group starts with the version digit 4 and the fourth with a variant digit, form an id. */
  lemma UuidOfGroups(g1: string, g2: string, g3: string, variant: char, g4: string, g5: string)
    requires |g1| == 8 && |g2| == 4 && |g3| == 3 && |g4| == 3 && |g5| == 12
    requires AllHex(g1) && AllHex(g2) && AllHex(g3) && AllHex(g4) && AllHex(g5)
    requires VariantChar(variant)
    ensures IsUuid(g1 + "-" + g2 + "-4" + g3 + "-" + [variant] + g4 + "-" + g5)
  {
    var s := g1 + "-" + g2 + "-4" + g3 + "-" + [variant] + g4 + "-" + g5;
    assert forall i :: 0 <= i < 8 ==> s[i] == g1[i];
    assert forall i :: 9 <= i < 13 ==> s[i] == g2[i - 9];
    assert forall i :: 15 <= i < 18 ==> s[i] == g3[i - 15];
    assert forall i :: 20 <= i < 23 ==> s[i] == g4[i - 20];
    assert forall i :: 24 <= i < 36 ==> s[i] == g5[i - 24];
  }

  /** Conversely, every id is such a join of its groups. */
  lemma UuidGroups(s: string)
    requires IsUuid(s)
    ensures s == s[0..8] + "-" + s[9..13] + "-4" + s[15..18] + "-" + [s[19]] + s[20..23] + "-" + s[24..36]
  {
  }

  lemma CaseOfIdChar(c: char)
    ensures HexChar(LowerChar(c)) <==> HexChar(c)
    ensures VariantChar(LowerChar(c)) <==> VariantChar(c)
    ensures LowerChar(c) == '-' <==> c == '-'
    ensures LowerChar(c) == '4' <==> c == '4'
  {
  }

  /** The check ignores case: an id in capitals is an id. */
  lemma UuidIgnoresCase(s: string)
    ensures IsUuid(Lower(s)) <==> IsUuid(s)
  {
    var l := Lower(s);
    forall i | 0 <= i < |s|
      ensures (HexChar(l[i]) <==> HexChar(s[i])) && (VariantChar(l[i]) <==> VariantChar(s[i]))
      ensures (l[i] == '-' <==> s[i] == '-') && (l[i] == '4' <==> s[i] == '4')
    {
      CaseOfIdChar(s[i]);
    }
  }

  /** An id whose third group starts with the version digit 1 is refused. */
  lemma UuidExampleVersion1()
    ensures !IsUuid("123e4567-e89b-12d3-a456-426614174000")
  {
    assert "123e4567-e89b-12d3-a456-426614174000"[14] == '1';
  }

  // ---------------------------------------------------------------------------
  // The request checks

  /** The request body: `Unparsable` when `req.json()` or the destructuring of its result
      throws (the message is the error's), otherwise the value of its `userId` key. */
  datatype DeleteRequestBody = Unparsable(message: string) | Json(userId: Value)

  /** `uuidRegex.test(userId)` for the values `Value` covers: a string is tested as it is,
      and the text of a number, a boolean or `null` never has the id's shape. Arrays and
      objects, whose text can have it, are not part of this model. */
  predicate UserIdHasUuidShape(userId: Value) {
    userId.Str? && IsUuid(userId.s)
  }

  /** The end of the checks: an early answer, or the caller and the id to delete. */
  datatype DeleteGuard = Reject(response: Response) | Proceed(caller: AuthUser, userId: string)

  const Unauthorized := Response(401, ErrorJson("Unauthorized"))
  const Forbidden := Response(403, ErrorJson("Forbidden: Admin access required"))
  const UserIdRequired := Response(400, ErrorJson("User ID is required"))
  const InvalidUserIdFormat := Response(400, ErrorJson("Invalid user ID format"))

  /** The checks in their order; the first that fails decides the answer. */
  function GuardDeleteUser(authorization: Option<string>, body: DeleteRequestBody,
                           getUser: string -> Option<AuthUser>, hasAdminRole: string -> bool): (g: DeleteGuard)
    ensures var caller := CheckCaller(authorization, getUser, hasAdminRole);
      && (g.Proceed? <==> caller.Admin? && body.Json? && Truthy(body.userId) && UserIdHasUuidShape(body.userId))
      && (g.Proceed? ==> g.caller == caller.user && IsUuid(g.userId) && body.userId == Str(g.userId))
      && (g.Reject? ==>
          && (g.response.status == 401 <==> caller.NoHeader? || caller.InvalidToken?)
          && (g.response.status == 403 <==> caller.NotAdmin?)
          && (g.response.status == 500 <==> caller.Admin? && body.Unparsable?)
          && (g.response.status == 401 ==> g.response == Unauthorized)
          && (g.response.status == 400 ==>
                g.response == if Truthy(body.userId) then InvalidUserIdFormat else UserIdRequired))
      && (caller.NoHeader? || caller.InvalidToken? ==> g == Reject(Unauthorized))
      && (caller.NotAdmin? ==> g == Reject(Forbidden))
      && (caller.Admin? && body.Unparsable? ==> g == Reject(Response(500, ErrorJson(body.message))))
      && (caller.Admin? && body.Json? && g.Reject? ==>
            g.response == if Truthy(body.userId) then InvalidUserIdFormat else UserIdRequired)
  {
    match CheckCaller(authorization, getUser, hasAdminRole)
    case NoHeader => Reject(Unauthorized)
    case InvalidToken => Reject(Unauthorized)
    case NotAdmin => Reject(Forbidden)
    case Admin(caller) =>
      match body
      case Unparsable(message) => Reject(Response(500, ErrorJson(message)))
      case Json(userId) =>
        if !Truthy(userId) then Reject(UserIdRequired)
        else if !UserIdHasUuidShape(userId) then Reject(InvalidUserIdFormat)
        else Proceed(caller, userId.s)
  }

  // ---------------------------------------------------------------------------
  // The audit row

  /** `adminProfile?.username || user.email?.split('@')[0] || 'unknown'`: the name the
      audit row records for the administrator. */
  function AuditUsername(adminProfileUsername: Option<string>, email: Option<string>): (r: string)
    ensures r != ""
    ensures adminProfileUsername.GetOr("") != "" ==> r == adminProfileUsername.value
    ensures adminProfileUsername.GetOr("") == "" && BeforeAt(email.GetOr("")) != "" ==>
      r == BeforeAt(email.value) && '@' !in r && email.value[..|r|] == r
    ensures adminProfileUsername.GetOr("") == "" && BeforeAt(email.GetOr("")) == "" ==> r == "unknown"
  {
    if adminProfileUsername.Some? && adminProfileUsername.value != "" then adminProfileUsername.value
    else if email.Some? && BeforeAt(email.value) != "" then BeforeAt(email.value)
    else "unknown"
  }

  /** An administrator without a profile name is recorded under the local part of an
      e-mail address built as `name@domain`. */
  lemma {:induction false} AuditUsernameFromEmail(name: string, domain: string)
    requires name != [] && '@' !in name
    ensures AuditUsername(None, Some(name + "@" + domain)) == name
  {
    BeforeAtOfJoin(name, domain);
  }

  lemma {:induction false} BeforeAtOfJoin(name: string, domain: string)
    requires '@' !in name
    ensures BeforeAt(name + "@" + domain) == name
  {
    if name != [] {
      assert (name + "@" + domain)[1..] == name[1..] + "@" + domain;
      BeforeAtOfJoin(name[1..], domain);
    }
  }

  /** The audit row of a deletion. */
  function DeletionAudit(caller: AuthUser, callerProfileUsername: Option<string>, userId: string,
                         deletedProfileUsername: Option<string>, now: string): (e: AuditEntry)
    ensures e.user_id == caller.id && e.record_id == userId
    ensures e.action == "DELETE" && e.table_name == "auth.users"
    ensures e.username == AuditUsername(callerProfileUsername, caller.email)
    ensures e.details.DeletedUserDetails? && e.details.timestamp == now
    ensures e.details.deleted_username == if deletedProfileUsername.GetOr("") != "" then deletedProfileUsername.value else "unknown"
  {
    AuditEntry(caller.id, AuditUsername(callerProfileUsername, caller.email), "DELETE", "auth.users", userId,
               DeletedUserDetails(if deletedProfileUsername.GetOr("") != "" then deletedProfileUsername.value else "unknown", now))
  }

  // ---------------------------------------------------------------------------
  // The handler

  /** One request. `profileUsername` answers the profile lookups by id, `deleteSucceeds`
      whether the authentication service deleted the account, and `now` is the clock. */
  method HandleDeleteUser(httpMethod: string, authorization: Option<string>, body: DeleteRequestBody,
                          getUser: string -> Option<AuthUser>, hasAdminRole: string -> bool,
                          profileUsername: string -> Option<string>, deleteSucceeds: string -> bool,
                          now: string)
    returns (response: Response, effects: seq<Effect>)
    ensures httpMethod == "OPTIONS" ==> response == Response(200, Text("ok")) && effects == []
    ensures var g := GuardDeleteUser(authorization, body, getUser, hasAdminRole);
      && (httpMethod != "OPTIONS" && g.Reject? ==> response == g.response && effects == [])
      && (httpMethod != "OPTIONS" && g.Proceed? && !deleteSucceeds(g.userId) ==>
            response == Response(400, ErrorJson("Failed to delete user")) && effects == [DeleteAuthUser(g.userId)])
      && (httpMethod != "OPTIONS" && g.Proceed? && deleteSucceeds(g.userId) ==>
            && response == Response(200, SuccessJson(None))
            && effects == [DeleteAuthUser(g.userId),
                           InsertAudit(DeletionAudit(g.caller, profileUsername(g.caller.id), g.userId,
                                                     profileUsername(g.userId), now))])
    // an account is deleted only by an administrator, and only with a well-formed id
    ensures forall id :: DeleteAuthUser(id) in effects ==>
      && CheckCaller(authorization, getUser, hasAdminRole).Admin?
      && IsUuid(id) && body == Json(Str(id))
  {
    if httpMethod == "OPTIONS" {
      return Response(200, Text("ok")), [];
    }
    effects := [];
    var guard := GuardDeleteUser(authorization, body, getUser, hasAdminRole);
    if guard.Reject? {
      return guard.response, effects;
    }
    var userId := guard.userId;
    // the deleted user's name is read before the deletion
    var deletedUsername := profileUsername(userId);
    effects := effects + [DeleteAuthUser(userId)];
    if !deleteSucceeds(userId) {
      return Response(400, ErrorJson("Failed to delete user")), effects;
    }
    var callerUsername := profileUsername(guard.caller.id);
    effects := effects + [InsertAudit(DeletionAudit(guard.caller, callerUsername, userId, deletedUsername, now))];
    response := Response(200, SuccessJson(None));
  }
}
