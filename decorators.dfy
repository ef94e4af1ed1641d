/**
 * Route guards: reading a Bearer token from the Authorization header and
 * gating on the token's role.  An HTTP exception becomes an `HttpError`
 * carrying its status code and detail.
 */
module Decorators {

  import opened Wrappers
  import opened Strings
  import Users

  datatype HttpError = HttpError(status: int, detail: string)

  const MissingHeader := HttpError(401, "Not authenticated. Please provide Authorization header.")
  const BadScheme := HttpError(401, "Invalid authentication scheme. Use 'Bearer <token>'")
  const BadFormat := HttpError(401, "Invalid authorization header format. Use 'Bearer <token>'")
  const BadToken := HttpError(401, "Invalid or expired token")
  const AdminRequired := HttpError(403, "Admin privileges required")

  /** A missing header and an empty one are both "not provided". */
  predicate Absent(authorization: Option<string>) {
    authorization.None? || authorization.value == ""
  }

  /**
   * The token of a "<scheme> <token>" header: exactly two
   * whitespace-separated parts, the first "bearer" in any case.
   */
  function BearerToken(authorization: Option<string>): (r: Result<string, HttpError>)
    ensures Absent(authorization) ==> r == Err(MissingHeader)
    ensures !Absent(authorization) && |SplitWhitespace(authorization.value)| != 2 ==> r == Err(BadFormat)
    ensures r.Ok? <==> !Absent(authorization) && |SplitWhitespace(authorization.value)| == 2 &&
                       Lower(SplitWhitespace(authorization.value)[0]) == "bearer"
    ensures r.Ok? ==> r.value == SplitWhitespace(authorization.value)[1] && r.value != [] &&
                      forall j :: 0 <= j < |r.value| ==> !IsSpace(r.value[j])
    ensures r.Err? ==> r.error.status == 401
  {
    if Absent(authorization) then Err(MissingHeader)
    else
      var parts := SplitWhitespace(authorization.value);
      if |parts| != 2 then Err(BadFormat)
      else if Lower(parts[0]) != "bearer" then Err(BadScheme)
      else Ok(parts[1])
  }

  /** `get_current_user`: the verified claims, or 401. */
  function GetCurrentUser(revoked: seq<string>, authorization: Option<string>,
                          decode: string -> Option<Users.Payload>): (r: Result<Users.TokenUser, HttpError>)
    ensures BearerToken(authorization).Err? ==> r == Err(BearerToken(authorization).error)
    ensures BearerToken(authorization).Ok? ==>
              match Users.VerifyToken(revoked, BearerToken(authorization).value, decode)
              case None => r == Err(BadToken)
              case Some(u) => r == Ok(u)
    ensures r.Err? ==> r.error.status == 401
  {
    match BearerToken(authorization)
    case Err(e) => Err(e)
    case Ok(token) =>
      match Users.VerifyToken(revoked, token, decode)
      case None => Err(BadToken)
      case Some(u) => Ok(u)
  }

  /**
   * `require_role(required)`: the user passes through unchanged iff the
   * role is exactly `required`; a failed authentication keeps its 401.
   */
  function RequireRole(required: string, user: Result<Users.TokenUser, HttpError>): (r: Result<Users.TokenUser, HttpError>)
    ensures user.Err? ==> r == user
    ensures user.Ok? ==> (r.Ok? <==> user.value.role == Some(required))
    ensures r.Ok? ==> r == user
    ensures user.Ok? && r.Err? ==> r.error.status == 403
  {
    match user
    case Err(e) => Err(e)
    case Ok(u) =>
      if u.role != Some(required) then Err(HttpError(403, "Role '" + required + "' required")) else Ok(u)
  }

  /** `get_current_admin`: the user passes through unchanged iff the role is exactly "admin". */
  function GetCurrentAdmin(user: Result<Users.TokenUser, HttpError>): (r: Result<Users.TokenUser, HttpError>)
    ensures user.Err? ==> r == user
    ensures user.Ok? ==> (r.Ok? <==> user.value.role == Some("admin"))
    ensures r.Ok? ==> r == user
    ensures user.Ok? && r.Err? ==> r == Err(AdminRequired)
  {
    match user
    case Err(e) => Err(e)
    case Ok(u) => if u.role != Some("admin") then Err(AdminRequired) else Ok(u)
  }

  /** The admin gate admits exactly whom `require_role("admin")` admits; only the 403 detail differs. */
  lemma AdminGateIsRequireAdmin(user: Result<Users.TokenUser, HttpError>)
    ensures GetCurrentAdmin(user).Ok? <==> RequireRole("admin", user).Ok?
    ensures GetCurrentAdmin(user).Ok? ==> GetCurrentAdmin(user) == RequireRole("admin", user)
  {
  }

  /** `get_optional_user`: never an error; no header, a bad format, another scheme or a rejected token all give None. */
  function GetOptionalUser(revoked: seq<string>, authorization: Option<string>,
                           decode: string -> Option<Users.Payload>): (r: Option<Users.TokenUser>)
    ensures BearerToken(authorization).Err? ==> r.None?
    ensures BearerToken(authorization).Ok? ==> r == Users.VerifyToken(revoked, BearerToken(authorization).value, decode)
  {
    if Absent(authorization) then None
    else
      var parts := SplitWhitespace(authorization.value);
      if |parts| != 2 then None
      else if Lower(parts[0]) != "bearer" then None
      else Users.VerifyToken(revoked, parts[1], decode)
  }

  /** The optional guard admits exactly the users the strict one admits, with the same claims. */
  lemma OptionalAgreesWithStrict(revoked: seq<string>, authorization: Option<string>,
                                 decode: string -> Option<Users.Payload>)
    ensures GetOptionalUser(revoked, authorization, decode).Some? <==> GetCurrentUser(revoked, authorization, decode).Ok?
    ensures GetOptionalUser(revoked, authorization, decode).Some? ==>
              GetOptionalUser(revoked, authorization, decode).value == GetCurrentUser(revoked, authorization, decode).value
  {
  }

  /** A header that splits into a "bearer" scheme and a token yields that token. */
  lemma BearerPartsYieldToken(header: string, scheme: string, token: string)
    requires SplitWhitespace(header) == [scheme, token]
    requires Lower(scheme) == "bearer"
    ensures BearerToken(Some(header)) == Ok(token)
  {
  }

  /** A revoked token is turned away by both guards, whatever it decodes to. */
  lemma {:induction false} RevokedTokenRejected(revoked: seq<string>, header: string, scheme: string, token: string,
                             decode: string -> Option<Users.Payload>)
    requires SplitWhitespace(header) == [scheme, token] && Lower(scheme) == "bearer"
    requires token in revoked
    ensures GetCurrentUser(revoked, Some(header), decode) == Err(BadToken)
    ensures GetOptionalUser(revoked, Some(header), decode).None?
  {
    BearerPartsYieldToken(header, scheme, token);
  }
}
