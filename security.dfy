/** Token payloads and the authentication dependencies. A token is modelled
    by its decoded payload: signing and verification are not modelled, and a
    decoding failure (bad signature, malformed token, past `exp`) is the input
    None. Instants are whole seconds. */
module Security {
  import opened Wrappers
  import opened Strings
  import opened Accounts

  /** A JSON value inside a payload. */
  datatype ClaimValue = Text(text: string) | Number(n: int) | Null

  type Claims = map<string, ClaimValue>

  /** The token lifetimes the settings provide. */
  datatype TokenSettings = TokenSettings(accessMinutes: int, refreshDays: int)

  const Unauthorized: nat := 401
  const BadRequest: nat := 400
  const Forbidden: nat := 403
  const NotFound: nat := 404
  const ServerError: nat := 500

  const CredentialsMessage: string := "Could not validate credentials"

  /** The claim keys the token functions add to the caller's data. */
  predicate IsStampKey(k: string) {
    k == "exp" || k == "type" || k == "iat"
  }

  /** `create_access_token`: the caller's data plus `exp`, `type` and `iat`.
      A zero `expires_delta` is falsy in Python and falls back to the
      default lifetime, like an absent one. */
  function AccessPayload(data: Claims, expiresDelta: Option<int>, now: int, settings: TokenSettings): (p: Claims)
    ensures p.Keys == data.Keys + {"exp", "type", "iat"}
    ensures forall k :: k in data && !IsStampKey(k) ==> p[k] == data[k]
    ensures p["type"] == Text("access") && p["iat"] == Number(now)
    ensures expiresDelta.Some? && expiresDelta.value != 0 ==> p["exp"] == Number(now + expiresDelta.value)
    ensures expiresDelta.None? || expiresDelta.value == 0 ==> p["exp"] == Number(now + settings.accessMinutes * 60)
  {
    var exp := if expiresDelta.Some? && expiresDelta.value != 0 then now + expiresDelta.value
               else now + settings.accessMinutes * 60;
    data + map["exp" := Number(exp), "type" := Text("access"), "iat" := Number(now)]
  }

  /** `create_refresh_token`: the caller's data plus `exp`, `type` and `iat`,
      valid for the configured number of days. */
  function RefreshPayload(data: Claims, now: int, settings: TokenSettings): (p: Claims)
    ensures p.Keys == data.Keys + {"exp", "type", "iat"}
    ensures forall k :: k in data && !IsStampKey(k) ==> p[k] == data[k]
    ensures p["type"] == Text("refresh") && p["iat"] == Number(now)
    ensures p["exp"] == Number(now + settings.refreshDays * 86400)
  {
    data + map["exp" := Number(now + settings.refreshDays * 86400), "type" := Text("refresh"), "iat" := Number(now)]
  }

  /** The data the services put in both tokens: the user id as text. */
  function SubjectClaims(id: nat): Claims {
    map["sub" := Text(NatToString(id))]
  }

  /** `int(user_id)` on the value of `sub`: Python's int() of a string, or
      the number itself. */
  function SubjectId(v: ClaimValue): Option<int>
  {
    match v
    case Text(s) => ParseInt(s)
    case Number(n) => Some(n)
    case Null => None
  }

  /** `payload.get("type") != "access"` and its `"refresh"` twin. */
  predicate HasType(p: Claims, t: string) {
    "type" in p && p["type"] == Text(t)
  }

  /** `payload.get("sub")` is not None. */
  predicate HasSubject(p: Claims) {
    "sub" in p && p["sub"] != Null
  }

  /** `get_current_user`. `decoded` is the payload `decode_token` returns, or
      None when it raises `JWTError`. `int(sub)` runs outside the `try`, so a
      subject that is not an integer escapes as a server error. */
  function GetCurrentUser(decoded: Option<Claims>, users: seq<User>): (r: Outcome<User>)
  {
    match decoded
    case None => Err(Unauthorized, CredentialsMessage)
    case Some(p) =>
      if !HasType(p, "access") then Err(Unauthorized, CredentialsMessage)
      else if !HasSubject(p) then Err(Unauthorized, CredentialsMessage)
      else
        match SubjectId(p["sub"])
        case None => Err(ServerError, "invalid literal for int()")
        case Some(id) =>
          match UserById(users, id)
          case None => Err(Unauthorized, CredentialsMessage)
          case Some(i) =>
            if !users[i].isActive then Err(BadRequest, "Inactive user")
            else Ok(users[i])
  }

  /** The token checks come first: an undecodable token, a token of another
      type (a refresh token in particular) and a token without a subject are
      all refused with 401, whatever the table holds. */
  lemma GetCurrentUserTokenChecks(decoded: Option<Claims>, users: seq<User>)
    ensures decoded.None? ==> GetCurrentUser(decoded, users) == Err(Unauthorized, CredentialsMessage)
    ensures decoded.Some? && !HasType(decoded.value, "access") ==>
              GetCurrentUser(decoded, users) == Err(Unauthorized, CredentialsMessage)
    ensures decoded.Some? && !HasSubject(decoded.value) ==>
              GetCurrentUser(decoded, users) == Err(Unauthorized, CredentialsMessage)
  {
  }

  /** A refresh token never authenticates a request. */
  lemma RefreshTokenRejected(data: Claims, now: int, settings: TokenSettings, users: seq<User>)
    ensures GetCurrentUser(Some(RefreshPayload(data, now, settings)), users) == Err(Unauthorized, CredentialsMessage)
  {
  }

  /** The outcome once the token checks pass: 401 for an unknown id, 400 for
      an inactive account, the user otherwise. */
  lemma GetCurrentUserLookup(p: Claims, users: seq<User>)
    requires HasType(p, "access") && HasSubject(p) && SubjectId(p["sub"]).Some?
    ensures var id := SubjectId(p["sub"]).value;
            var r := GetCurrentUser(Some(p), users);
            (r == Err(Unauthorized, CredentialsMessage) <==> forall j :: 0 <= j < |users| ==> users[j].id != id)
            && (r == Err(BadRequest, "Inactive user") <==>
                  exists i :: 0 <= i < |users| && users[i].id == id && UserById(users, id) == Some(i) && !users[i].isActive)
            && (r.Ok? ==> r.value in users && r.value.id == id && r.value.isActive)
  {
    var id := SubjectId(p["sub"]).value;
    var r := GetCurrentUser(Some(p), users);
    match UserById(users, id)
    case None =>
    case Some(i) =>
      assert users[i].id == id;
  }

  /** An access token issued for a stored, active account authenticates that
      account, whatever else its payload holds besides the subject. */
  lemma IssuedAccessTokenAuthenticates(users: seq<User>, k: nat, expiresDelta: Option<int>, now: int, settings: TokenSettings)
    requires UniqueUsers(users)
    requires k < |users| && users[k].isActive
    ensures GetCurrentUser(Some(AccessPayload(SubjectClaims(users[k].id), expiresDelta, now, settings)), users) == Ok(users[k])
  {
    var p := AccessPayload(SubjectClaims(users[k].id), expiresDelta, now, settings);
    assert p["sub"] == Text(NatToString(users[k].id));
    ParseIntOfNat(users[k].id);
    UserByIdFinds(users, k);
  }

  /** `get_current_user_optional`. `credentials` is None when no bearer
      header was sent. Only `JWTError` is caught, so a subject that is not an
      integer still escapes as a server error. */
  function GetCurrentUserOptional(credentials: Option<Option<Claims>>, users: seq<User>): (r: Outcome<Option<User>>)
  {
    match credentials
    case None => Ok(None)
    case Some(decoded) =>
      match decoded
      case None => Ok(None)
      case Some(p) =>
        if !HasType(p, "access") then Ok(None)
        else if !HasSubject(p) then Ok(None)
        else
          match SubjectId(p["sub"])
          case None => Err(ServerError, "invalid literal for int()")
          case Some(id) =>
            match UserById(users, id)
            case None => Ok(None)
            case Some(i) => if users[i].isActive then Ok(Some(users[i])) else Ok(None)
  }

  /** The optional dependency agrees with the strict one: it yields a user
      exactly when the strict one does, the same user; it fails only where
      the strict one fails with a server error; every other refusal of the
      strict one becomes None. */
  lemma OptionalAgreesWithStrict(decoded: Option<Claims>, users: seq<User>)
    ensures var strict := GetCurrentUser(decoded, users);
            var optional := GetCurrentUserOptional(Some(decoded), users);
            (strict.Ok? ==> optional == Ok(Some(strict.value)))
            && (optional.Ok? && optional.value.Some? ==> strict == Ok(optional.value.value))
            && (optional.Err? <==> strict.Err? && strict.status == ServerError)
            && (strict.Err? && strict.status != ServerError ==> optional == Ok(None))
  {
  }

  /** Without credentials there is no user and no error. */
  lemma OptionalWithoutCredentials(users: seq<User>)
    ensures GetCurrentUserOptional(None, users) == Ok(None)
  {
  }

  /** `require_role(allowed)`: the strict dependency, then the role test. */
  function RequireRole(allowed: seq<Role>, current: Outcome<User>): (r: Outcome<User>)
  {
    match current
    case Err(s, d) => Err(s, d)
    case Ok(u) => if u.role in allowed then Ok(u) else Err(Forbidden, "Insufficient permissions")
  }

  /** An authenticated user passes exactly when their role is allowed, and is
      otherwise refused with 403; an authentication failure passes through
      unchanged. */
  lemma RequireRoleSpec(allowed: seq<Role>, current: Outcome<User>)
    ensures current.Err? ==> RequireRole(allowed, current) == current
    ensures current.Ok? ==>
              (RequireRole(allowed, current) == current <==> current.value.role in allowed)
              && (current.value.role !in allowed ==> RequireRole(allowed, current) == Err(Forbidden, "Insufficient permissions"))
  {
  }
}
