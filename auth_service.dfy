/** The account service: registration, login, token refresh, profile and
    password changes, and API keys. The `users` and `api_keys` tables are
    sequences in insertion order; the database assigns ids from a counter.
    Password digests, token payloads and instants are modelled as in
    `Accounts` and `Security`; the random part of a new API key is a
    parameter. */
module AuthServices {
  import opened Wrappers
  import opened Strings
  import opened Query
  import opened Accounts
  import opened ApiKeys
  import opened Security
  import opened AuthSchema

  datatype TokenPair = TokenPair(access: Claims, refresh: Claims)

  /** UserWithTokenResponse. */
  datatype UserWithTokens = UserWithTokens(tokens: TokenPair, user: User)

  /** APIKeyCreatedResponse: the only response that carries the key itself. */
  datatype ApiKeyCreated = ApiKeyCreated(id: nat, key: string, name: string, scopes: seq<string>, expiresAt: Option<int>)

  const LoginFailure: string := "Incorrect email or password"
  const RefreshFailure: string := "Invalid or expired refresh token"
  const ApiKeyPrefix: string := "ff_"
  const SecondsPerDay: int := 86400

  /** The access and refresh tokens issued for user `id` at `now`. */
  function Tokens(id: nat, now: int, settings: TokenSettings): TokenPair
  {
    TokenPair(AccessPayload(SubjectClaims(id), None, now, settings), RefreshPayload(SubjectClaims(id), now, settings))
  }

  /** The row `register_user` inserts. */
  function NewUser(id: nat, data: UserRegister, now: int): (u: User)
    ensures u.isActive && !u.isVerified && u.role == FormCreator && u.lastLogin.None?
    ensures VerifyPassword(data.password, u.hashedPassword)
    ensures u.id == id && u.email == data.email && u.username == data.username && u.fullName == data.fullName
  {
    User(id, data.email, data.username, HashPassword(data.password), data.fullName,
         true, false, FormCreator, now, None, None)
  }

  /** The decision of `login_user`, given the email to look up: the index of
      the account that logs in, or the refusal. */
  function LoginCheck(users: seq<User>, email: string, password: string): (r: Outcome<nat>)
    ensures r.Ok? ==> r.value < |users|
  {
    match UserByEmail(users, email)
    case None => Err(Unauthorized, LoginFailure)
    case Some(i) =>
      if !VerifyPassword(password, users[i].hashedPassword) then Err(Unauthorized, LoginFailure)
      else if !users[i].isActive then Err(BadRequest, "User account is deactivated")
      else Ok(i)
  }

  /** An unknown email and a wrong password get the same answer; a right
      password on a deactivated account gets 400; otherwise the account with
      that email logs in. */
  lemma LoginCheckSpec(users: seq<User>, email: string, password: string)
    ensures var r := LoginCheck(users, email, password);
            ((forall j :: 0 <= j < |users| ==> users[j].email != email) ==> r == Err(Unauthorized, LoginFailure))
            && (forall i :: 0 <= i < |users| && UserByEmail(users, email) == Some(i) ==>
                  (!VerifyPassword(password, users[i].hashedPassword) ==> r == Err(Unauthorized, LoginFailure))
                  && (VerifyPassword(password, users[i].hashedPassword) && !users[i].isActive ==>
                        r == Err(BadRequest, "User account is deactivated"))
                  && (VerifyPassword(password, users[i].hashedPassword) && users[i].isActive ==> r == Ok(i)))
  {
  }

  /** `login_user` as written reads `login_data.email`, which the login body
      does not have: every call raises AttributeError before any lookup. */
  function LoginUserAsWritten(body: UserLogin): (r: Outcome<UserWithTokens>)
    ensures r.Err? && r.status == ServerError
  {
    Err(ServerError, "'UserLogin' object has no attribute 'email'")
  }

  /** The as-written login refuses even a stored, active account presented
      with its own email and password, which the corrected login accepts. */
  lemma LoginAsWrittenRefusesValidCredentials(users: seq<User>, k: nat, password: string)
    requires UniqueUsers(users)
    requires k < |users| && users[k].isActive
    requires VerifyPassword(password, users[k].hashedPassword)
    ensures LoginCheck(users, users[k].email, password) == Ok(k)
    ensures LoginUserAsWritten(UserLogin(users[k].email, password)).Err?
  {
    UserByEmailFinds(users, k);
  }

  /** The validity window of a new key: `days` from now when a positive
      number of days is given, none otherwise. Zero days is falsy in Python
      and also yields no expiry. */
  function ExpiryOf(days: Option<int>, now: int): (r: Option<int>)
    ensures days.None? ==> r.None?
    ensures days.Some? && days.value != 0 ==> r == Some(now + days.value * SecondsPerDay)
  {
    if days.Some? && days.value != 0 then Some(now + days.value * SecondsPerDay) else None
  }

  /** A key created from a validated request is valid from its creation
      until the end of its window, and only then. */
  lemma NewKeyLifetime(id: nat, token: string, request: ApiKeyCreate, userId: nat, now: int, t: int)
    requires request.expiresInDays.Some? ==> 1 <= request.expiresInDays.value <= 365
    requires now <= t
    ensures var k := NewKey(id, ApiKeyPrefix + token, request.name, userId, Some(request.scopes),
                            ExpiryOf(request.expiresInDays, now), now);
            IsValid(k, now)
            && (request.expiresInDays.None? ==> IsValid(k, t))
            && (request.expiresInDays.Some? ==>
                  (IsValid(k, t) <==> t <= now + request.expiresInDays.value * SecondsPerDay))
  {
  }

  class AuthService {
    var users: seq<User>
    var keys: seq<ApiKey>
    var nextUserId: nat
    var nextKeyId: nat
    const settings: TokenSettings

    /** The table constraints: unique user ids, emails and usernames, unique
        key ids, and counters above every id in use. */
    ghost predicate Valid()
      reads this
    {
      UniqueUsers(users)
      && (forall i :: 0 <= i < |users| ==> users[i].id < nextUserId)
      && (forall i, j :: 0 <= i < j < |keys| ==> keys[i].id != keys[j].id)
      && (forall i :: 0 <= i < |keys| ==> keys[i].id < nextKeyId)
    }

    constructor(settings: TokenSettings)
      ensures Valid()
      ensures users == [] && keys == [] && this.settings == settings
    {
      users := [];
      keys := [];
      nextUserId := 1;
      nextKeyId := 1;
      this.settings := settings;
    }

    /** `register_user`: the email is checked before the username; a clash
        leaves the table unchanged. */
    method RegisterUser(data: UserRegister, now: int) returns (r: Outcome<UserWithTokens>)
      requires Valid()
      modifies this
      ensures Valid()
      ensures keys == old(keys) && nextKeyId == old(nextKeyId)
      ensures nextUserId == if r.Ok? then old(nextUserId) + 1 else old(nextUserId)
      ensures UserByEmail(old(users), data.email).Some? ==>
                r == Err(BadRequest, "Email already registered") && users == old(users)
      ensures UserByEmail(old(users), data.email).None? && UserByUsername(old(users), data.username).Some? ==>
                r == Err(BadRequest, "Username already taken") && users == old(users)
      ensures UserByEmail(old(users), data.email).None? && UserByUsername(old(users), data.username).None? ==>
                r.Ok? && r.value.user == NewUser(old(nextUserId), data, now)
                && users == old(users) + [r.value.user]
                && r.value.tokens == Tokens(r.value.user.id, now, settings)
    {
      if UserByEmail(users, data.email).Some? {
        return Err(BadRequest, "Email already registered");
      }
      if UserByUsername(users, data.username).Some? {
        return Err(BadRequest, "Username already taken");
      }
      var user := NewUser(nextUserId, data, now);
      users := users + [user];
      nextUserId := nextUserId + 1;
      r := Ok(UserWithTokens(Tokens(user.id, now, settings), user));
    }

    /** `login_user` with the email passed explicitly. Success records the
        login instant on the account and changes nothing else. */
    method LoginUser(email: string, password: string, now: int) returns (r: Outcome<UserWithTokens>)
      requires Valid()
      modifies this
      ensures Valid()
      ensures keys == old(keys) && nextUserId == old(nextUserId) && nextKeyId == old(nextKeyId)
      ensures LoginCheck(old(users), email, password).Err? ==>
                r == Err(LoginCheck(old(users), email, password).status, LoginCheck(old(users), email, password).detail)
                && users == old(users)
      ensures LoginCheck(old(users), email, password).Ok? ==>
                var i := LoginCheck(old(users), email, password).value;
                users == old(users)[i := old(users)[i].(lastLogin := Some(now))]
                && r == Ok(UserWithTokens(Tokens(old(users)[i].id, now, settings), users[i]))
    {
      var check := LoginCheck(users, email, password);
      match check
      case Err(s, d) =>
        return Err(s, d);
      case Ok(i) =>
        users := users[i := users[i].(lastLogin := Some(now))];
        r := Ok(UserWithTokens(Tokens(users[i].id, now, settings), users[i]));
    }

    /** `refresh_access_token`. `decoded` is the payload, or None when
        decoding fails. Every failure, whatever its cause, is rewrapped into
        the same 401. */
    function RefreshAccessToken(decoded: Option<Claims>, now: int): (r: Outcome<TokenPair>)
      reads this
      ensures r.Err? ==> r == Err(Unauthorized, RefreshFailure)
      ensures r.Ok? ==>
                decoded.Some? && HasType(decoded.value, "refresh") && HasSubject(decoded.value)
                && SubjectId(decoded.value["sub"]).Some?
                && exists i :: 0 <= i < |users| && users[i].id == SubjectId(decoded.value["sub"]).value
                               && users[i].isActive
                               && r.value == Tokens(users[i].id, now, settings)
    {
      match decoded
      case None => Err(Unauthorized, RefreshFailure)
      case Some(p) =>
        if !HasType(p, "refresh") || !HasSubject(p) then Err(Unauthorized, RefreshFailure)
        else
          match SubjectId(p["sub"])
          case None => Err(Unauthorized, RefreshFailure)
          case Some(id) =>
            match UserById(users, id)
            case None => Err(Unauthorized, RefreshFailure)
            case Some(i) =>
              if !users[i].isActive then Err(Unauthorized, RefreshFailure)
              else Ok(Tokens(users[i].id, now, settings))
    }

    /** `change_password` for the stored account `userId`: a wrong old
        password leaves the digest unchanged; otherwise only that account's
        digest is replaced. */
    method ChangePassword(userId: nat, oldPassword: string, newPassword: string) returns (r: Outcome<bool>)
      requires Valid()
      requires UserById(users, userId).Some?
      modifies this
      ensures Valid()
      ensures keys == old(keys) && nextUserId == old(nextUserId) && nextKeyId == old(nextKeyId)
      ensures var i := UserById(old(users), userId).value;
              (!VerifyPassword(oldPassword, old(users)[i].hashedPassword) ==>
                 r == Err(BadRequest, "Incorrect password") && users == old(users))
              && (VerifyPassword(oldPassword, old(users)[i].hashedPassword) ==>
                 r == Ok(true)
                 && users == old(users)[i := old(users)[i].(hashedPassword := HashPassword(newPassword))])
    {
      var i := UserById(users, userId).value;
      if !VerifyPassword(oldPassword, users[i].hashedPassword) {
        return Err(BadRequest, "Incorrect password");
      }
      users := users[i := users[i].(hashedPassword := HashPassword(newPassword))];
      r := Ok(true);
    }

    /** `update_profile` for the stored account `userId`. A username held by
        a different account is refused and nothing is stored; an argument
        left as None keeps its field. */
    method UpdateProfile(userId: nat, fullName: Option<string>, username: Option<string>) returns (r: Outcome<User>)
      requires Valid()
      requires UserById(users, userId).Some?
      modifies this
      ensures Valid()
      ensures keys == old(keys) && nextUserId == old(nextUserId) && nextKeyId == old(nextKeyId)
      ensures username.Some? && OtherWithUsername(old(users), username.value, userId).Some? ==>
                r == Err(BadRequest, "Username already taken") && users == old(users)
      ensures !(username.Some? && OtherWithUsername(old(users), username.value, userId).Some?) ==>
                var i := UserById(old(users), userId).value;
                var u := old(users)[i].(fullName := if fullName.Some? then fullName else old(users)[i].fullName,
                                        username := if username.Some? then username.value else old(users)[i].username);
                users == old(users)[i := u] && r == Ok(u)
    {
      var i := UserById(users, userId).value;
      var u := users[i];
      if fullName.Some? {
        u := u.(fullName := fullName);
      }
      if username.Some? {
        if OtherWithUsername(users, username.value, userId).Some? {
          return Err(BadRequest, "Username already taken");
        }
        u := u.(username := username.value);
      }
      users := users[i := u];
      r := Ok(u);
    }

    /** `create_api_key`: the key is "ff_" followed by the random `token`,
        belongs to the caller, and expires after the requested days, if any. */
    method CreateApiKey(userId: nat, request: ApiKeyCreate, token: string, now: int) returns (r: ApiKeyCreated)
      requires Valid()
      modifies this
      ensures Valid()
      ensures users == old(users) && nextUserId == old(nextUserId) && nextKeyId == old(nextKeyId) + 1
      ensures var k := NewKey(old(nextKeyId), ApiKeyPrefix + token, request.name, userId, Some(request.scopes),
                              ExpiryOf(request.expiresInDays, now), now);
              keys == old(keys) + [k]
              && r == ApiKeyCreated(k.id, k.key, k.name, k.scopes, k.expiresAt)
      ensures r.key[..|ApiKeyPrefix|] == ApiKeyPrefix
      ensures request.expiresInDays.None? ==> r.expiresAt.None?
    {
      var k := NewKey(nextKeyId, ApiKeyPrefix + token, request.name, userId, Some(request.scopes),
                      ExpiryOf(request.expiresInDays, now), now);
      keys := keys + [k];
      nextKeyId := nextKeyId + 1;
      r := ApiKeyCreated(k.id, k.key, k.name, k.scopes, k.expiresAt);
    }

    /** `list_api_keys`: exactly the caller's keys, each as often as stored. */
    function ListApiKeys(userId: nat): (r: seq<ApiKey>)
      reads this
      ensures forall k :: k in r <==> k in keys && k.userId == userId
      ensures forall k: ApiKey :: k.userId == userId ==> multiset(r)[k] == multiset(keys)[k]
      ensures forall k: ApiKey :: k.userId != userId ==> multiset(r)[k] == 0
    {
      FilterMultiset(keys, (k: ApiKey) => k.userId == userId);
      Filter(keys, (k: ApiKey) => k.userId == userId)
    }

    /** `revoke_api_key`: 404 for an unknown key is decided before 403 for
        someone else's; otherwise that one key becomes inactive and nothing
        else changes. */
    method RevokeApiKey(userId: nat, keyId: int) returns (r: Outcome<bool>)
      requires Valid()
      modifies this
      ensures Valid()
      ensures users == old(users) && nextUserId == old(nextUserId) && nextKeyId == old(nextKeyId)
      ensures KeyById(old(keys), keyId).None? ==> r == Err(NotFound, "API key not found") && keys == old(keys)
      ensures KeyById(old(keys), keyId).Some? && old(keys)[KeyById(old(keys), keyId).value].userId != userId ==>
                r == Err(Forbidden, "Access denied") && keys == old(keys)
      ensures KeyById(old(keys), keyId).Some? && old(keys)[KeyById(old(keys), keyId).value].userId == userId ==>
                var i := KeyById(old(keys), keyId).value;
                r == Ok(true) && keys == old(keys)[i := old(keys)[i].(isActive := false)]
                && forall t :: !IsValid(keys[i], t)
    {
      match KeyById(keys, keyId)
      case None =>
        return Err(NotFound, "API key not found");
      case Some(i) =>
        if keys[i].userId != userId {
          return Err(Forbidden, "Access denied");
        }
        keys := keys[i := keys[i].(isActive := false)];
        r := Ok(true);
    }
  }

  /** The refresh token issued at registration or login for an account that
      is still stored and active refreshes to a fresh pair for the same
      account; its access twin does not. */
  lemma IssuedRefreshTokenRefreshes(s: AuthService, k: nat, issued: int, now: int)
    requires s.Valid()
    requires k < |s.users| && s.users[k].isActive
    ensures s.RefreshAccessToken(Some(Tokens(s.users[k].id, issued, s.settings).refresh), now)
            == Ok(Tokens(s.users[k].id, now, s.settings))
    ensures s.RefreshAccessToken(Some(Tokens(s.users[k].id, issued, s.settings).access), now).Err?
  {
    var p := Tokens(s.users[k].id, issued, s.settings).refresh;
    assert p["sub"] == Text(NatToString(s.users[k].id));
    ParseIntOfNat(s.users[k].id);
    UserByIdFinds(s.users, k);
  }

  /** After registration, the new account logs in with the password it
      registered with. */
  lemma RegisteredUserLogsIn(users: seq<User>, id: nat, data: UserRegister, now: int)
    requires UniqueUsers(users + [NewUser(id, data, now)])
    ensures LoginCheck(users + [NewUser(id, data, now)], data.email, data.password) == Ok(|users|)
  {
    UserByEmailFinds(users + [NewUser(id, data, now)], |users|);
  }

  /** After a password change, the new password logs in and any other
      password is refused like an unknown email. */
  lemma ChangedPasswordLogsIn(users: seq<User>, i: nat, newPassword: string, other: string)
    requires UniqueUsers(users)
    requires i < |users| && users[i].isActive
    requires other != newPassword
    ensures var changed := users[i := users[i].(hashedPassword := HashPassword(newPassword))];
            LoginCheck(changed, users[i].email, newPassword) == Ok(i)
            && LoginCheck(changed, users[i].email, other) == Err(Unauthorized, LoginFailure)
  {
    var changed := users[i := users[i].(hashedPassword := HashPassword(newPassword))];
    assert UniqueUsers(changed);
    UserByEmailFinds(changed, i);
  }

  /** A user may keep their own username: no other account holds it. */
  lemma OwnUsernameIsFree(users: seq<User>, i: nat)
    requires UniqueUsers(users)
    requires i < |users|
    ensures OtherWithUsername(users, users[i].username, users[i].id).None?
  {
  }
}
