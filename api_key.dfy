/** An API key record and its validity at a given instant. Instants are whole
    seconds on the server's UTC clock, passed in by the caller. */
module ApiKeys {
  import opened Wrappers
  import opened Query

  datatype ApiKey = ApiKey(
    id: nat,
    key: string,
    name: string,
    userId: nat,
    scopes: seq<string>,
    isActive: bool,
    expiresAt: Option<int>,
    lastUsedAt: Option<int>,
    createdAt: int)

  /** The column default of `scopes`. */
  const DefaultScopes: seq<string> := ["read"]

  /** A freshly inserted row: `scopes` falls back to the column default when
      not given, the key starts active and unused, and `created_at` is the
      insertion instant. */
  function NewKey(id: nat, key: string, name: string, userId: nat, scopes: Option<seq<string>>,
                  expiresAt: Option<int>, now: int): (k: ApiKey)
    ensures k.isActive && k.lastUsedAt.None? && k.createdAt == now
    ensures k.id == id && k.key == key && k.name == name && k.userId == userId && k.expiresAt == expiresAt
    ensures scopes.None? ==> k.scopes == ["read"]
    ensures scopes.Some? ==> k.scopes == scopes.value
  {
    ApiKey(id, key, name, userId, if scopes.Some? then scopes.value else DefaultScopes, true, expiresAt, None, now)
  }

  /** `is_expired`. */
  predicate IsExpired(k: ApiKey, now: int)
  {
    match k.expiresAt
    case None => false
    case Some(t) => now > t
  }

  /** `is_valid`. */
  predicate IsValid(k: ApiKey, now: int)
  {
    k.isActive && !IsExpired(k, now)
  }

  /** A key without an expiry instant never expires. */
  lemma NoDeadlineNeverExpires(k: ApiKey, now: int)
    requires k.expiresAt.None?
    ensures !IsExpired(k, now)
  {
  }

  /** A key with a deadline is expired strictly after it, and still usable at
      the deadline itself. */
  lemma ExpiredExactly(k: ApiKey, now: int)
    requires k.expiresAt.Some?
    ensures IsExpired(k, now) <==> now > k.expiresAt.value
    ensures !IsExpired(k, k.expiresAt.value)
  {
  }

  /** Valid means active and not expired, which for a key with a deadline is
      active and not past it. */
  lemma ValidIff(k: ApiKey, now: int)
    ensures IsValid(k, now) <==>
              k.isActive && (k.expiresAt.None? || now <= k.expiresAt.value)
  {
  }

  /** A revoked key is invalid at every instant. */
  lemma RevokedInvalid(k: ApiKey, now: int)
    requires !k.isActive
    ensures !IsValid(k, now)
  {
  }

  /** Expiry is permanent: expired at `t` means expired at every later
      instant, and valid at `t` means valid at every earlier one. */
  lemma ExpiryMonotone(k: ApiKey, t: int, later: int)
    requires t <= later
    ensures IsExpired(k, t) ==> IsExpired(k, later)
    ensures IsValid(k, later) ==> IsValid(k, t)
  {
  }

  /** `query(APIKey).filter(APIKey.id == id).first()`. */
  function KeyById(keys: seq<ApiKey>, id: int): (r: Option<nat>)
    ensures r.Some? ==> r.value < |keys| && keys[r.value].id == id
    ensures r.Some? ==> forall j :: 0 <= j < r.value ==> keys[j].id != id
    ensures r.None? ==> forall j :: 0 <= j < |keys| ==> keys[j].id != id
  {
    First(keys, (k: ApiKey) => k.id == id)
  }
}
