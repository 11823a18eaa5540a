/** The request models of the account API and the checks Pydantic runs on
    them: declared length bounds first, then the field validators. Every
    failing field contributes one error; a field stops at its first failing
    check. */
module AuthSchema {
  import opened Wrappers
  import opened Strings

  /** One failed check, reported against the field it concerns. */
  datatype FieldError = FieldError(field: string, message: string)

  /** A request body after validation: the validated model, or the errors of
      every field that failed. */
  datatype Validated<+T> = Valid(value: T) | Invalid(errors: seq<FieldError>)

  /** HTTP status FastAPI answers with when a request body fails validation. */
  const Unprocessable: nat := 422

  /** Pydantic's messages for the declared bounds. */
  function TooShort(n: nat): string {
    "String should have at least " + NatToString(n) + (if n == 1 then " character" else " characters")
  }

  function TooLong(n: nat): string {
    "String should have at most " + NatToString(n) + (if n == 1 then " character" else " characters")
  }

  /** A `ValueError` raised by a field validator, as Pydantic reports it. */
  function ValueError(message: string): string {
    "Value error, " + message
  }

  const UsernameMessage: string := "Username can only contain letters, numbers, and underscores"
  const UpperMessage: string := "Password must contain at least one uppercase letter"
  const LowerMessage: string := "Password must contain at least one lowercase letter"
  const DigitMessage: string := "Password must contain at least one digit"

  /** A `min_length`/`max_length` bound, checked before any validator. */
  function CheckLength(v: string, min: nat, max: nat): (r: Option<string>)
  {
    if |v| < min then Some(TooShort(min))
    else if |v| > max then Some(TooLong(max))
    else None
  }

  lemma CheckLengthSpec(v: string, min: nat, max: nat)
    ensures CheckLength(v, min, max).None? <==> min <= |v| <= max
  {
  }

  // ---------------------------------------------------------------------------
  // Usernames
  // ---------------------------------------------------------------------------

  /** The character class `[a-zA-Z0-9_]`. */
  predicate IsWordChar(c: char) { IsAlnum(c) || c == '_' }

  predicate AllWordChars(s: string) {
    forall i :: 0 <= i < |s| ==> IsWordChar(s[i])
  }

  /** What `re.match(r"^[a-zA-Z0-9_]+$", v)` accepts in Python: `$` matches at
      the end of the string and also just before a final newline, so one
      trailing newline slips through. */
  predicate UsernamePatternAsWritten(v: string) {
    (|v| >= 1 && AllWordChars(v))
    || (|v| >= 2 && v[|v| - 1] == '\n' && AllWordChars(v[..|v| - 1]))
  }

  /** The evidently intended reading of the same pattern: a full match, so
      nothing but letters, digits and underscores. */
  predicate UsernamePattern(v: string) {
    |v| >= 1 && AllWordChars(v)
  }

  /** `UserRegister.username` as written: 3 to 50 characters, then the
      pattern as Python evaluates it, then `lower()`. */
  function ValidateUsernameAsWritten(v: string): (r: Outcome<string>)
  {
    match CheckLength(v, 3, 50)
    case Some(m) => Err(Unprocessable, m)
    case None =>
      if !UsernamePatternAsWritten(v) then Err(Unprocessable, ValueError(UsernameMessage))
      else Ok(Lower(v))
  }

  /** The as-written check stores a username that ends in a newline. */
  lemma TrailingNewlineAccepted()
    ensures ValidateUsernameAsWritten("abc\n") == Ok("abc\n")
    ensures !UsernamePattern("abc\n")
  {
    assert UsernamePatternAsWritten("abc\n") by {
      assert ("abc\n")[..3] == "abc";
    }
    assert Lower("abc\n") == "abc\n" by {
      LowerFixed("abc\n");
    }
  }

  /** The as-written check differs from the intended one only on inputs that
      end in a newline. */
  lemma AsWrittenDiffersOnlyByNewline(v: string)
    ensures ValidateUsernameAsWritten(v) != ValidateUsername(v) ==>
              |v| >= 2 && v[|v| - 1] == '\n'
  {
  }

  /** `UserRegister.username` with the pattern read as a full match. */
  function ValidateUsername(v: string): (r: Outcome<string>)
  {
    match CheckLength(v, 3, 50)
    case Some(m) => Err(Unprocessable, m)
    case None =>
      if !UsernamePattern(v) then Err(Unprocessable, ValueError(UsernameMessage))
      else Ok(Lower(v))
  }

  /** A username is accepted exactly when it has 3 to 50 characters, all
      letters, digits or underscores; the stored form is its lower case, of
      the same length and with no upper-case letter. */
  lemma ValidateUsernameSpec(v: string)
    ensures ValidateUsername(v).Ok? <==> 3 <= |v| <= 50 && AllWordChars(v)
    ensures ValidateUsername(v).Ok? ==>
              var u := ValidateUsername(v).value;
              u == Lower(v) && |u| == |v| && AllWordChars(u)
              && forall i :: 0 <= i < |u| ==> !IsUpper(u[i])
  {
    LowerSpec(v);
  }

  /** Re-validating an accepted username returns it unchanged. */
  lemma ValidateUsernameIdempotent(v: string)
    requires ValidateUsername(v).Ok?
    ensures ValidateUsername(ValidateUsername(v).value) == ValidateUsername(v)
  {
    ValidateUsernameSpec(v);
    LowerIdempotent(v);
  }

  // ---------------------------------------------------------------------------
  // Passwords
  // ---------------------------------------------------------------------------

  /** `re.search(r"[A-Z]", v)` and its two siblings (`\d` read as ASCII). */
  predicate HasUpper(s: string) { exists i :: 0 <= i < |s| && IsUpper(s[i]) }
  predicate HasLower(s: string) { exists i :: 0 <= i < |s| && IsLower(s[i]) }
  predicate HasDigit(s: string) { exists i :: 0 <= i < |s| && IsDigit(s[i]) }

  /** `UserRegister.password`: 8 to 100 characters, then upper case, lower
      case and digit, in that order; the value is returned as given. */
  function ValidatePassword(v: string): (r: Outcome<string>)
  {
    match CheckLength(v, 8, 100)
    case Some(m) => Err(Unprocessable, m)
    case None =>
      if !HasUpper(v) then Err(Unprocessable, ValueError(UpperMessage))
      else if !HasLower(v) then Err(Unprocessable, ValueError(LowerMessage))
      else if !HasDigit(v) then Err(Unprocessable, ValueError(DigitMessage))
      else Ok(v)
  }

  /** The password policy: accepted exactly when 8 to 100 characters long and
      holding an upper-case letter, a lower-case letter and a digit; an
      accepted password is returned unchanged. */
  lemma ValidatePasswordSpec(v: string)
    ensures ValidatePassword(v).Ok? <==>
              8 <= |v| <= 100 && HasUpper(v) && HasLower(v) && HasDigit(v)
    ensures ValidatePassword(v).Ok? ==> ValidatePassword(v).value == v
  {
  }

  /** Among passwords of an admissible length, the first missing class in the
      order upper, lower, digit names the error; the other classes do not
      matter once one is missing. */
  lemma PasswordFirstMissingClass(v: string)
    requires 8 <= |v| <= 100
    ensures !HasUpper(v) ==> ValidatePassword(v) == Err(Unprocessable, ValueError(UpperMessage))
    ensures HasUpper(v) && !HasLower(v) ==> ValidatePassword(v) == Err(Unprocessable, ValueError(LowerMessage))
    ensures HasUpper(v) && HasLower(v) && !HasDigit(v) ==>
              ValidatePassword(v) == Err(Unprocessable, ValueError(DigitMessage))
  {
  }

  /** `PasswordChange.new_password`, a separate copy of the same bounds and
      validator. */
  function ValidateNewPassword(v: string): (r: Outcome<string>)
  {
    if |v| < 8 then Err(Unprocessable, TooShort(8))
    else if |v| > 100 then Err(Unprocessable, TooLong(100))
    else if !(exists i :: 0 <= i < |v| && 'A' <= v[i] <= 'Z') then Err(Unprocessable, ValueError(UpperMessage))
    else if !(exists i :: 0 <= i < |v| && 'a' <= v[i] <= 'z') then Err(Unprocessable, ValueError(LowerMessage))
    else if !(exists i :: 0 <= i < |v| && '0' <= v[i] <= '9') then Err(Unprocessable, ValueError(DigitMessage))
    else Ok(v)
  }

  /** A password change applies exactly the registration rules. */
  lemma NewPasswordSameRules(v: string)
    ensures ValidateNewPassword(v) == ValidatePassword(v)
  {
  }

  /** The login body: one `login` field (an email or a username) and the
      password. */
  datatype UserLogin = UserLogin(login: string, password: string)

  /** The PasswordChange body: the old password is not checked here. */
  datatype PasswordChange = PasswordChange(oldPassword: string, newPassword: string)

  function ValidatePasswordChange(raw: PasswordChange): (r: Validated<PasswordChange>)
  {
    match ValidateNewPassword(raw.newPassword)
    case Err(_, m) => Invalid([FieldError("new_password", m)])
    case Ok(p) => Valid(PasswordChange(raw.oldPassword, p))
  }

  lemma ValidatePasswordChangeSpec(raw: PasswordChange)
    ensures ValidatePasswordChange(raw).Valid? <==> ValidatePassword(raw.newPassword).Ok?
    ensures ValidatePasswordChange(raw).Valid? ==> ValidatePasswordChange(raw).value == raw
  {
    NewPasswordSameRules(raw.newPassword);
  }

  // ---------------------------------------------------------------------------
  // Whole request bodies
  // ---------------------------------------------------------------------------

  /** An optional text with a `max_length`: None passes. */
  function CheckOptionalLength(v: Option<string>, max: nat): (r: Option<string>)
  {
    match v
    case None => None
    case Some(s) => CheckLength(s, 0, max)
  }

  /** The registration body. `email` is the `EmailStr` value, which the email
      validator checks and normalises. */
  datatype UserRegister = UserRegister(email: string, username: string, password: string, fullName: Option<string>)

  const EmailMessage: string := "value is not a valid email address"

  /** The error entry of one field, if it failed. */
  function ErrorOf<T>(field: string, r: Outcome<T>): seq<FieldError>
  {
    if r.Err? then [FieldError(field, r.detail)] else []
  }

  function ErrorOfLength(field: string, r: Option<string>): seq<FieldError>
  {
    if r.Some? then [FieldError(field, r.value)] else []
  }

  /** Validation of a registration body; `normalizeEmail` stands for the
      email validator (None for an address it rejects). */
  function ValidateRegister(raw: UserRegister, normalizeEmail: string -> Option<string>): (r: Validated<UserRegister>)
  {
    var email := normalizeEmail(raw.email);
    var username := ValidateUsername(raw.username);
    var password := ValidatePassword(raw.password);
    var fullName := CheckOptionalLength(raw.fullName, 100);
    var errors :=
      (if email.None? then [FieldError("email", EmailMessage)] else [])
      + ErrorOf("username", username)
      + ErrorOf("password", password)
      + ErrorOfLength("full_name", fullName);
    if errors == [] then
      Valid(UserRegister(email.value, username.value, password.value, raw.fullName))
    else
      Invalid(errors)
  }

  /** A registration body is accepted exactly when every field passes; one
      error is reported per failing field; the accepted body holds the
      lower-cased username and the password as given. */
  lemma ValidateRegisterSpec(raw: UserRegister, normalizeEmail: string -> Option<string>)
    ensures var r := ValidateRegister(raw, normalizeEmail);
            (r.Valid? <==>
              normalizeEmail(raw.email).Some? && ValidateUsername(raw.username).Ok?
              && ValidatePassword(raw.password).Ok?
              && (raw.fullName.Some? ==> |raw.fullName.value| <= 100))
            && (r.Valid? ==>
              r.value.username == Lower(raw.username) && r.value.password == raw.password
              && r.value.fullName == raw.fullName)
            && (r.Invalid? ==>
              |r.errors| == (if normalizeEmail(raw.email).None? then 1 else 0)
                           + (if ValidateUsername(raw.username).Err? then 1 else 0)
                           + (if ValidatePassword(raw.password).Err? then 1 else 0)
                           + (if raw.fullName.Some? && |raw.fullName.value| > 100 then 1 else 0))
  {
  }

  /** The profile-update body: both fields optional. */
  datatype UserUpdate = UserUpdate(fullName: Option<string>, username: Option<string>)

  /** `UserUpdate.username`: None passes through, a given name gets the
      registration bounds, pattern and lower-casing. */
  function ValidateUpdateUsername(v: Option<string>): (r: Outcome<Option<string>>)
  {
    match v
    case None => Ok(None)
    case Some(s) =>
      if |s| < 3 then Err(Unprocessable, TooShort(3))
      else if |s| > 50 then Err(Unprocessable, TooLong(50))
      else if !UsernamePattern(s) then Err(Unprocessable, ValueError(UsernameMessage))
      else Ok(Some(Lower(s)))
  }

  /** A None username passes unchanged; a given one obeys exactly the
      registration rule. */
  lemma ValidateUpdateUsernameSpec(v: Option<string>)
    ensures v.None? ==> ValidateUpdateUsername(v) == Ok(None)
    ensures v.Some? ==>
              (ValidateUpdateUsername(v).Ok? <==> ValidateUsername(v.value).Ok?)
              && (ValidateUpdateUsername(v).Ok? ==>
                    ValidateUpdateUsername(v).value == Some(ValidateUsername(v.value).value))
  {
  }

  /** `UserUpdate.username` as written: the same bounds, then the pattern as
      Python evaluates it, then `lower()`. */
  function ValidateUpdateUsernameAsWritten(v: Option<string>): (r: Outcome<Option<string>>)
  {
    match v
    case None => Ok(None)
    case Some(s) =>
      if |s| < 3 then Err(Unprocessable, TooShort(3))
      else if |s| > 50 then Err(Unprocessable, TooLong(50))
      else if !UsernamePatternAsWritten(s) then Err(Unprocessable, ValueError(UsernameMessage))
      else Ok(Some(Lower(s)))
  }

  /** The as-written update check stores a username that ends in a newline,
      which the intended check refuses. */
  lemma UpdateTrailingNewlineAccepted()
    ensures ValidateUpdateUsernameAsWritten(Some("abc\n")) == Ok(Some("abc\n"))
    ensures ValidateUpdateUsername(Some("abc\n")).Err?
  {
    assert UsernamePatternAsWritten("abc\n") by {
      assert ("abc\n")[..3] == "abc";
    }
    assert Lower("abc\n") == "abc\n" by {
      LowerFixed("abc\n");
    }
    assert !IsWordChar(("abc\n")[3]);
  }

  function ValidateUpdate(raw: UserUpdate): (r: Validated<UserUpdate>)
  {
    var fullName := CheckOptionalLength(raw.fullName, 100);
    var username := ValidateUpdateUsername(raw.username);
    var errors := ErrorOfLength("full_name", fullName) + ErrorOf("username", username);
    if errors == [] then Valid(UserUpdate(raw.fullName, username.value)) else Invalid(errors)
  }

  /** An update body with neither field set is always accepted as is; an
      accepted body keeps the full name and lower-cases a given username. */
  lemma ValidateUpdateSpec(raw: UserUpdate)
    ensures raw.fullName.None? && raw.username.None? ==> ValidateUpdate(raw) == Valid(raw)
    ensures ValidateUpdate(raw).Valid? ==>
              ValidateUpdate(raw).value.fullName == raw.fullName
              && (raw.username.None? ==> ValidateUpdate(raw).value.username.None?)
              && (raw.username.Some? ==> ValidateUpdate(raw).value.username == Some(Lower(raw.username.value)))
  {
  }

  // ---------------------------------------------------------------------------
  // API-key requests
  // ---------------------------------------------------------------------------

  /** The API-key body as sent: `scopes` and `expires_in_days` may be absent. */
  datatype ApiKeyRequest = ApiKeyRequest(name: string, scopes: Option<seq<string>>, expiresInDays: Option<int>)

  /** The validated `APIKeyCreate`. */
  datatype ApiKeyCreate = ApiKeyCreate(name: string, scopes: seq<string>, expiresInDays: Option<int>)

  const DefaultRequestScopes: seq<string> := ["read"]

  function CheckDays(d: Option<int>): (r: Option<string>)
  {
    match d
    case None => None
    case Some(n) =>
      if n < 1 then Some("Input should be greater than or equal to 1")
      else if n > 365 then Some("Input should be less than or equal to 365")
      else None
  }

  function ValidateApiKeyCreate(raw: ApiKeyRequest): (r: Validated<ApiKeyCreate>)
  {
    var name := CheckLength(raw.name, 1, 100);
    var days := CheckDays(raw.expiresInDays);
    var errors := ErrorOfLength("name", name) + ErrorOfLength("expires_in_days", days);
    if errors == [] then
      Valid(ApiKeyCreate(raw.name, if raw.scopes.Some? then raw.scopes.value else DefaultRequestScopes, raw.expiresInDays))
    else
      Invalid(errors)
  }

  /** An API-key request is accepted exactly when its name has 1 to 100
      characters and its lifetime is absent or 1 to 365 days; absent scopes
      become `["read"]`. */
  lemma ValidateApiKeyCreateSpec(raw: ApiKeyRequest)
    ensures ValidateApiKeyCreate(raw).Valid? <==>
              1 <= |raw.name| <= 100
              && (raw.expiresInDays.Some? ==> 1 <= raw.expiresInDays.value <= 365)
    ensures ValidateApiKeyCreate(raw).Valid? ==>
              var k := ValidateApiKeyCreate(raw).value;
              k.name == raw.name && k.expiresInDays == raw.expiresInDays
              && (raw.scopes.None? ==> k.scopes == ["read"])
              && (raw.scopes.Some? ==> k.scopes == raw.scopes.value)
  {
  }
}
