# FormForge core, modelled in Dafny

FormForge is a form-building API. This project models its core and proves
properties of that model:

- **Excel import.** The importer turns an uploaded workbook (a `Form` sheet
  and a `Fields` sheet) into a `FormSchemaCreate` payload, or into the list
  of error messages explaining why it cannot. Header columns are looked up
  case-insensitively. Rows are scanned until the first blank row. Errors are
  collected across rows and duplicate field ids are refused. Rules depend on
  the field type: select/radio need options, and a number field needs a min
  no greater than its max. The options cell is split on commas.
- **Request validators.** Usernames, passwords, password changes, profile
  updates and API-key requests.
- **API keys.** Validity of a key at a given instant.
- **Token and credential checks.** Payload construction for access and
  refresh tokens, `get_current_user`, `get_current_user_optional` and
  `require_role`.
- **The account service.** A class over the user and API-key tables:
  registration, login, token refresh, password change, profile update, and
  creating, listing and revoking API keys.
- **The repositories.** The form repository (lookup, insert, partial update,
  delete) and the submission repository (insert, and the per-form listing
  ordered by submission instant).

One Dafny module per file:

| file | module | models |
|---|---|---|
| wrappers.dfy | `Wrappers` | `Option`, and `Outcome` (a value, or an HTTP status with its detail) |
| strings.dfy | `Strings` | Python's `strip()` whitespace set, ASCII `lower()`/`upper()`, `split(",")`, `int()` on decimal text |
| schema.dfy | `Schema` | the importer's eight field types and the form payload datatypes |
| excel_import.dfy | `ExcelImport` | `parse_excel` and its sheet, row and options parsers |
| auth_schema.dfy | `AuthSchema` | the Pydantic request models and their validators |
| api_key.dfy | `ApiKeys` | the API-key row, `is_expired` and `is_valid` |
| query.dfy | `Query` | `filter(...).first()` and `filter(...).all()` over a table held as a sequence |
| accounts.dfy | `Accounts` | the user row, roles, password digests and user lookups |
| security.dfy | `Security` | token payloads and the authentication dependencies |
| auth_service.dfy | `AuthServices` | the `AuthService` class |
| form_repository.dfy | `FormRepositories` | the `FormRepository` class |
| submission_repository.dfy | `SubmissionRepositories` | the `SubmissionRepository` class |

**How the source's code is modelled.**

- The importer's parsing steps append to error and field lists and loop over
  rows. They are methods with loops, proved equal to specification
  functions: `FormSheet`, `FieldFromCells`, `ScanRows`, `FieldsSheet` and
  `Import`. The properties are proved about those functions as lemmas.
- A workbook is either unreadable or a map from sheet name to rows of
  `Option<string>` cells. Row `n` (1-based) past the end of a sheet reads
  as empty cells; one is enough, because such a row is non-empty and blank
  whatever its width, and every read of a cell is bounds-checked.
- The service and the repositories update rows in place, so they are
  classes whose fields are the tables. Their methods' postconditions state
  the whole new state, and the lemmas beside them connect the operations.
- Failures that the source raises as `HTTPException` or `ValueError` are
  `Err(status, detail)` values.

## Model

| member | source | states |
|---|---|---|
| Schema.LookupTypeSpec | app/application/services/excel_import_service.py:24-35 | a type name is accepted exactly when it is one of the eight allowed names, and it maps to the type of that name |
| Schema.LookupTypeName | app/application/services/excel_import_service.py:24-35 | every field type is found again under its own name |
| Strings.Strip | app/application/services/excel_import_service.py:302 | `strip()` yields the part of the input left after removing a whitespace prefix and a whitespace suffix; it has no whitespace at either end, and a trimmed text is returned unchanged |
| Strings.StripEmpty | app/application/services/excel_import_service.py:268 | a text strips to empty exactly when it is all whitespace |
| Strings.SplitSpec | app/application/services/excel_import_service.py:411 | the parts of `split(",")` contain no comma and joined with commas give back the input |
| Strings.SplitJoin | app/application/services/excel_import_service.py:411 | splitting comma-free parts joined with commas gives back those parts |
| Strings.LowerSpec | app/api/auth_schema.py:29 | `lower()` keeps the length, maps each character and leaves no upper-case letter |
| Strings.LowerIdempotent | app/api/auth_schema.py:29 | lower-casing twice is lower-casing once |
| Strings.ParseIntOfNat | app/core/security.py:168 | `int(str(id))` gives back the id, so the subject written into a token reads back as the user's id |
| ExcelImport.BlankCellStrip | app/application/services/excel_import_service.py:268 | a cell is blank exactly when it is None or strips to the empty text |
| ExcelImport.BlankPastEnd | app/application/services/excel_import_service.py:445-450 | a row that is not blank lies within the sheet |
| ExcelImport.IndexKeysSpec | app/application/services/excel_import_service.py:208 | a key is in the header map exactly when some column has it, and it maps to the last such column |
| ExcelImport.HeaderIndexSpec | app/application/services/excel_import_service.py:251 | a key is in the header map exactly when some non-empty header gives that key, and the map points at the last such column |
| ExcelImport.FormSheetSound | app/application/services/excel_import_service.py:195-235 | the Form sheet gives no error exactly when it yields a name; there is at most one error; a name and a description are non-empty and trimmed |
| ExcelImport.ParseFormSheet | app/application/services/excel_import_service.py:195-235 | the imperative parser returns exactly the data and errors of the Form sheet specification |
| ExcelImport.FormNameColumn | app/application/services/excel_import_service.py:218-222 | the name is the stripped cell of row 2 under the last `name` header, and then there is no error |
| ExcelImport.OptionsFromPartsWellFormed | app/application/services/excel_import_service.py:413-416 | every option built from comma-free parts is non-empty, trimmed, comma-free and has label equal to value |
| ExcelImport.ParseOptions | app/application/services/excel_import_service.py:408-418 | the options loop returns the options of the specification, each one well formed |
| ExcelImport.OptionsFromTokens | app/application/services/excel_import_service.py:413-416 | rebuilding options from their values gives back the same options |
| ExcelImport.OptionsRoundTrip | app/application/services/excel_import_service.py:408-418 | parsing well-formed options joined with ", " gives back the same options, in order |
| ExcelImport.RemoveUnderscoresSpec | app/application/services/excel_import_service.py:312 | removing underscores leaves nothing exactly when the id is all underscores, and leaves only letters and digits exactly when the id uses only letters, digits and underscores |
| ExcelImport.ValidIdCharsIff | app/application/services/excel_import_service.py:311-313 | an id passes the character check exactly when it has a character other than `_` and uses only letters, digits and underscores |
| ExcelImport.ReadCellsTrimmed | app/application/services/excel_import_service.py:297-303 | every value `get_value` returns is stripped |
| ExcelImport.FieldFromCellsTyped | app/application/services/excel_import_service.py:305-338 | once id, label and type pass, the id-character error is carried into the typed checks instead of stopping them |
| ExcelImport.CheckOptionsSound | app/application/services/excel_import_service.py:349-362 | a select/radio row without errors has at least one option, and every option is well formed |
| ExcelImport.FieldFromCellsSound | app/application/services/excel_import_service.py:305-406 | a row yields a field exactly when it has no errors; the field is accepted (trimmed id and label, valid id characters, options where required, min ≤ max), its id is unseen and is the row's id |
| ExcelImport.FieldRowSound | app/application/services/excel_import_service.py:287-406 | the same for a row read through the header map |
| ExcelImport.FieldValidations | app/application/services/excel_import_service.py:364-390 | an accepted number field has validations min, max and then required; any other field only has required; required is present exactly when the flag is TRUE/YES/1/DA |
| ExcelImport.TypeNameLower | app/application/services/excel_import_service.py:24-35 | every allowed type name is already lower case |
| ExcelImport.FieldCellsOptions | app/application/services/excel_import_service.py:349-362 | a field's options written as cells pass the options step unchanged and without errors |
| ExcelImport.FieldCellsFlag | app/application/services/excel_import_service.py:343-347 | the written `required` cell reads as set exactly when the field has the required validation |
| ExcelImport.FieldCellsRange | app/application/services/excel_import_service.py:364-386 | a number field's bounds written as cells read back as the same min and max validations |
| ExcelImport.ValidationsSplit | app/application/services/excel_import_service.py:367-390 | an accepted field's validations are its range part followed by its required part |
| ExcelImport.FieldCellsRoundTrip | app/application/services/excel_import_service.py:287-406 | every accepted field, written as a row, is parsed back to the same field with no errors |
| ExcelImport.OptionsColumn | app/application/services/excel_import_service.py:349-362 | the options step appends exactly the specification's errors and returns its options |
| ExcelImport.MinMaxColumns | app/application/services/excel_import_service.py:364-386 | the min/max step appends exactly the specification's errors and returns its validations |
| ExcelImport.ParseFieldRow | app/application/services/excel_import_service.py:287-406 | the imperative row parser returns exactly the field and errors of the row specification |
| ExcelImport.FieldRowParserSound | app/application/services/excel_import_service.py:287-406 | the row parser used by the scan is sound for every row and every set of seen ids |
| ExcelImport.ScanAdvance | app/application/services/excel_import_service.py:270-279 | one step of the scan: a row with errors adds its errors, an accepted row adds its field and its id to the seen set |
| ExcelImport.MissingColumnsSpec | app/application/services/excel_import_service.py:254-260 | there are no missing-column errors exactly when `id`, `label` and `type` are all headers, and each error names a column that is missing |
| ExcelImport.ScanRowsSound | app/application/services/excel_import_service.py:263-279 | the scanned fields have pairwise distinct ids, none of them already seen, and each is accepted |
| ExcelImport.FieldsSheetSound | app/application/services/excel_import_service.py:237-285 | the Fields sheet yields distinct, accepted fields; no field means at least one error; a missing required column yields only the missing-column errors and no field |
| ExcelImport.RowsAfterBlankIgnored | app/application/services/excel_import_service.py:264-269 | two sheets that agree up to the first blank row scan the same, so rows after it are never examined |
| ExcelImport.HeaderOnlySheet | app/application/services/excel_import_service.py:281-283 | a sheet with only a valid header row gives exactly "At least one field is required" |
| ExcelImport.ScanFieldRows | app/application/services/excel_import_service.py:263-279 | the `while` loop from row 2 returns exactly the fields and errors of the scan specification |
| ExcelImport.ParseFieldsSheet | app/application/services/excel_import_service.py:237-285 | the imperative Fields-sheet parser returns exactly the fields and errors of its specification |
| ExcelImport.ImportSound | app/application/services/excel_import_service.py:142-193 | success exactly when there are no errors and exactly when there is a form; a form has a trimmed non-empty name, at least one field, distinct accepted fields and no rules |
| ExcelImport.ParseSheets | app/application/services/excel_import_service.py:171-193 | with both sheets present, the result is the specification's, and success exactly when no error was collected |
| ExcelImport.ParseExcel | app/application/services/excel_import_service.py:142-193 | `parse_excel` returns the specification's success flag, form and messages (one "Invalid Excel file" error, one error per missing sheet) and succeeds exactly when it reports no error |
| AuthSchema.CheckLengthSpec | app/api/auth_schema.py:19-21 | a length bound passes exactly when the length lies within it |
| AuthSchema.TrailingNewlineAccepted | app/api/auth_schema.py:27 | the username check as written accepts `"abc\n"`, which the intended pattern refuses |
| AuthSchema.AsWrittenDiffersOnlyByNewline | app/api/auth_schema.py:27-29 | the written and the intended username checks differ only on inputs ending in a newline |
| AuthSchema.ValidateUsernameSpec | app/api/auth_schema.py:19-29 | a username is accepted exactly when it has 3 to 50 letters, digits or underscores; the stored value is its lower-case form, of the same length, with no upper-case letter |
| AuthSchema.ValidateUsernameIdempotent | app/api/auth_schema.py:23-29 | re-validating an accepted username gives the same result |
| AuthSchema.ValidatePasswordSpec | app/api/auth_schema.py:20-41 | a password is accepted exactly when it has 8 to 100 characters with an upper-case letter, a lower-case letter and a digit, and it is returned unchanged |
| AuthSchema.PasswordFirstMissingClass | app/api/auth_schema.py:35-40 | the classes are checked upper, lower, digit, and the first missing one gives the error |
| AuthSchema.NewPasswordSameRules | app/api/auth_schema.py:58-70 | the new-password validator is the registration password validator |
| AuthSchema.ValidatePasswordChangeSpec | app/api/auth_schema.py:55-70 | a password change is valid exactly when its new password is, and is kept as sent |
| AuthSchema.ValidateRegisterSpec | app/api/auth_schema.py:16-41 | a registration is valid exactly when email, username, password and full name each pass; the username is lower-cased; an invalid body reports one error per failing field |
| AuthSchema.ValidateUpdateUsernameSpec | app/api/auth_schema.py:76-85 | an absent username passes through, a present one follows the registration rule and is lower-cased |
| AuthSchema.UpdateTrailingNewlineAccepted | app/api/auth_schema.py:82-84 | the update check as written accepts `"abc\n"` and stores it unchanged, where the intended check refuses it |
| AuthSchema.ValidateUpdateSpec | app/api/auth_schema.py:73-85 | an empty update is valid as sent; a valid update keeps the full name and lower-cases a given username |
| AuthSchema.ValidateApiKeyCreateSpec | app/api/auth_schema.py:138-142 | a key request is valid exactly when the name has 1 to 100 characters and the day count is absent or 1 to 365; scopes default to `["read"]` |
| ApiKeys.NewKey | app/domain/models/api_key.py:20-28 | a new key is active and unused, created now, and has scopes `["read"]` unless given |
| ApiKeys.NoDeadlineNeverExpires | app/domain/models/api_key.py:37-40 | a key without an expiry instant is never expired |
| ApiKeys.ExpiredExactly | app/domain/models/api_key.py:41 | a key is expired exactly when now is strictly after its expiry instant, so not at that instant |
| ApiKeys.ValidIff | app/domain/models/api_key.py:43-46 | a key is valid exactly when it is active and not past its deadline |
| ApiKeys.RevokedInvalid | app/domain/models/api_key.py:46 | an inactive key is invalid at every instant |
| ApiKeys.ExpiryMonotone | app/domain/models/api_key.py:41 | once expired a key stays expired, and a key valid at some instant was valid at every earlier one |
| ApiKeys.KeyById | app/application/services/auth_service.py:340 | the lookup finds a key with that id, the first one, or reports that there is none |
| Accounts.VerifyHash | app/core/security.py:34-41 | a digest verifies the password it was made from and no other |
| Accounts.UserById | app/core/security.py:168 | the lookup finds the first user with that id, or reports that no user has it |
| Accounts.UserByEmail | app/application/services/auth_service.py:55-57 | the lookup finds the first user with that email, or reports that no user has it |
| Accounts.UserByUsername | app/application/services/auth_service.py:65-67 | the lookup finds the first user with that username, or reports that no user has it |
| Accounts.OtherWithUsername | app/application/services/auth_service.py:254-257 | the lookup finds a user with that username and a different id, or reports that there is none |
| Accounts.UserByIdFinds | app/domain/models/user.py:21 | with unique ids, a stored user is found by its id |
| Accounts.UserByEmailFinds | app/domain/models/user.py:22 | with unique emails, a stored user is found by its email |
| Security.AccessPayload | app/core/security.py:48-77 | the access payload is the caller's claims plus `exp`, `type` = "access" and `iat`; `exp` is now plus the given delta, or plus the default minutes when none (or a zero one) is given |
| Security.RefreshPayload | app/core/security.py:80-104 | the refresh payload is the caller's claims plus `type` = "refresh", `iat` and `exp` = now plus the refresh days |
| Security.GetCurrentUserTokenChecks | app/core/security.py:153-165 | a token that does not decode, is not an access token or has no subject gives 401 "Could not validate credentials" |
| Security.RefreshTokenRejected | app/core/security.py:157-158 | every refresh token is refused by `get_current_user` with 401 |
| Security.GetCurrentUserLookup | app/core/security.py:167-179 | after the token checks: 401 exactly when no user has the id, 400 exactly when the user found is inactive, otherwise that stored active user |
| Security.IssuedAccessTokenAuthenticates | app/core/security.py:131-179 | an access token issued for an active stored user authenticates as that user |
| Security.OptionalAgreesWithStrict | app/core/security.py:226-258 | the optional dependency returns the user exactly when the strict one does, returns None where the strict one refuses, and fails only where the strict one fails with a server error |
| Security.OptionalWithoutCredentials | app/core/security.py:237-238 | without credentials the optional dependency returns None |
| Security.RequireRoleSpec | app/core/security.py:197-219 | a user passes exactly when their role is allowed; otherwise 403 "Insufficient permissions"; an authentication failure passes through unchanged |
| AuthServices.NewUser | app/application/services/auth_service.py:75-84 | a registered user is active, unverified, a form creator, never logged in, and their password verifies against the stored digest |
| AuthServices.LoginCheckSpec | app/application/services/auth_service.py:116-129 | unknown email and wrong password give the same 401; a right password on an inactive account gives 400; otherwise the user found by email |
| AuthServices.LoginUserAsWritten | app/application/services/auth_service.py:116 | as written, every login fails with a server error, because the request body has no `email` |
| AuthServices.LoginAsWrittenRefusesValidCredentials | app/application/services/auth_service.py:116-145 | credentials that the intended login accepts are refused as written |
| AuthServices.ExpiryOf | app/application/services/auth_service.py:295-297 | no day count means no expiry; a non-zero count means now plus that many days |
| AuthServices.NewKeyLifetime | app/application/services/auth_service.py:292-305 | a new key is valid when created; without a day count it stays valid; with one it is valid exactly up to its deadline |
| AuthServices.AuthService.RegisterUser | app/application/services/auth_service.py:41-99 | email is checked before username and a duplicate of either gives 400 and adds nobody; otherwise exactly one new user is appended and receives tokens; uniqueness is kept |
| AuthServices.AuthService.LoginUser | app/application/services/auth_service.py:101-145 | fails as `LoginCheck` says and changes nothing; otherwise sets only that user's last login and returns their tokens |
| AuthServices.AuthService.RefreshAccessToken | app/application/services/auth_service.py:147-195 | every failure is the single 401 "Invalid or expired refresh token"; success needs a refresh token whose subject is a stored active user, and issues that user's tokens |
| AuthServices.AuthService.ChangePassword | app/application/services/auth_service.py:201-230 | a wrong old password gives 400 and changes nothing; otherwise only that user's digest is replaced |
| AuthServices.AuthService.UpdateProfile | app/application/services/auth_service.py:232-270 | a username held by another user gives 400 and changes nothing; otherwise absent arguments keep their fields and given ones replace them |
| AuthServices.AuthService.CreateApiKey | app/application/services/auth_service.py:276-317 | appends one key owned by the caller, starting with `ff_`, with no expiry when no day count is given, and returns its id, key, name, scopes and expiry |
| AuthServices.AuthService.ListApiKeys | app/application/services/auth_service.py:319-323 | the listing holds exactly the caller's keys, each as many times as it is stored, and no key of another user |
| AuthServices.AuthService.RevokeApiKey | app/application/services/auth_service.py:325-357 | a missing key gives 404, checked before 403 for another user's key; otherwise only that key becomes inactive, and it is then invalid at every instant |
| AuthServices.IssuedRefreshTokenRefreshes | app/application/services/auth_service.py:147-189 | a refresh token issued for an active user refreshes to that user's new tokens, and the access token of the same pair does not |
| AuthServices.RegisteredUserLogsIn | app/application/services/auth_service.py:75-132 | a user just registered logs in with the email and password they registered with |
| AuthServices.ChangedPasswordLogsIn | app/application/services/auth_service.py:221-228 | after a password change the new password logs in and any other password is refused with 401 |
| AuthServices.OwnUsernameIsFree | app/application/services/auth_service.py:254-257 | a user's own username never counts as taken by someone else |
| FormRepositories.ApplyUpdateItems | app/infrastructure/repositories/form_repository.py:28-30 | setting the dumped items one by one overwrites name and fields, and description and rules only when the payload set them |
| FormRepositories.OverwriteKeeps | app/infrastructure/repositories/form_repository.py:28-30 | unset optional attributes keep their stored values, the id never changes, and sending the stored values changes nothing |
| FormRepositories.FormIndex | app/infrastructure/repositories/form_repository.py:12 | the lookup finds the first form with that id, or reports that there is none |
| FormRepositories.FormIndexFinds | app/domain/models/form.py:8 | with unique ids, a stored form is found by its id |
| FormRepositories.ReplaceKeepsOthers | app/infrastructure/repositories/form_repository.py:24-34 | replacing a form in place keeps ids unique and leaves every other id finding the same position |
| FormRepositories.RemoveKeepsOthers | app/infrastructure/repositories/form_repository.py:36-42 | removing a form makes its id unknown and leaves every other id finding the same form |
| FormRepositories.FormRepository.GetById | app/infrastructure/repositories/form_repository.py:11-12 | returns a stored form with that id, or None exactly when no stored form has it |
| FormRepositories.FormRepository.GetAll | app/infrastructure/repositories/form_repository.py:14-15 | returns exactly the stored forms |
| FormRepositories.FormRepository.Create | app/infrastructure/repositories/form_repository.py:17-22 | appends a form built from the whole payload under a fresh id and finds it by that id afterwards |
| FormRepositories.FormRepository.Update | app/infrastructure/repositories/form_repository.py:24-34 | an unknown id gives None and no change; otherwise the stored form is overwritten in the attributes the payload set, returned, and every other id is unaffected |
| FormRepositories.FormRepository.Delete | app/infrastructure/repositories/form_repository.py:36-42 | an unknown id gives None and no change; otherwise exactly that form is removed and returned, its id then finds nothing and every other id finds the same form |
| SubmissionRepositories.SortSpec | app/infrastructure/repositories/submission_repository.py:26 | the ordering is sorted by submission instant and a permutation of its input |
| SubmissionRepositories.GetByFormIdSpec | app/infrastructure/repositories/submission_repository.py:23-27 | the listing holds only that form's submissions, each stored one as often as stored, ordered by instant |
| SubmissionRepositories.SubmissionRepository.Create | app/infrastructure/repositories/submission_repository.py:11-21 | appends one submission with exactly the given form id and answers, without looking up the form; that form's count grows by one and every other form's listing is unchanged |
| SubmissionRepositories.SubmissionRepository.ListForForm | app/infrastructure/repositories/submission_repository.py:23-27 | `get_by_form_id` on the current table: only that form's submissions, all of them, ordered by instant |

## Left out

- Workbook loading: reading the bytes with openpyxl is not modelled. A file is either `Unreadable(message)` or a readable workbook whose cells are already text, so the `str()` coercion of numbers, dates and booleans is not modelled.
- `float()` of min/max is the parameter `num: string -> Option<real>`. It is an abstract partial parse; IEEE floats, NaN and infinities are not modelled.
- Template generation (`generate_template` and the styling helpers) writes an openpyxl binary stream. It is not modelled; `FieldCells` states what a row describing a field contains.
- The `theme` argument the importer passes to `FormSchemaCreate` is not modelled. app/api/form_schema.py is not part of this model, and the payload here has the shape of app/schemas/form_schema.py:77-81.
- Character classes are ASCII: `isalnum()`, `lower()`, `upper()` and the regular expressions' `\d` match Unicode letters and digits in Python, and the model does not.
- `EmailStr` validation is the parameter `normalizeEmail` of `ValidateRegister`.
- Password hashing is an ideal digest: a one-to-one function of the whole password. bcrypt's salt and cost are not modelled.
- Accounts.VerifyHash: "no other password" holds only for the ideal digest. bcrypt through passlib (app/core/security.py:24) reads only the first 72 UTF-8 bytes of a password, so two passwords of 8 to 100 characters that agree on those bytes verify against each other's hash; bcrypt 5 raises `ValueError` on a longer password instead.
- AuthServices.ChangedPasswordLogsIn: the refusal of every other password holds only for the ideal digest, for the same 72-byte reason.
- AuthServices.AuthService.RegisterUser: passlib's bcrypt refuses a password containing a NUL character, which the validator allows, so `get_password_hash` (app/core/security.py:39-41) raises and registration ends in a server error (500); with bcrypt 5 a password longer than 72 UTF-8 bytes does too. `change_password` fails the same way at app/application/services/auth_service.py:227. The model hashes every password, so it registers the user and changes the password.
- JWT encoding, signing and decoding are not modelled. A token is its decoded claims; a token that does not decode or has expired is `None`.
- The clock (`datetime.utcnow`) is an integer parameter. For users, tokens and API keys it counts whole seconds, so comparisons within one second are not modelled; for submissions it counts the clock's smallest unit (microseconds) and serves only for ordering. `token_urlsafe(32)` is the `token` parameter of `CreateApiKey`. The token lifetimes are `TokenSettings` fields. The model assumes that the settings provide `SECRET_KEY`, `ALGORITHM`, `ACCESS_TOKEN_EXPIRE_MINUTES` and `REFRESH_TOKEN_EXPIRE_DAYS`. app/core/config.py:6-33 declares none of them and ignores extra settings, so as shipped every read of them at app/core/security.py:64, 74-75, 91, 101-102 and 122-123 raises `AttributeError`; token signing and decoding are not modelled, and the model takes the two lifetimes as given.
- `int()` of a claim covers optional surrounding whitespace, a sign and ASCII digits; underscores and Unicode digits are not modelled. A subject that does not parse escapes as a server error (500) in both dependencies, since only `JWTError` is caught.
- `get_current_active_user` (app/core/security.py:182-194) repeats the inactive check that `get_current_user` has already made, so it is not modelled separately.
- Database sessions, commits, refreshes and rollbacks are not modelled. Tables are sequences in insertion order, and ids come from counters. `updated_at` and `last_used_at` are not maintained; nothing in this core sets them.
- The uniqueness of API-key strings is not modelled: the random part is a parameter.
- SQL gives no order to submissions with the same instant. The model sorts stably, which is one of the orders the database may return.
- `FormRepository` does not define the abstract `get_by_owner` (app/application/interfaces/form_repository.py:16-19), and its `create` has no `owner_id` argument (line 22). Python therefore refuses to instantiate the class. The model describes what the class's methods do when called.
- FormRepositories.FormRepository.Delete: removes the form whatever submissions refer to it. In the source `Form.submissions` (app/domain/models/form.py:14) has no delete cascade, so deleting a form that has submissions makes the ORM set their `form_id` to NULL, which app/domain/models/submission.py:14 forbids; the commit (app/infrastructure/repositories/form_repository.py:41) raises `IntegrityError`, the request ends in a server error (500), and nothing is deleted. The model removes the form regardless.
- SubmissionRepositories.SubmissionRepository.Create: stores any form id. `form_id` is a foreign key to `forms.id` (app/domain/models/submission.py:14), so a database that enforces foreign keys refuses, at the commit, a submission whose form does not exist; the model stores it.
- `FormRepository.delete` returns the deleted form, but the interface says it returns a boolean (app/application/interfaces/form_repository.py:30-31). The model follows the implementation.
- The `rules` column default (app/domain/models/form.py:12) is never used, because `create` always passes `rules`.
- The caller's claims dict is not changed by token creation (app/core/security.py:59). This holds trivially in the model, because the claims are values.
- `OptionsColumn`, `MinMaxColumns`, `ScanFieldRows` and `ParseSheets` are steps of `_parse_field_row`, `_parse_fields_sheet` and `parse_excel`, written as separate methods. They are not separate functions in the source.
- AuthServices.AuthService.ChangePassword: requires the user to be stored, because its caller always obtains the user from `get_current_user`, which returns only stored users.
- AuthServices.AuthService.UpdateProfile: requires the user to be stored, for the same reason. When the username is taken, the full name set on the session object is never committed, so the model leaves the table unchanged.
- AuthServices.AuthService.LoginUser: takes the email as an explicit argument; the source reads it from a field the request body does not have (see Findings).

## Findings

| source | as written | input that shows it | evidently intended | confidence | as-written member | corrected member |
|---|---|---|---|---|---|---|
| app/api/auth_schema.py:27 | `re.match(r"^[a-zA-Z0-9_]+$", v)`: in Python `$` also matches just before a final newline | registration username `"abc\n"` is accepted and stored with its newline | only letters, digits and underscores | high (not executed) | AuthSchema.TrailingNewlineAccepted | AuthSchema.ValidateUsernameSpec |
| app/api/auth_schema.py:82 | the same pattern in the `UserUpdate` validator | profile-update username `"abc\n"` is accepted and stored with its newline | only letters, digits and underscores | high (not executed) | AuthSchema.UpdateTrailingNewlineAccepted | AuthSchema.ValidateUpdateUsernameSpec |
| app/application/services/auth_service.py:116 | `login_user` reads `login_data.email`, but `UserLogin` declares only `login` and `password` (app/api/auth_schema.py:44-47) | any login, including a registered active user with the right password | look the user up by the submitted email | high (not executed) | AuthServices.LoginAsWrittenRefusesValidCredentials | AuthServices.LoginCheckSpec |
