# Registration and order ownership for a Strapi shop back end

This project models, in Dafny, the two pieces of behaviour the shop back end
adds on top of Strapi:

- the `register` action that replaces the one of the users-permissions plugin
  (`src/extensions/users-permissions/strapi-server.ts`): a strict chain of
  gates (registration switch, phone presence, phone format, field allow-list,
  the register schema, the default role, two duplicate-identifier look-ups),
  then the account record, its storage and the response, with or without a
  confirmation e-mail;
- the request schemas of `src/extensions/users-permissions/validation/auth.ts`
  (callback, register, e-mail confirmation, forgot, reset and change password),
  including the 72-byte UTF-8 password limit and the optional
  `validatePassword` hook;
- the order controller's `create` (`src/api/order/controllers/order.ts`),
  which stamps the caller's id onto the order data in place and calls the
  order service once.

Files and modules:

| file | module | contents |
|---|---|---|
| `wrappers.dfy` | `Wrappers` | `Option`, `Result` |
| `js_strings.dfy` | `JsStrings` | JavaScript strings as code-point sequences (lone surrogates included), `toLowerCase`, `\s`, `join` |
| `js_objects.dfy` | `JsObjects` | JSON values, objects as ordered property lists, property read and assignment, `filter` on keys |
| `utf8.dfy` | `Utf8` | what `TextEncoder` produces, its byte length and a decoder it round-trips with |
| `auth_validation.dfy` | `AuthValidation` | the yup schemas as functions from a body to the list of validation errors |
| `registration.dfy` | `Registration` | the phone pattern, the allow-list, `_.pick`, the gates (`Admit`, `Gate`), the class `UsersPermissions` with `AddUser` and `Register` |
| `orders.dfy` | `Orders` | the owner stamp, the order data and order service classes, the controller's `Create` |

How the registration chain is split. `Admit` is every gate that does not read
the user table (lines 30-80); `Gate` adds the two duplicate checks (lines
85-106) and builds the record of lines 108-115. The class `UsersPermissions`
holds the plugin settings, the registration configuration, the password rules,
the role table and the user table; its method `Register` performs the request
against its own user table, appends the new account through `AddUser` and
returns the response, and its postcondition ties the outcome and the new table
to `Gate` applied to the table as it was. The lemmas about `Gate`
(`SecondRegistrationTaken`, `UniqueEmailSpansProviders`, `GateRecord`) are
therefore statements about consecutive calls of `Register`.

Behaviour of the code worth knowing:

- The phone pattern has no anchors and its separators are `\s`, so any text
  containing `+D DDD DDD DD DD` passes, with tabs or other JavaScript
  whitespace between the groups (`PhoneSurroundingText`, `PhoneExamples`).
- `phone` is required before the allow-list but is not one of the keys
  always allowed. A registration can only succeed when the configuration's
  `allowedFields` lists `phone` (`AdmitNeedsPhoneAllowListed`); with an empty
  `allowedFields` every request that passes the phone gates is refused at the allow-list
  with `phone` among the reported keys.
- The duplicate look-up asks for exact matches: the lowercased e-mail against the
  stored e-mail and username, and the username as sent against the stored
  username and e-mail. A second registration is refused when its lowercased
  e-mail or its username matches the stored account (`SecondRegistrationTaken`).

Collaborators the code calls and this model does not look into are parameters:
the e-mail format test of yup (`isEmail`), the `validatePassword` hook
(`PasswordRules`, returning a truthiness or a thrown message), output
sanitisation, the user store's own acceptance of a record, JWT issuing and
sending the confirmation e-mail (`Services`).

## Model

| member | source | states |
|---|---|---|
| JsStrings.Lower | src/extensions/users-permissions/strapi-server.ts:86 | `toLowerCase` keeps the length and maps each code point on its own, A-Z to a-z |
| JsStrings.IsJsWhitespace | src/extensions/users-permissions/strapi-server.ts:18 | the `\s` class never accepts a digit or `+`, so separators cannot stand in for the number's own characters |
| JsStrings.Join | src/extensions/users-permissions/strapi-server.ts:61 | `join` of one key is that key, of none the empty string, and otherwise starts with the first key and the separator |
| JsStrings.JoinSnoc | src/extensions/users-permissions/strapi-server.ts:61 | appending a part to a non-empty list appends the separator and that part, so every part appears, in order |
| JsObjects.Truthy | src/extensions/users-permissions/strapi-server.ts:39 | the falsy values are exactly the empty string, 0, `false` and `null` |
| JsStrings.LowerIdempotent | src/extensions/users-permissions/strapi-server.ts:111 | lowercasing an already lowercased e-mail changes nothing |
| JsObjects.Keys | src/extensions/users-permissions/strapi-server.ts:57 | `Object.keys` lists one key per property, in the object's property order |
| JsObjects.Lookup | src/extensions/users-permissions/strapi-server.ts:37 | a property read finds a value exactly when the object has the key |
| JsObjects.Assign | src/api/order/controllers/order.ts:16 | after `o[k] = v`, `k` reads `v` and every other key reads what it read before |
| JsObjects.AssignKeys | src/api/order/controllers/order.ts:16 | an assigned key keeps its place when present and goes last when new; no other key moves |
| JsObjects.AssignWellFormed | src/extensions/users-permissions/strapi-server.ts:64-67 | assignment never duplicates a key |
| JsObjects.KeysOutside | src/extensions/users-permissions/strapi-server.ts:57 | the key filter keeps exactly the keys outside the known set, in their order |
| JsObjects.SubsequenceMembers | src/extensions/users-permissions/strapi-server.ts:57 | an order-preserving selection of the keys only holds keys of the body |
| JsObjects.KeysOutsideUnique | src/extensions/users-permissions/strapi-server.ts:57 | over distinct keys, the filter is the only ordered list of exactly the offending keys, each once |
| Utf8.Width | src/extensions/users-permissions/validation/auth.ts:17 | a code point takes 1 byte below U+0080, 2 exactly from U+0080 to U+07FF, 4 from U+10000, and 3 otherwise |
| Utf8.EncodeCodePoint | src/extensions/users-permissions/validation/auth.ts:17 | one code point encodes to a lead byte announcing its width followed by continuation bytes |
| Utf8.EncodeCodePointRoundTrip | src/extensions/users-permissions/validation/auth.ts:17 | decoding one encoded code point gives it back, a lone surrogate as U+FFFD |
| Utf8.EncodeRoundTrip | src/extensions/users-permissions/validation/auth.ts:17 | decoding `TextEncoder`'s output gives the string back with lone surrogates replaced by U+FFFD |
| Utf8.Encode | src/extensions/users-permissions/validation/auth.ts:17 | the number of bytes `TextEncoder` produces is the sum of the per-code-point widths |
| Utf8.ByteLength | src/extensions/users-permissions/validation/auth.ts:17 | a string of n code points encodes to between n and 4n bytes |
| Utf8.ByteLengthAppend | src/extensions/users-permissions/validation/auth.ts:17 | byte length adds up over concatenation |
| Utf8.AsciiByteLength | src/extensions/users-permissions/validation/auth.ts:17 | an ASCII string takes one byte per character |
| Utf8.TwoByteLength | src/extensions/users-permissions/validation/auth.ts:17 | a string of code points from U+0080 to U+07FF takes two bytes per character |
| AuthValidation.ByteLengthTest | src/extensions/users-permissions/validation/auth.ts:15-22 | an absent or empty password passes; otherwise it passes iff it encodes to at most 72 bytes, else the one error 'Password must be less than 73 bytes' |
| AuthValidation.AsciiPasswordLimit | src/extensions/users-permissions/validation/auth.ts:15-22 | an ASCII password passes the byte test iff it has at most 72 characters |
| AuthValidation.TwoBytePasswordLimit | src/extensions/users-permissions/validation/auth.ts:15-22 | a password of two-byte characters (Cyrillic, Greek, accented Latin) passes the byte test iff it has at most 36 characters |
| AuthValidation.ValidatePasswordTest | src/extensions/users-permissions/validation/auth.ts:23-37 | passes iff no hook is configured or the hook returns a truthy value; a falsy result gives 'Password validation failed.', a throw gives its message or 'An error occurred.' |
| AuthValidation.StringField | src/extensions/users-permissions/validation/auth.ts:4-5 | a non-string value gives only a type error; a field passes iff it is a non-empty string and its tests pass; a missing one is reported |
| AuthValidation.EmailField | src/extensions/users-permissions/validation/auth.ts:10 | passes iff a non-empty string the e-mail test accepts; a filled malformed one gives only the e-mail error |
| AuthValidation.PasswordField | src/extensions/users-permissions/validation/auth.ts:12-37 | passes iff the password is filled, at most 72 bytes and accepted by the hook; too long always reports the byte error; absent or empty reports `required` and not the byte error |
| AuthValidation.PasswordConfirmationField | src/extensions/users-permissions/validation/auth.ts:84-87 | a confirmation present and different from the password reports 'Passwords do not match'; passes iff filled and equal to the password |
| AuthValidation.NoUnknown | src/extensions/users-permissions/validation/auth.ts:52 | passes iff every key is declared; otherwise one error listing the undeclared keys in body order |
| AuthValidation.CallbackErrors | src/extensions/users-permissions/validation/auth.ts:3-6 | passes iff `identifier` and `password` are non-empty strings; each missing one is reported |
| AuthValidation.RegisterErrors | src/extensions/users-permissions/validation/auth.ts:8-38 | passes iff a well-formed e-mail, a non-empty username and an accepted password are given |
| AuthValidation.SendEmailConfirmationErrors | src/extensions/users-permissions/validation/auth.ts:40-42 | passes iff a well-formed e-mail is given |
| AuthValidation.EmailConfirmationErrors | src/extensions/users-permissions/validation/auth.ts:44-46 | passes iff a non-empty `confirmation` is given |
| AuthValidation.ForgotPasswordErrors | src/extensions/users-permissions/validation/auth.ts:48-52 | passes iff the only key is `email` and it is well-formed; extra keys are reported |
| AuthValidation.ResetPasswordErrors | src/extensions/users-permissions/validation/auth.ts:54-91 | passes iff only declared keys, an accepted password, an equal confirmation and a code; mismatch, unknown keys and a missing code are reported |
| AuthValidation.ChangePasswordErrors | src/extensions/users-permissions/validation/auth.ts:93-129 | passes iff only declared keys, an accepted password, an equal confirmation and the current password; mismatch, unknown keys and a missing current password are reported |
| AuthValidation.PasswordRuleShared | src/extensions/users-permissions/validation/auth.ts:54-129 | a password the register schema accepts is accepted by the reset and change schemas under the same configuration, once confirmed |
| Registration.SearchFrom | src/extensions/users-permissions/strapi-server.ts:18 | the search from position i succeeds iff the pattern matches at some position at or after i |
| Registration.PhoneTest | src/extensions/users-permissions/strapi-server.ts:43 | `phoneRegex.test` succeeds iff the 16-character pattern matches somewhere in the string |
| Registration.PhoneSurroundingText | src/extensions/users-permissions/strapi-server.ts:18 | text before and after a well-formed number does not make the test fail |
| Registration.PhoneExamples | src/extensions/users-permissions/strapi-server.ts:18 | `+1 234 567 89 01` and its tab-separated form pass; `+12345678901` fails |
| Registration.Compact | src/extensions/users-permissions/strapi-server.ts:52-54 | `compact` keeps exactly the truthy entries, in order |
| Registration.CompactCounts | src/extensions/users-permissions/strapi-server.ts:52-54 | each truthy entry is kept as many times as it occurs, no falsy entry is kept |
| Registration.AllowedKeys | src/extensions/users-permissions/strapi-server.ts:49-54 | an entry is allowed iff it is truthy and is one of the three fixed keys or is listed in an array `allowedFields` |
| Registration.AllowedKeysStartWithDefaults | src/extensions/users-permissions/strapi-server.ts:49-54 | `username`, `password`, `email` come first, in that order |
| Registration.AllowedNames | src/extensions/users-permissions/strapi-server.ts:57 | `includes` accepts a key iff the allowed list holds that string |
| Registration.InvalidKeys | src/extensions/users-permissions/strapi-server.ts:57 | the offending keys are exactly the body keys not allowed, in body order |
| Registration.PhoneMustBeAllowListed | src/extensions/users-permissions/strapi-server.ts:37-62 | a body carrying `phone` has `phone` among the offending keys unless `allowedFields` lists it |
| Registration.InvalidParametersMessage | src/extensions/users-permissions/strapi-server.ts:61 | the message starts with 'Invalid parameters: ' and, for one key, ends with that key |
| Registration.InvalidParametersMessageSnoc | src/extensions/users-permissions/strapi-server.ts:61 | one more offending key adds `, ` and that key to the message, so every offending key is listed in order |
| Registration.PhoneOnlyMessage | src/extensions/users-permissions/strapi-server.ts:59-62 | a request that passes the phone gates and whose only offending key is `phone` is refused at the allow-list with the validation error 'Invalid parameters: phone' |
| Registration.PickInto | src/extensions/users-permissions/strapi-server.ts:65 | picking copies each listed key the body has and leaves every other key as it was |
| Registration.Pick | src/extensions/users-permissions/strapi-server.ts:65 | `_.pick` holds a key iff it is allowed and in the body, with the body's value |
| Registration.PickKeepsAllowedBody | src/extensions/users-permissions/strapi-server.ts:57-65 | when no key is offending, picking keeps the whole body |
| Registration.Params | src/extensions/users-permissions/strapi-server.ts:64-67 | the parameters carry `provider: 'local'` whatever the body says, and otherwise mirror an allowed body |
| Registration.FindRole | src/extensions/users-permissions/strapi-server.ts:73-80 | a role is found only with the requested type; none is found iff no role has that type |
| Registration.Conflicts | src/extensions/users-permissions/strapi-server.ts:85-87 | a row can only match the identifier filter through a stored `email` or `username` |
| Registration.ConflictsIgnoreEmailCase | src/extensions/users-permissions/strapi-server.ts:86 | two e-mails equal once lowercased match the same rows |
| Registration.CountConflicts | src/extensions/users-permissions/strapi-server.ts:85-91 | the count is positive iff some row in scope matches the identifier filter |
| Registration.PhoneGiven | src/extensions/users-permissions/strapi-server.ts:37-41 | a phone counts as given only when the body has the key `phone` |
| Registration.PhoneWellFormed | src/extensions/users-permissions/strapi-server.ts:43-45 | a phone that passes the pattern is a given phone |
| Registration.Thrown | src/extensions/users-permissions/strapi-server.ts:34-127 | validation errors for the phone and the allow-list, the schema's own error for the schema, the store's error passed on for a refused record, application errors for the rest |
| Registration.Admit | src/extensions/users-permissions/strapi-server.ts:30-80 | the first gates in order: disabled, then phone missing, then phone malformed iff the phone is given and fails the pattern |
| Registration.AdmitGates | src/extensions/users-permissions/strapi-server.ts:49-80 | the allow-list reports the offending keys, the schema its errors on the parameters, then the default role must exist; an admitted request has only allowed keys and passes the schema |
| Registration.AdmitLaterGates | src/extensions/users-permissions/strapi-server.ts:49-80 | once the phone gates pass, offending keys are all reported; with none, the schema's errors are; with neither, the request is admitted iff the default role exists, else 'Impossible to find the default role' |
| Registration.AdmittedFields | src/extensions/users-permissions/strapi-server.ts:64-83 | an admitted request's e-mail, username and password come straight from the body and satisfy the register schema |
| Registration.AdmitNeedsPhoneAllowListed | src/extensions/users-permissions/strapi-server.ts:37-62 | no request is admitted unless `allowedFields` lists `phone` |
| Registration.NewUser | src/extensions/users-permissions/strapi-server.ts:108-115 | the record has the default role, the lowercased e-mail, the username, `confirmed` opposite to `email_confirmation`, other parameters unchanged |
| Registration.Gate | src/extensions/users-permissions/strapi-server.ts:30-117 | early failures pass through; a duplicate refusal has a conflicting row (local, or any with `unique_email`); success means no such row |
| Registration.GateRecord | src/extensions/users-permissions/strapi-server.ts:108-115 | the stored record is the body with `provider` 'local', the lowercased e-mail, the default role and `confirmed` |
| Registration.NewUserFromParams | src/extensions/users-permissions/strapi-server.ts:108-115 | built from parameters that mirror the body, the record keeps the body's fields apart from the ones it sets |
| Registration.GateDecision | src/extensions/users-permissions/strapi-server.ts:85-106 | once admitted, a request is refused iff a local row, or with `unique_email` any row, matches; the refusal is 'taken' |
| Registration.NoLocalConflictAfter | src/extensions/users-permissions/strapi-server.ts:89-91 | adding a row of another provider adds no local match |
| Registration.SecondRegistrationTaken | src/extensions/users-permissions/strapi-server.ts:85-117 | after an account is stored, a request with the same lowercased e-mail or the same username is refused as taken |
| Registration.UniqueEmailSpansProviders | src/extensions/users-permissions/strapi-server.ts:97-106 | an account of another provider with the same e-mail blocks the request iff `unique_email` is set |
| Registration.UsersPermissions.constructor | src/extensions/users-permissions/strapi-server.ts:28-30 | the object holds the given settings, configuration, password rules, roles and users, and its next id is above every stored one |
| Registration.UsersPermissions.AddUser | src/extensions/users-permissions/strapi-server.ts:117 | a record the store accepts is appended under a fresh id; a refused one leaves the table and the id counter unchanged; an accepted one advances the counter by one |
| Registration.UsersPermissions.Register | src/extensions/users-permissions/strapi-server.ts:27-139 | a refused request, or a record the store refuses, leaves the table unchanged; an accepted one appends exactly one account and answers with a JWT, or with the pending user after the e-mail is sent, or fails with the account kept when sending fails |
| Orders.StampOwner | src/api/order/controllers/order.ts:16 | `data.user` becomes the caller's id; every other field and the key order stay |
| Orders.StampOwnerWellFormed | src/api/order/controllers/order.ts:15-16 | stamping never duplicates a key |
| Orders.StampOwnerOverrides | src/api/order/controllers/order.ts:16 | whatever owner the client sent, the stamped data equals stamping the data without it |
| Orders.OrderService.Create | src/api/order/controllers/order.ts:18-20 | the service records the data once and returns its entity |
| Orders.Create | src/api/order/controllers/order.ts:8-23 | no user: 'User not authenticated' and no service call; otherwise the data is stamped in place, sent once, and the entity returned as-is |

## Left out

- JsStrings.Lower: lowercases ASCII A-Z only; the full Unicode case mapping of `toLowerCase` is not modelled.
- Registration.PhoneWellFormed: a truthy phone that is not a string (an array, a number) is treated as not matching; the string coercion of `RegExp.test` is not modelled.
- JsObjects.Keys: keys are plain names; integer-like keys, which `Object.keys` lists first in ascending order, are not modelled.
- Registration.Pick: keys are plain names; lodash deep paths (`a.b`), integer-like keys (which `Object.keys` lists first) and inherited properties are not modelled.
- AuthValidation.StringField: yup's error ordering, message texts for `required` and type errors, and the wrapping into a single `ValidationError` are abstracted to a list of error values.
- AuthValidation.EmailField: the e-mail regular expression of yup is the parameter `isEmail`.
- Registration.UsersPermissions.Register: password hashing inside the user service, output sanitisation, JWT signing and mail delivery are opaque parameters; a failed send is modelled as `false` rather than an exception.
- Registration.UsersPermissions.Register: the plugin settings, the configuration and the roles are fixed for the object's lifetime; reading them from the store on each request is not modelled, and the settings are assumed present.
- Request bodies are objects with distinct keys, as parsed JSON gives them; an object listing a key twice (where `Lookup` reads the first and a JSON parser keeps the last) is not modelled.
- Registration.UsersPermissions.Register: why the user store refuses a record (its schema checks, database constraints, hashing failures) is the opaque parameter `storeAccepts`, and its error is passed on as `StoreError` without a message.
- Registration.Conflicts: the store's string comparison in the `$eq` filters is taken as exact; a database collation that ignores case (as MySQL's default does) would match more rows than the model says.
- Logging, `async` interleaving of concurrent requests (two registrations racing past the duplicate check) and HTTP response formatting are not modelled.
- Numbers are integers; floating-point values in request bodies are not modelled.
- Orders.Create: a `data` that is not an object (a string, a number) is not modelled; a missing `data` is the `MissingData` outcome standing for the thrown `TypeError`.
- The rest of the users-permissions plugin (login, confirmation, password reset actions) and the generated types are not part of this model.
