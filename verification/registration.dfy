/**
 * The `register` action that replaces the users-permissions default
 * (src/extensions/users-permissions/strapi-server.ts).
 *
 * The action is a strict chain of gates; the first that fails ends the
 * request. The gates that do not look at the user store (registration
 * switch, phone, allow-list, schema, default role) are the function `Admit`;
 * `Gate` adds the two duplicate checks and builds the record to store. The
 * class `UsersPermissions` holds the plugin's state; its `Register` method
 * runs the request-only gates, queries its user table for duplicates, appends
 * the account and picks the response.
 */
module Registration {
  import opened Wrappers
  import opened JsStrings
  import opened JsObjects
  import opened AuthValidation

  const PhoneKey := Lit("phone")
  const ProviderKey := Lit("provider")
  const RoleKey := Lit("role")
  const ConfirmedKey := Lit("confirmed")
  const Local := Lit("local")

  lemma KeyNamesDistinct()
    ensures PhoneKey != UsernameKey && PhoneKey != PasswordKey && PhoneKey != EmailKey
    ensures ProviderKey != UsernameKey && ProviderKey != PasswordKey && ProviderKey != EmailKey
    ensures ProviderKey != RoleKey && ProviderKey != ConfirmedKey
    ensures EmailKey != UsernameKey && EmailKey != RoleKey && EmailKey != ConfirmedKey
    ensures UsernameKey != RoleKey && UsernameKey != ConfirmedKey && RoleKey != ConfirmedKey
  {
    if PhoneKey == EmailKey { LitInjective("phone", "email"); }
    if PhoneKey == UsernameKey { LitInjective("phone", "username"); }
    if PhoneKey == PasswordKey { LitInjective("phone", "password"); }
    if ProviderKey == UsernameKey { LitInjective("provider", "username"); }
    if ProviderKey == PasswordKey { LitInjective("provider", "password"); }
  }

  // ---------------------------------------------------------------- phone

  /** One position of `phoneRegex`: a literal character, `[0-9]` or `\s`. */
  datatype CharClass = Exactly(c: CodePoint) | Digit | Space

  /** `\+[0-9]\s[0-9]{3}\s[0-9]{3}\s[0-9]{2}\s[0-9]{2}`, one class per matched character. */
  const PhonePattern: seq<CharClass> := [
    Exactly('+' as int), Digit, Space,
    Digit, Digit, Digit, Space,
    Digit, Digit, Digit, Space,
    Digit, Digit, Space,
    Digit, Digit]

  predicate ClassMatches(k: CharClass, c: CodePoint) {
    match k
    case Exactly(x) => c == x
    case Digit => IsAsciiDigit(c)
    case Space => IsJsWhitespace(c)
  }

  /** The pattern matches `s` starting at position `i`. */
  predicate MatchesAt(s: JsString, i: nat) {
    && i + |PhonePattern| <= |s|
    && forall j :: 0 <= j < |PhonePattern| ==> ClassMatches(PhonePattern[j], s[i + j])
  }

  /** The regular expression's search from position `i` on: it tries every start in turn. */
  function SearchFrom(s: JsString, i: nat): (found: bool)
    requires i <= |s|
    ensures found <==> exists k :: i <= k <= |s| && MatchesAt(s, k)
    decreases |s| - i
  {
    if i + |PhonePattern| > |s| then false
    else MatchesAt(s, i) || SearchFrom(s, i + 1)
  }

  /** `phoneRegex.test(s)`: the pattern has no anchors, so a match anywhere in `s` is enough. */
  function PhoneTest(s: JsString): (found: bool)
    ensures found <==> exists k :: 0 <= k <= |s| && MatchesAt(s, k)
  {
    SearchFrom(s, 0)
  }

  /** Text before and after a well-formed number does not stop the test from passing. */
  lemma PhoneSurroundingText(before: JsString, number: JsString, after: JsString)
    requires MatchesAt(number, 0)
    ensures PhoneTest(before + number + after)
  {
    var s := before + number + after;
    forall j | 0 <= j < |PhonePattern| ensures s[|before| + j] == number[j] {
    }
    assert MatchesAt(s, |before|);
  }

  /** The format the registration form asks for passes, and so does one with tabs. */
  lemma PhoneExamples()
    ensures PhoneTest(Lit("+1 234 567 89 01"))
    ensures PhoneTest(Lit("+1\t234\t567\t89\t01"))
    ensures !PhoneTest(Lit("+12345678901"))
  {
    assert MatchesAt(Lit("+1 234 567 89 01"), 0);
    assert MatchesAt(Lit("+1\t234\t567\t89\t01"), 0);
  }

  // ---------------------------------------------------------------- allow-list

  const AlwaysAllowedKeys: seq<Value> := [Str(UsernameKey), Str(PasswordKey), Str(EmailKey)]

  /** `register.allowedFields` of the plugin configuration: `None` when it is not an array. */
  datatype RegisterConfig = RegisterConfig(allowedFields: Option<seq<Value>>)

  /** lodash `compact`: drops the falsy entries and keeps the order of the others. */
  function Compact(vs: seq<Value>): (r: seq<Value>)
    ensures forall v :: v in r <==> v in vs && Truthy(v)
    ensures IsSubsequence(r, vs)
  {
    if vs == [] then []
    else if Truthy(vs[0]) then [vs[0]] + Compact(vs[1..])
    else Compact(vs[1..])
  }

  /** `compact` keeps every truthy entry as many times as it occurs, and no falsy one. */
  lemma {:induction false} CompactCounts(vs: seq<Value>)
    ensures forall v :: multiset(Compact(vs))[v] == if Truthy(v) then multiset(vs)[v] else 0
  {
    if vs != [] {
      CompactCounts(vs[1..]);
      assert vs == [vs[0]] + vs[1..];
    }
  }

  /** `compact(concat(alwaysAllowedKeys, isArray(allowedFields) ? allowedFields : []))`. */
  function AllowedKeys(config: RegisterConfig): (r: seq<Value>)
    ensures forall v :: v in r <==> Truthy(v) && (v in AlwaysAllowedKeys || (config.allowedFields.Some? && v in config.allowedFields.value))
  {
    Compact(AlwaysAllowedKeys + (if config.allowedFields.Some? then config.allowedFields.value else []))
  }

  /** The three keys always allowed come first, in their own order, before any configured one. */
  lemma AllowedKeysStartWithDefaults(config: RegisterConfig)
    ensures var r := AllowedKeys(config);
      |r| >= 3 && r[..3] == AlwaysAllowedKeys
  {
    var extra := if config.allowedFields.Some? then config.allowedFields.value else [];
    assert |UsernameKey| == 8 && |PasswordKey| == 8 && |EmailKey| == 5;
    var tail := [Str(EmailKey)] + extra;
    var middle := [Str(PasswordKey)] + tail;
    assert AlwaysAllowedKeys + extra == [Str(UsernameKey)] + middle;
    CompactTruthyHead(Str(EmailKey), extra);
    CompactTruthyHead(Str(PasswordKey), tail);
    CompactTruthyHead(Str(UsernameKey), middle);
  }

  /** A truthy head survives `compact`. */
  lemma CompactTruthyHead(x: Value, rest: seq<Value>)
    requires Truthy(x)
    ensures Compact([x] + rest) == [x] + Compact(rest)
  {
    assert ([x] + rest)[1..] == rest;
  }

  /** The keys `allowedKeys.includes(key)` accepts: only string entries can equal a key. */
  function AllowedNames(allowed: seq<Value>): (names: set<JsString>)
    ensures forall k :: k in names <==> Str(k) in allowed
  {
    set v | v in allowed && v.Str? :: v.s
  }

  /** `Object.keys(body).filter((key) => !allowedKeys.includes(key))`. */
  function InvalidKeys(body: Object, allowed: seq<Value>): (r: seq<JsString>)
    ensures forall k :: k in r <==> k in Keys(body) && Str(k) !in allowed
    ensures IsSubsequence(r, Keys(body))
  {
    KeysOutside(Keys(body), AllowedNames(allowed))
  }

  /**
   * `phone` is checked before the allow-list but is not one of the keys always
   * allowed: a body that carries it is refused unless `allowedFields` lists it.
   */
  lemma PhoneMustBeAllowListed(body: Object, config: RegisterConfig)
    requires PhoneKey in Keys(body)
    requires config.allowedFields.None? || Str(PhoneKey) !in config.allowedFields.value
    ensures PhoneKey in InvalidKeys(body, AllowedKeys(config))
  {
    KeyNamesDistinct();
  }

  /** The text of the allow-list error: the offending keys joined by ", ". */
  function InvalidParametersMessage(keys: seq<JsString>): (m: JsString)
    ensures Lit("Invalid parameters: ") <= m
    ensures |keys| == 1 ==> m == Lit("Invalid parameters: ") + keys[0]
  {
    Lit("Invalid parameters: ") + Join(keys, Lit(", "))
  }

  /** Every offending key is listed, in order: one more key adds `, ` and that key to the message. */
  lemma InvalidParametersMessageSnoc(keys: seq<JsString>, k: JsString)
    requires keys != []
    ensures InvalidParametersMessage(keys + [k]) == InvalidParametersMessage(keys) + Lit(", ") + k
  {
    JoinSnoc(keys, k, Lit(", "));
  }

  // ---------------------------------------------------------------- projection

  /** lodash `pick` from `acc` on: walks `paths` in order and copies each key the body has. */
  function PickInto(acc: Object, body: Object, paths: seq<Value>): (r: Object)
    requires WellFormed(acc)
    ensures WellFormed(r)
    ensures forall k :: Lookup(r, k) == if Str(k) in paths && Lookup(body, k).Some? then Lookup(body, k) else Lookup(acc, k)
    decreases |paths|
  {
    if paths == [] then acc
    else
      var p := paths[0];
      var next :=
        if p.Str? && Lookup(body, p.s).Some? then
          AssignWellFormed(acc, p.s, Lookup(body, p.s).value);
          Assign(acc, p.s, Lookup(body, p.s).value)
        else acc;
      var r := PickInto(next, body, paths[1..]);
      assert forall k :: Str(k) in paths <==> Str(k) == p || Str(k) in paths[1..];
      r
  }

  /** `_.pick(body, allowed)`. */
  function Pick(body: Object, allowed: seq<Value>): (r: Object)
    ensures WellFormed(r)
    ensures forall k :: Lookup(r, k) == if Str(k) in allowed then Lookup(body, k) else None
  {
    PickInto([], body, allowed)
  }

  /**
   * `{ ..._.pick(body, allowedKeys), provider: 'local' }`. Once no key is
   * invalid, it holds exactly the body's keys plus `provider`, and `provider`
   * is `'local'` whatever the body sent.
   */
  function Params(body: Object, allowed: seq<Value>): (params: Object)
    ensures WellFormed(params)
    ensures Lookup(params, ProviderKey) == Some(Str(Local))
    ensures InvalidKeys(body, allowed) == [] ==> forall k :: k != ProviderKey ==> Lookup(params, k) == Lookup(body, k)
  {
    var picked := Pick(body, allowed);
    AssignWellFormed(picked, ProviderKey, Str(Local));
    PickKeepsAllowedBody(body, allowed);
    Assign(picked, ProviderKey, Str(Local))
  }

  /** When every key of the body is allowed, picking keeps the whole body. */
  lemma PickKeepsAllowedBody(body: Object, allowed: seq<Value>)
    ensures InvalidKeys(body, allowed) == [] ==> forall k :: Lookup(Pick(body, allowed), k) == Lookup(body, k)
  {
    if InvalidKeys(body, allowed) == [] {
      forall k | Lookup(body, k).Some? ensures Str(k) in allowed {
        assert k in Keys(body);
      }
    }
  }

  // ---------------------------------------------------------------- store

  datatype Role = Role(id: nat, roleType: JsString)

  /** A row of the user table: its id and its attributes. */
  datatype Account = Account(id: nat, attrs: Object)

  /** The plugin's `advanced` settings. */
  datatype Settings = Settings(allowRegister: bool, defaultRole: JsString, emailConfirmation: bool, uniqueEmail: bool)

  /** `findOne({ where: { type } })` on the role table: the first role of that type. */
  function FindRole(roles: seq<Role>, roleType: JsString): (r: Option<Role>)
    ensures r.Some? ==> r.value in roles && r.value.roleType == roleType
    ensures r.None? ==> forall i :: 0 <= i < |roles| ==> roles[i].roleType != roleType
  {
    if roles == [] then None
    else if roles[0].roleType == roleType then Some(roles[0])
    else FindRole(roles[1..], roleType)
  }

  /**
   * A row matches `identifierFilter`: its e-mail or its username equals the
   * lowercased e-mail, its username or its e-mail equals the username as sent.
   * The comparison is exact.
   */
  predicate Conflicts(a: Account, email: JsString, username: JsString)
    ensures Conflicts(a, email, username) ==> EmailKey in Keys(a.attrs) || UsernameKey in Keys(a.attrs)
  {
    var e := Lookup(a.attrs, EmailKey);
    var u := Lookup(a.attrs, UsernameKey);
    e == Some(Str(Lower(email))) || u == Some(Str(Lower(email))) || u == Some(Str(username)) || e == Some(Str(username))
  }

  /** Only the lower-cased e-mail enters the look-up: two addresses differing in case meet the same rows. */
  lemma ConflictsIgnoreEmailCase(a: Account, email: JsString, other: JsString, username: JsString)
    requires Lower(other) == Lower(email)
    ensures Conflicts(a, other, username) == Conflicts(a, email, username)
  {
  }

  predicate InScope(a: Account, provider: Option<JsString>) {
    provider.None? || Lookup(a.attrs, ProviderKey) == Some(Str(provider.value))
  }

  /** `count({ where: { ...identifierFilter, provider } })`, or without `provider` when it is `None`. */
  function CountConflicts(users: seq<Account>, email: JsString, username: JsString, provider: Option<JsString>): (n: nat)
    ensures n <= |users|
    ensures n > 0 <==> exists i :: 0 <= i < |users| && InScope(users[i], provider) && Conflicts(users[i], email, username)
  {
    if users == [] then 0
    else
      var rest := CountConflicts(users[1..], email, username, provider);
      (if InScope(users[0], provider) && Conflicts(users[0], email, username) then 1 else 0) + rest
  }

  // ---------------------------------------------------------------- the chain

  datatype Failure =
    | Disabled                                   // 'Register action is currently disabled'
    | PhoneMissing                               // 'phone is a required field'
    | PhoneMalformed                             // 'phone format is invalid'
    | InvalidParameters(keys: seq<JsString>)     // 'Invalid parameters: ...'
    | SchemaInvalid(errors: seq<SchemaError>)    // the register schema's errors
    | DefaultRoleMissing                         // 'Impossible to find the default role'
    | IdentifierTaken                            // 'Email or Username are already taken'
    | StoreRejected                              // whatever `getService('user').add` throws
    | ConfirmationEmailFailed                    // 'Error sending confirmation email'

  /** What the client receives for a failure: the error class the source throws and its message. */
  datatype ThrownError =
    | ApplicationError(message: JsString)
    | ValidationError(message: JsString)
    | SchemaValidationError(errors: seq<SchemaError>)
    | StoreError                                 // the user store's own error, passed on unchanged

  function Thrown(f: Failure): (r: ThrownError)
    ensures r.ValidationError? <==> f.PhoneMissing? || f.PhoneMalformed? || f.InvalidParameters?
    ensures r.SchemaValidationError? <==> f.SchemaInvalid?
    ensures f.SchemaInvalid? ==> r.errors == f.errors
    ensures r.StoreError? <==> f.StoreRejected?
    ensures r.ApplicationError? <==> f.Disabled? || f.DefaultRoleMissing? || f.IdentifierTaken? || f.ConfirmationEmailFailed?
  {
    match f
    case Disabled => ApplicationError(Lit("Register action is currently disabled"))
    case PhoneMissing => ValidationError(Lit("phone is a required field"))
    case PhoneMalformed => ValidationError(Lit("phone format is invalid"))
    case InvalidParameters(keys) => ValidationError(InvalidParametersMessage(keys))
    case SchemaInvalid(errors) => SchemaValidationError(errors)
    case DefaultRoleMissing => ApplicationError(Lit("Impossible to find the default role"))
    case IdentifierTaken => ApplicationError(Lit("Email or Username are already taken"))
    case StoreRejected => StoreError
    case ConfirmationEmailFailed => ApplicationError(Lit("Error sending confirmation email"))
  }

  /** `if (!phone)`: absent or falsy. */
  predicate PhoneGiven(body: Object)
    ensures PhoneGiven(body) ==> PhoneKey in Keys(body)
  {
    Lookup(body, PhoneKey).Some? && Truthy(Lookup(body, PhoneKey).value)
  }

  /** `phoneRegex.test(phone)` on a string phone; a phone of another type is not looked into. */
  predicate PhoneWellFormed(body: Object)
    ensures PhoneWellFormed(body) ==> PhoneGiven(body)
  {
    var p := Lookup(body, PhoneKey);
    p.Some? && p.value.Str? && PhoneTest(p.value.s)
  }

  /** What the gates that do not read the user store hand on to the duplicate checks. */
  datatype Candidate = Candidate(params: Object, roleId: nat, email: JsString, username: JsString)

  /** strapi-server.ts lines 30-80: every gate before the duplicate checks, in the source's order. */
  function Admit(settings: Settings, config: RegisterConfig, rules: PasswordRules, roles: seq<Role>,
                 body: Object, isEmail: JsString -> bool): (r: Result<Candidate, Failure>)
    ensures !settings.allowRegister ==> r == Err(Disabled)
    ensures settings.allowRegister && !PhoneGiven(body) ==> r == Err(PhoneMissing)
    ensures r == Err(PhoneMalformed) <==> settings.allowRegister && PhoneGiven(body) && !PhoneWellFormed(body)
    ensures r.Ok? ==> WellFormed(r.value.params)
  {
    if !settings.allowRegister then Err(Disabled)
    else if !PhoneGiven(body) then Err(PhoneMissing)
    else if !PhoneWellFormed(body) then Err(PhoneMalformed)
    else
      var allowed := AllowedKeys(config);
      var invalid := InvalidKeys(body, allowed);
      if invalid != [] then Err(InvalidParameters(invalid))
      else
        var params := Params(body, allowed);
        var errors := RegisterErrors(params, rules, isEmail);
        if errors != [] then Err(SchemaInvalid(errors))
        else
          var role := FindRole(roles, settings.defaultRole);
          if role.None? then Err(DefaultRoleMissing)
          else
            KeyNamesDistinct();
            Ok(Candidate(params, role.value.id, Lookup(params, EmailKey).value.s, Lookup(params, UsernameKey).value.s))
  }

  /**
   * The later gates of `Admit`, in order: the allow-list reports every
   * offending key, then the schema reports its errors on the projected
   * parameters, then the default role must exist. A request that passes
   * carries a well-formed e-mail, a non-empty username and an accepted
   * password straight from the body, and only allowed keys.
   */
  lemma AdmitGates(settings: Settings, config: RegisterConfig, rules: PasswordRules, roles: seq<Role>,
                   body: Object, isEmail: JsString -> bool)
    ensures var r := Admit(settings, config, rules, roles, body, isEmail);
      && (r.Err? && r.error.InvalidParameters? ==>
            && settings.allowRegister && PhoneWellFormed(body)
            && r.error.keys == InvalidKeys(body, AllowedKeys(config)) && r.error.keys != [])
      && (r.Err? && r.error.SchemaInvalid? ==>
            && InvalidKeys(body, AllowedKeys(config)) == []
            && r.error.errors == RegisterErrors(Params(body, AllowedKeys(config)), rules, isEmail) != [])
      && (r == Err(DefaultRoleMissing) ==>
            && RegisterErrors(Params(body, AllowedKeys(config)), rules, isEmail) == []
            && FindRole(roles, settings.defaultRole).None?)
      && (r.Ok? ==>
            && settings.allowRegister && PhoneWellFormed(body)
            && InvalidKeys(body, AllowedKeys(config)) == []
            && (forall k :: k in Keys(body) ==> Str(k) in AllowedKeys(config))
            && r.value.params == Params(body, AllowedKeys(config))
            && RegisterErrors(r.value.params, rules, isEmail) == []
            && (exists role :: role in roles && role.id == r.value.roleId && role.roleType == settings.defaultRole))
  {
    if settings.allowRegister && PhoneGiven(body) && PhoneWellFormed(body) {
      var allowed := AllowedKeys(config);
      if InvalidKeys(body, allowed) == [] {
        var params := Params(body, allowed);
        if RegisterErrors(params, rules, isEmail) == [] {
          var role := FindRole(roles, settings.defaultRole);
          if role.Some? {
            assert role.value in roles;
          }
        }
      }
    }
  }

  /**
   * The converse of `AdmitGates`: once the phone gates pass, the first later
   * gate that fails decides the answer. Offending keys are all reported; with
   * none, the schema's errors are; with neither, the request is admitted
   * exactly when the default role exists.
   */
  lemma AdmitLaterGates(settings: Settings, config: RegisterConfig, rules: PasswordRules, roles: seq<Role>,
                        body: Object, isEmail: JsString -> bool)
    requires settings.allowRegister && PhoneWellFormed(body)
    ensures var r := Admit(settings, config, rules, roles, body, isEmail);
      var invalid := InvalidKeys(body, AllowedKeys(config));
      var errors := RegisterErrors(Params(body, AllowedKeys(config)), rules, isEmail);
      && (invalid != [] ==> r == Err(InvalidParameters(invalid)))
      && (invalid == [] && errors != [] ==> r == Err(SchemaInvalid(errors)))
      && (invalid == [] && errors == [] ==>
            && (r.Ok? <==> FindRole(roles, settings.defaultRole).Some?)
            && (r.Err? ==> r == Err(DefaultRoleMissing)))
  {
  }

  /** A request whose only offending key is `phone` is answered with the validation error `Invalid parameters: phone`. */
  lemma PhoneOnlyMessage(settings: Settings, config: RegisterConfig, rules: PasswordRules, roles: seq<Role>,
                         body: Object, isEmail: JsString -> bool)
    requires settings.allowRegister && PhoneWellFormed(body)
    requires InvalidKeys(body, AllowedKeys(config)) == [PhoneKey]
    ensures var r := Admit(settings, config, rules, roles, body, isEmail);
      r == Err(InvalidParameters([PhoneKey])) && Thrown(r.error) == ValidationError(Lit("Invalid parameters: phone"))
  {
    AdmitLaterGates(settings, config, rules, roles, body, isEmail);
    PhoneKeyMessage();
  }

  lemma PhoneKeyMessage()
    ensures InvalidParametersMessage([PhoneKey]) == Lit("Invalid parameters: phone")
  {
    var prefix, name := Lit("Invalid parameters: "), Lit("phone");
    assert Join([name], Lit(", ")) == name;
    assert prefix + name == Lit("Invalid parameters: phone");
  }

  /** What an admitted request carries, read back from the body itself. */
  lemma AdmittedFields(settings: Settings, config: RegisterConfig, rules: PasswordRules, roles: seq<Role>,
                       body: Object, isEmail: JsString -> bool)
    requires Admit(settings, config, rules, roles, body, isEmail).Ok?
    ensures var c := Admit(settings, config, rules, roles, body, isEmail).value;
      && Lookup(body, EmailKey) == Some(Str(c.email)) && isEmail(c.email)
      && Lookup(body, UsernameKey) == Some(Str(c.username)) && c.username != []
      && PasswordAccepted(Lookup(body, PasswordKey), rules)
  {
    KeyNamesDistinct();
    AdmitGates(settings, config, rules, roles, body, isEmail);
    var allowed := AllowedKeys(config);
    var params := Params(body, allowed);
    assert RegisterErrors(params, rules, isEmail) == [];
    assert Lookup(params, EmailKey) == Lookup(body, EmailKey);
    assert Lookup(params, UsernameKey) == Lookup(body, UsernameKey);
    assert Lookup(params, PasswordKey) == Lookup(body, PasswordKey);
  }

  /** `{ ...params, role: role.id, email: email.toLowerCase(), username, confirmed: !email_confirmation }`. */
  function NewUser(params: Object, roleId: nat, email: JsString, username: JsString, emailConfirmation: bool): (r: Object)
    requires WellFormed(params)
    ensures WellFormed(r)
    ensures Lookup(r, RoleKey) == Some(Num(roleId))
    ensures Lookup(r, EmailKey) == Some(Str(Lower(email)))
    ensures Lookup(r, UsernameKey) == Some(Str(username))
    ensures Lookup(r, ConfirmedKey) == Some(Bool(!emailConfirmation))
    ensures forall k :: k != RoleKey && k != EmailKey && k != UsernameKey && k != ConfirmedKey ==> Lookup(r, k) == Lookup(params, k)
  {
    KeyNamesDistinct();
    var r1 := Assign(params, RoleKey, Num(roleId));
    AssignWellFormed(params, RoleKey, Num(roleId));
    var r2 := Assign(r1, EmailKey, Str(Lower(email)));
    AssignWellFormed(r1, EmailKey, Str(Lower(email)));
    var r3 := Assign(r2, UsernameKey, Str(username));
    AssignWellFormed(r2, UsernameKey, Str(username));
    AssignWellFormed(r3, ConfirmedKey, Bool(!emailConfirmation));
    Assign(r3, ConfirmedKey, Bool(!emailConfirmation))
  }

  /**
   * strapi-server.ts lines 30-117: the whole chain. `Ok(record)` is the record handed to the
   * user service; it is only produced when no local account (and, with
   * `unique_email`, no account at all) shares an identifier with the request.
   */
  function Gate(settings: Settings, config: RegisterConfig, rules: PasswordRules, roles: seq<Role>,
                users: seq<Account>, body: Object, isEmail: JsString -> bool): (r: Result<Object, Failure>)
    ensures var a := Admit(settings, config, rules, roles, body, isEmail);
      && (a.Err? ==> r == Err(a.error))
      && (a.Ok? && r.Err? ==>
            && r.error == IdentifierTaken
            && exists i :: 0 <= i < |users| && Conflicts(users[i], a.value.email, a.value.username)
                 && (InScope(users[i], Some(Local)) || settings.uniqueEmail))
      && (r.Ok? ==>
            && a.Ok?
            && r.value == NewUser(a.value.params, a.value.roleId, a.value.email, a.value.username, settings.emailConfirmation)
            && (forall i :: 0 <= i < |users| && InScope(users[i], Some(Local)) ==> !Conflicts(users[i], a.value.email, a.value.username))
            && (settings.uniqueEmail ==> forall i :: 0 <= i < |users| ==> !Conflicts(users[i], a.value.email, a.value.username)))
  {
    match Admit(settings, config, rules, roles, body, isEmail)
    case Err(f) => Err(f)
    case Ok(c) =>
      // `provider` is read back from params, where it is always 'local'.
      if CountConflicts(users, c.email, c.username, Some(Local)) > 0 then Err(IdentifierTaken)
      else if settings.uniqueEmail && CountConflicts(users, c.email, c.username, None) > 0 then Err(IdentifierTaken)
      else
        Ok(NewUser(c.params, c.roleId, c.email, c.username, settings.emailConfirmation))
  }

  /**
   * The record a successful request stores: the body's own fields, with
   * `provider` forced to `'local'`, the e-mail lowercased, the default role
   * and `confirmed` set to the opposite of `email_confirmation`.
   */
  lemma GateRecord(settings: Settings, config: RegisterConfig, rules: PasswordRules, roles: seq<Role>,
                   users: seq<Account>, body: Object, isEmail: JsString -> bool)
    requires Gate(settings, config, rules, roles, users, body, isEmail).Ok?
    ensures var c := Admit(settings, config, rules, roles, body, isEmail).value;
      var rec := Gate(settings, config, rules, roles, users, body, isEmail).value;
      && WellFormed(rec)
      && Lookup(rec, ProviderKey) == Some(Str(Local))
      && Lookup(rec, EmailKey) == Some(Str(Lower(c.email)))
      && Lookup(rec, UsernameKey) == Lookup(body, UsernameKey)
      && Lookup(rec, RoleKey) == Some(Num(c.roleId))
      && (exists role :: role in roles && role.id == c.roleId && role.roleType == settings.defaultRole)
      && Lookup(rec, ConfirmedKey) == Some(Bool(!settings.emailConfirmation))
      && (forall k :: k != RoleKey && k != EmailKey && k != UsernameKey && k != ConfirmedKey && k != ProviderKey
            ==> Lookup(rec, k) == Lookup(body, k))
  {
    AdmitGates(settings, config, rules, roles, body, isEmail);
    AdmittedFields(settings, config, rules, roles, body, isEmail);
    var c := Admit(settings, config, rules, roles, body, isEmail).value;
    assert InvalidKeys(body, AllowedKeys(config)) == [];
    NewUserFromParams(body, c.params, c.roleId, c.email, c.username, settings.emailConfirmation);
  }

  lemma NewUserFromParams(body: Object, params: Object, roleId: nat, email: JsString, username: JsString, emailConfirmation: bool)
    requires WellFormed(params)
    requires Lookup(params, ProviderKey) == Some(Str(Local))
    requires forall k :: k != ProviderKey ==> Lookup(params, k) == Lookup(body, k)
    requires Lookup(body, UsernameKey) == Some(Str(username))
    ensures var rec := NewUser(params, roleId, email, username, emailConfirmation);
      && Lookup(rec, ProviderKey) == Some(Str(Local))
      && Lookup(rec, UsernameKey) == Lookup(body, UsernameKey)
      && (forall k :: k != RoleKey && k != EmailKey && k != UsernameKey && k != ConfirmedKey && k != ProviderKey
            ==> Lookup(rec, k) == Lookup(body, k))
  {
    KeyNamesDistinct();
  }

  // ---------------------------------------------------------------- properties across requests

  /**
   * A successful registration that creates an account already makes phone an
   * allowed field: without it in `allowedFields` no registration can succeed.
   */
  lemma AdmitNeedsPhoneAllowListed(settings: Settings, config: RegisterConfig, rules: PasswordRules, roles: seq<Role>,
                                   body: Object, isEmail: JsString -> bool)
    requires Admit(settings, config, rules, roles, body, isEmail).Ok?
    ensures config.allowedFields.Some? && Str(PhoneKey) in config.allowedFields.value
  {
    assert PhoneKey in Keys(body);
    if config.allowedFields.None? || Str(PhoneKey) !in config.allowedFields.value {
      PhoneMustBeAllowListed(body, config);
      assert false;
    }
  }

  /**
   * After a registration stores its record, a second request whose e-mail
   * lowercases the same, or whose username is the same, is refused as taken.
   */
  lemma SecondRegistrationTaken(settings: Settings, config: RegisterConfig, rules: PasswordRules, roles: seq<Role>,
                                users: seq<Account>, first: Object, second: Object, isEmail: JsString -> bool, id: nat)
    requires Gate(settings, config, rules, roles, users, first, isEmail).Ok?
    requires Admit(settings, config, rules, roles, second, isEmail).Ok?
    requires var c1 := Admit(settings, config, rules, roles, first, isEmail).value;
             var c2 := Admit(settings, config, rules, roles, second, isEmail).value;
             Lower(c2.email) == Lower(c1.email) || c2.username == c1.username
    ensures var stored := Account(id, Gate(settings, config, rules, roles, users, first, isEmail).value);
            Gate(settings, config, rules, roles, users + [stored], second, isEmail) == Err(IdentifierTaken)
  {
    var c1 := Admit(settings, config, rules, roles, first, isEmail).value;
    var c2 := Admit(settings, config, rules, roles, second, isEmail).value;
    var stored := Account(id, Gate(settings, config, rules, roles, users, first, isEmail).value);
    var after := users + [stored];
    GateRecord(settings, config, rules, roles, users, first, isEmail);
    AdmittedFields(settings, config, rules, roles, first, isEmail);
    assert InScope(stored, Some(Local));
    assert Conflicts(stored, c2.email, c2.username);
    assert after[|users|] == stored;
    assert CountConflicts(after, c2.email, c2.username, Some(Local)) > 0;
    GateDecision(settings, config, rules, roles, after, second, isEmail);
  }

  /**
   * An account under another provider that already holds the lowercased
   * e-mail blocks the registration exactly when `unique_email` is set.
   */
  lemma UniqueEmailSpansProviders(settings: Settings, config: RegisterConfig, rules: PasswordRules, roles: seq<Role>,
                                  users: seq<Account>, body: Object, isEmail: JsString -> bool, other: Account)
    requires Gate(settings, config, rules, roles, users, body, isEmail).Ok?
    requires Lookup(other.attrs, EmailKey) == Some(Str(Lower(Admit(settings, config, rules, roles, body, isEmail).value.email)))
    requires Lookup(other.attrs, ProviderKey) != Some(Str(Local))
    ensures settings.uniqueEmail <==> Gate(settings, config, rules, roles, users + [other], body, isEmail) == Err(IdentifierTaken)
  {
    var c := Admit(settings, config, rules, roles, body, isEmail).value;
    var after := users + [other];
    assert Conflicts(other, c.email, c.username) && !InScope(other, Some(Local));
    NoLocalConflictAfter(users, other, c.email, c.username);
    GateDecision(settings, config, rules, roles, after, body, isEmail);
    if settings.uniqueEmail {
      assert after[|users|] == other;
      assert CountConflicts(after, c.email, c.username, None) > 0;
    }
  }

  /**
   * Once the request-only gates pass, the outcome depends on the user table
   * alone: it is refused as taken exactly when a local account (or, with
   * `unique_email`, any account) shares the e-mail or the username.
   */
  lemma GateDecision(settings: Settings, config: RegisterConfig, rules: PasswordRules, roles: seq<Role>,
                     users: seq<Account>, body: Object, isEmail: JsString -> bool)
    requires Admit(settings, config, rules, roles, body, isEmail).Ok?
    ensures var c := Admit(settings, config, rules, roles, body, isEmail).value;
      var r := Gate(settings, config, rules, roles, users, body, isEmail);
      && (r.Err? <==> CountConflicts(users, c.email, c.username, Some(Local)) > 0
                      || (settings.uniqueEmail && CountConflicts(users, c.email, c.username, None) > 0))
      && (r.Err? ==> r.error == IdentifierTaken)
  {
  }

  /** Adding an account outside the local provider adds no local conflict. */
  lemma NoLocalConflictAfter(users: seq<Account>, other: Account, email: JsString, username: JsString)
    requires forall i :: 0 <= i < |users| && InScope(users[i], Some(Local)) ==> !Conflicts(users[i], email, username)
    requires !InScope(other, Some(Local))
    ensures CountConflicts(users + [other], email, username, Some(Local)) == 0
  {
    var after := users + [other];
    forall i | 0 <= i < |after| && InScope(after[i], Some(Local)) ensures !Conflicts(after[i], email, username) {
      if i < |users| {
        assert after[i] == users[i];
      }
    }
  }

  // ---------------------------------------------------------------- the action

  datatype Response = ConfirmationPending(user: Object) | SignedIn(jwt: JsString, user: Object)

  /**
   * Collaborators the action calls and this model does not look into: the
   * `email()` test, the user store's own acceptance of a record (`false` when
   * `add` throws), output sanitisation for the caller, JWT issuing from an id,
   * and sending the confirmation e-mail (`false` when it throws).
   */
  datatype Services = Services(
    isEmail: JsString -> bool,
    storeAccepts: Object -> bool,
    sanitize: Account -> Object,
    issueJwt: nat -> JsString,
    sendConfirmationEmail: Object -> bool)

  /** The users-permissions plugin: its settings and configuration, the role table and the user table. */
  class UsersPermissions {
    const settings: Settings
    const config: RegisterConfig
    const rules: PasswordRules
    const roles: seq<Role>
    var users: seq<Account>
    var nextId: nat

    /** Every stored id is below the next one handed out, so new ids are fresh. */
    ghost predicate Valid()
      reads this
    {
      forall i :: 0 <= i < |users| ==> users[i].id < nextId
    }

    constructor (settings: Settings, config: RegisterConfig, rules: PasswordRules, roles: seq<Role>, users: seq<Account>)
      ensures Valid()
      ensures this.settings == settings && this.config == config && this.rules == rules && this.roles == roles
      ensures this.users == users && nextId == MaxId(users) + 1
    {
      this.settings := settings;
      this.config := config;
      this.rules := rules;
      this.roles := roles;
      this.users := users;
      this.nextId := MaxId(users) + 1;
    }

    /**
     * `getService('user').add(record)`: stores the record under a fresh id, or,
     * when the store refuses it, throws and stores nothing.
     */
    method AddUser(record: Object, accepts: Object -> bool) returns (added: Option<Account>)
      requires Valid()
      modifies this`users, this`nextId
      ensures Valid()
      ensures added.None? <==> !accepts(record)
      ensures added.None? ==> users == old(users) && nextId == old(nextId)
      ensures added.Some? ==> added.value == Account(old(nextId), record) && users == old(users) + [added.value]
      ensures added.Some? ==> nextId == old(nextId) + 1
      ensures added.Some? ==> forall i :: 0 <= i < |old(users)| ==> old(users)[i].id != added.value.id
    {
      if !accepts(record) {
        return None;
      }
      var account := Account(nextId, record);
      users := users + [account];
      nextId := nextId + 1;
      added := Some(account);
    }

    /**
     * The `register` action. A request refused by any gate leaves the user
     * table as it was, and so does a record the store itself refuses; one that
     * passes them all adds exactly one account, and the account stays even when
     * the confirmation e-mail cannot be sent.
     */
    method Register(body: Object, services: Services) returns (r: Result<Response, Failure>)
      requires Valid()
      modifies this`users, this`nextId
      ensures Valid()
      ensures var g := Gate(settings, config, rules, roles, old(users), body, services.isEmail);
        && (g.Err? ==> r == Err(g.error) && users == old(users) && nextId == old(nextId))
        && (g.Ok? && !services.storeAccepts(g.value) ==>
              r == Err(StoreRejected) && users == old(users) && nextId == old(nextId))
        && (g.Ok? && services.storeAccepts(g.value) ==>
              var account := Account(old(nextId), g.value);
              var user := services.sanitize(account);
              && users == old(users) + [account] && nextId == old(nextId) + 1
              && r == if !settings.emailConfirmation then Ok(SignedIn(services.issueJwt(account.id), user))
                      else if services.sendConfirmationEmail(user) then Ok(ConfirmationPending(user))
                      else Err(ConfirmationEmailFailed))
    {
      // strapi-server.ts lines 30-80: the gates that look at the request and the plugin settings only.
      var admitted := Admit(settings, config, rules, roles, body, services.isEmail);
      if admitted.Err? {
        return Err(admitted.error);
      }
      var c := admitted.value;
      // Lines 85-106: the look-ups in the user table.
      if CountConflicts(users, c.email, c.username, Some(Local)) > 0 {
        return Err(IdentifierTaken);
      }
      if settings.uniqueEmail && CountConflicts(users, c.email, c.username, None) > 0 {
        return Err(IdentifierTaken);
      }
      var record := NewUser(c.params, c.roleId, c.email, c.username, settings.emailConfirmation);
      assert Gate(settings, config, rules, roles, users, body, services.isEmail) == Ok(record);
      var added := AddUser(record, services.storeAccepts);
      if added.None? {
        return Err(StoreRejected);
      }
      var account := added.value;
      var user := services.sanitize(account);
      if settings.emailConfirmation {
        var sent := services.sendConfirmationEmail(user);
        if !sent {
          return Err(ConfirmationEmailFailed);
        }
        return Ok(ConfirmationPending(user));
      }
      var jwt := services.issueJwt(account.id);
      return Ok(SignedIn(jwt, user));
    }
  }

  /** The largest id in the table, 0 when it is empty. */
  function MaxId(users: seq<Account>): (m: nat)
    ensures forall i :: 0 <= i < |users| ==> users[i].id <= m
    ensures users != [] ==> exists i :: 0 <= i < |users| && users[i].id == m
  {
    if users == [] then 0
    else
      var rest := MaxId(users[1..]);
      if users[0].id >= rest then users[0].id else rest
  }
}
