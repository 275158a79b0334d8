/**
 * The request-body schemas of the users-permissions auth controller
 * (src/extensions/users-permissions/validation/auth.ts).
 *
 * Each schema is a function from a body to the list of errors validation
 * collects: validation is strict (no casting) and does not stop at the first
 * error, so a body passes exactly when the list is empty. Within one
 * `yup.string()` field, a value of another type fails the type check and no
 * other rule of that field runs; otherwise `required()` and the field's own
 * tests all run and all their errors are kept.
 */
module AuthValidation {
  import opened Wrappers
  import opened JsStrings
  import opened JsObjects
  import Utf8

  datatype SchemaError =
    | Required(path: JsString)                    // `required()`: absent or empty
    | NotString(path: JsString)                   // the strict type check of `yup.string()`
    | NotEmail(path: JsString)                    // `email()`
    | Failed(path: JsString, message: JsString)   // a `test()` or `oneOf()` with its own message
    | UnknownKeys(keys: seq<JsString>)            // `noUnknown()`, reported for the whole object

  /** What a user-supplied `validatePassword` does: returns a value (truthy or not) or throws. */
  datatype CheckResult = Returned(truthy: bool) | Threw(message: JsString)

  /**
   * The `validationRules` configuration. `validatePassword` is `None` when it is
   * not a function; otherwise it is called with the field's value (`None` for
   * an absent one).
   */
  datatype PasswordRules = PasswordRules(validatePassword: Option<Option<JsString> -> CheckResult>)

  const MaxPasswordBytes := 72
  const TooLongMessage := Lit("Password must be less than 73 bytes")
  const RejectedMessage := Lit("Password validation failed.")
  const DefaultThrowMessage := Lit("An error occurred.")
  const MismatchMessage := Lit("Passwords do not match")

  const EmailKey := Lit("email")
  const UsernameKey := Lit("username")
  const PasswordKey := Lit("password")
  const IdentifierKey := Lit("identifier")
  const ConfirmationKey := Lit("confirmation")
  const PasswordConfirmationKey := Lit("passwordConfirmation")
  const CodeKey := Lit("code")
  const CurrentPasswordKey := Lit("currentPassword")

  /** A string that `required()` accepts: present, a string, and not empty. */
  predicate IsFilled(v: Option<Value>) {
    v.Some? && v.value.Str? && v.value.s != []
  }

  /** The string the tests of a string field see: `None` when the field is absent. */
  function Text(v: Option<Value>): Option<JsString> {
    if v.Some? && v.value.Str? then Some(v.value.s) else None
  }

  /** What the password rules accept, stated independently of how the tests are chained. */
  predicate PasswordAccepted(v: Option<Value>, rules: PasswordRules) {
    && IsFilled(v)
    && Utf8.ByteLength(v.value.s) <= MaxPasswordBytes
    && (rules.validatePassword.None? || rules.validatePassword.value(Some(v.value.s)) == Returned(true))
  }

  /** The first password test: empty values pass; others must encode to at most 72 UTF-8 bytes. */
  function ByteLengthTest(path: JsString, value: Option<JsString>): (errs: seq<SchemaError>)
    ensures errs == [] <==> value.None? || value.value == [] || Utf8.ByteLength(value.value) <= MaxPasswordBytes
    ensures errs != [] ==> errs == [Failed(path, TooLongMessage)]
  {
    if value.None? || value.value == [] then []
    else
      if |Utf8.Encode(value.value)| <= MaxPasswordBytes then [] else [Failed(path, TooLongMessage)]
  }

  /** The second password test: the configured `validatePassword`, when there is one. */
  function ValidatePasswordTest(path: JsString, value: Option<JsString>, rules: PasswordRules): (errs: seq<SchemaError>)
    ensures errs == [] <==> rules.validatePassword.None? || rules.validatePassword.value(value) == Returned(true)
    ensures errs != [] ==> |errs| == 1 && errs[0].Failed? && errs[0].path == path && errs[0].message != []
    ensures (rules.validatePassword.Some? && rules.validatePassword.value(value) == Returned(false))
              ==> errs == [Failed(path, RejectedMessage)]
    ensures (rules.validatePassword.Some? && rules.validatePassword.value(value).Threw?)
              ==> var m := rules.validatePassword.value(value).message;
                  errs == [Failed(path, if m == [] then DefaultThrowMessage else m)]
  {
    match rules.validatePassword
    case None => []
    case Some(check) =>
      match check(value)
      case Returned(truthy) => if truthy then [] else [Failed(path, RejectedMessage)]
      case Threw(message) => [Failed(path, if message == [] then DefaultThrowMessage else message)]
  }

  /** A `yup.string().required()` field followed by its own tests. */
  function StringField(path: JsString, v: Option<Value>, tests: seq<SchemaError>): (errs: seq<SchemaError>)
    ensures v.Some? && !v.value.Str? ==> errs == [NotString(path)]
    ensures errs == [] <==> IsFilled(v) && tests == []
    ensures !IsFilled(v) ==> Required(path) in errs || NotString(path) in errs
  {
    if v.Some? && !v.value.Str? then [NotString(path)]
    else (if v.None? || v.value.s == [] then [Required(path)] else []) + tests
  }

  /** `yup.string().email().required()`: the e-mail test lets the empty string through to `required`. */
  function EmailField(path: JsString, v: Option<Value>, isEmail: JsString -> bool): (errs: seq<SchemaError>)
    ensures errs == [] <==> IsFilled(v) && isEmail(v.value.s)
    ensures IsFilled(v) && !isEmail(v.value.s) ==> errs == [NotEmail(path)]
  {
    var t := Text(v);
    StringField(path, v, if t.Some? && t.value != [] && !isEmail(t.value) then [NotEmail(path)] else [])
  }

  /** The password field, written out identically in the register, reset and change schemas. */
  function PasswordField(v: Option<Value>, rules: PasswordRules): (errs: seq<SchemaError>)
    ensures errs == [] <==> PasswordAccepted(v, rules)
    ensures (v.Some? && v.value.Str? && Utf8.ByteLength(v.value.s) > MaxPasswordBytes)
              ==> Failed(PasswordKey, TooLongMessage) in errs
    ensures v.None? || v == Some(Str([])) ==> Required(PasswordKey) in errs && ByteLengthTest(PasswordKey, Text(v)) == []
  {
    var t := Text(v);
    StringField(PasswordKey, v, ByteLengthTest(PasswordKey, t) + ValidatePasswordTest(PasswordKey, t, rules))
  }

  /**
   * `passwordConfirmation: yup.string().required().oneOf([yup.ref('password')], ...)`.
   * The type check and `oneOf` run first; `required` only when both pass. An
   * absent value passes `oneOf` and is caught by `required`.
   */
  function PasswordConfirmationField(v: Option<Value>, password: Option<Value>): (errs: seq<SchemaError>)
    ensures v.Some? && v != password ==> Failed(PasswordConfirmationKey, MismatchMessage) in errs
    ensures errs == [] <==> IsFilled(v) && v == password
  {
    var initial := (if v.Some? && !v.value.Str? then [NotString(PasswordConfirmationKey)] else [])
                 + (if v.Some? && v != password then [Failed(PasswordConfirmationKey, MismatchMessage)] else []);
    if initial != [] then initial
    else if v.None? || v.value.s == [] then [Required(PasswordConfirmationKey)]
    else []
  }

  /** `noUnknown()`: every key the schema does not declare, in the body's order. */
  function NoUnknown(body: Object, declared: set<JsString>): (errs: seq<SchemaError>)
    ensures errs == [] <==> forall k :: k in Keys(body) ==> k in declared
    ensures errs != [] ==> errs == [UnknownKeys(KeysOutside(Keys(body), declared))]
  {
    var unknown := KeysOutside(Keys(body), declared);
    if unknown == [] then []
    else
      assert unknown[0] in unknown;
      [UnknownKeys(unknown)]
  }

  /** `callbackSchema`: `identifier` and `password`, both required strings; other keys pass. */
  function CallbackErrors(body: Object): (errs: seq<SchemaError>)
    ensures errs == [] <==> IsFilled(Lookup(body, IdentifierKey)) && IsFilled(Lookup(body, PasswordKey))
    ensures Lookup(body, IdentifierKey).None? ==> Required(IdentifierKey) in errs
    ensures Lookup(body, PasswordKey).None? ==> Required(PasswordKey) in errs
  {
    StringField(IdentifierKey, Lookup(body, IdentifierKey), [])
      + StringField(PasswordKey, Lookup(body, PasswordKey), [])
  }

  /**
   * `createRegisterSchema(config)`: a well-formed `email`, a `username` and a
   * `password` the password rules accept. There is no `noUnknown()`, so any
   * other key (such as `provider`) passes unchecked.
   */
  function RegisterErrors(body: Object, rules: PasswordRules, isEmail: JsString -> bool): (errs: seq<SchemaError>)
    ensures errs == [] <==>
      && IsFilled(Lookup(body, EmailKey)) && isEmail(Lookup(body, EmailKey).value.s)
      && IsFilled(Lookup(body, UsernameKey))
      && PasswordAccepted(Lookup(body, PasswordKey), rules)
  {
    EmailField(EmailKey, Lookup(body, EmailKey), isEmail)
      + StringField(UsernameKey, Lookup(body, UsernameKey), [])
      + PasswordField(Lookup(body, PasswordKey), rules)
  }

  /** `sendEmailConfirmationSchema`: a well-formed `email`. */
  function SendEmailConfirmationErrors(body: Object, isEmail: JsString -> bool): (errs: seq<SchemaError>)
    ensures errs == [] <==> IsFilled(Lookup(body, EmailKey)) && isEmail(Lookup(body, EmailKey).value.s)
  {
    EmailField(EmailKey, Lookup(body, EmailKey), isEmail)
  }

  /** `validateEmailConfirmationSchema`: a `confirmation` token. */
  function EmailConfirmationErrors(body: Object): (errs: seq<SchemaError>)
    ensures errs == [] <==> IsFilled(Lookup(body, ConfirmationKey))
  {
    StringField(ConfirmationKey, Lookup(body, ConfirmationKey), [])
  }

  const ForgotPasswordKeys: set<JsString> := {EmailKey}
  const ResetPasswordKeys: set<JsString> := {PasswordKey, PasswordConfirmationKey, CodeKey}
  const ChangePasswordKeys: set<JsString> := {PasswordKey, PasswordConfirmationKey, CurrentPasswordKey}

  /** `forgotPasswordSchema`: a well-formed `email` and no other key. */
  function ForgotPasswordErrors(body: Object, isEmail: JsString -> bool): (errs: seq<SchemaError>)
    ensures errs == [] <==>
      && (forall k :: k in Keys(body) ==> k in ForgotPasswordKeys)
      && IsFilled(Lookup(body, EmailKey)) && isEmail(Lookup(body, EmailKey).value.s)
    ensures (KeysOutside(Keys(body), ForgotPasswordKeys) != [])
              ==> UnknownKeys(KeysOutside(Keys(body), ForgotPasswordKeys)) in errs
  {
    NoUnknown(body, ForgotPasswordKeys) + EmailField(EmailKey, Lookup(body, EmailKey), isEmail)
  }

  /** `createResetPasswordSchema(config)`: `password`, a matching `passwordConfirmation`, a `code`, nothing else. */
  function ResetPasswordErrors(body: Object, rules: PasswordRules): (errs: seq<SchemaError>)
    ensures errs == [] <==>
      && (forall k :: k in Keys(body) ==> k in ResetPasswordKeys)
      && PasswordAccepted(Lookup(body, PasswordKey), rules)
      && Lookup(body, PasswordConfirmationKey) == Lookup(body, PasswordKey)
      && IsFilled(Lookup(body, CodeKey))
    ensures (Lookup(body, PasswordConfirmationKey).Some? && Lookup(body, PasswordConfirmationKey) != Lookup(body, PasswordKey))
              ==> Failed(PasswordConfirmationKey, MismatchMessage) in errs
    ensures (KeysOutside(Keys(body), ResetPasswordKeys) != [])
              ==> UnknownKeys(KeysOutside(Keys(body), ResetPasswordKeys)) in errs
    ensures Lookup(body, CodeKey).None? ==> Required(CodeKey) in errs
  {
    var password := Lookup(body, PasswordKey);
    NoUnknown(body, ResetPasswordKeys)
      + PasswordField(password, rules)
      + PasswordConfirmationField(Lookup(body, PasswordConfirmationKey), password)
      + StringField(CodeKey, Lookup(body, CodeKey), [])
  }

  /** `createChangePasswordSchema(config)`: `password`, a matching `passwordConfirmation`, `currentPassword`, nothing else. */
  function ChangePasswordErrors(body: Object, rules: PasswordRules): (errs: seq<SchemaError>)
    ensures errs == [] <==>
      && (forall k :: k in Keys(body) ==> k in ChangePasswordKeys)
      && PasswordAccepted(Lookup(body, PasswordKey), rules)
      && Lookup(body, PasswordConfirmationKey) == Lookup(body, PasswordKey)
      && IsFilled(Lookup(body, CurrentPasswordKey))
    ensures (Lookup(body, PasswordConfirmationKey).Some? && Lookup(body, PasswordConfirmationKey) != Lookup(body, PasswordKey))
              ==> Failed(PasswordConfirmationKey, MismatchMessage) in errs
    ensures (KeysOutside(Keys(body), ChangePasswordKeys) != [])
              ==> UnknownKeys(KeysOutside(Keys(body), ChangePasswordKeys)) in errs
    ensures Lookup(body, CurrentPasswordKey).None? ==> Required(CurrentPasswordKey) in errs
  {
    var password := Lookup(body, PasswordKey);
    NoUnknown(body, ChangePasswordKeys)
      + PasswordField(password, rules)
      + PasswordConfirmationField(Lookup(body, PasswordConfirmationKey), password)
      + StringField(CurrentPasswordKey, Lookup(body, CurrentPasswordKey), [])
  }

  /**
   * The three password fields are one rule: a password the register schema
   * accepts is accepted by the reset and change schemas too, under the same
   * configuration, once it is confirmed and the other required field is given.
   */
  lemma PasswordRuleShared(body: Object, rules: PasswordRules, isEmail: JsString -> bool, other: JsString)
    requires RegisterErrors(body, rules, isEmail) == []
    requires other != []
    ensures var pw := Lookup(body, PasswordKey).value;
      && ResetPasswordErrors([Field(PasswordKey, pw), Field(PasswordConfirmationKey, pw), Field(CodeKey, Str(other))], rules) == []
      && ChangePasswordErrors([Field(PasswordKey, pw), Field(PasswordConfirmationKey, pw), Field(CurrentPasswordKey, Str(other))], rules) == []
  {
    var pw := Lookup(body, PasswordKey).value;
    assert PasswordAccepted(Some(pw), rules);
    KeyLengths();
    var reset := [Field(PasswordKey, pw), Field(PasswordConfirmationKey, pw), Field(CodeKey, Str(other))];
    ThreeFieldObject(PasswordKey, PasswordConfirmationKey, CodeKey, pw, pw, Str(other));
    assert forall k :: k in Keys(reset) ==> k in ResetPasswordKeys;
    assert IsFilled(Lookup(reset, CodeKey));
    var change := [Field(PasswordKey, pw), Field(PasswordConfirmationKey, pw), Field(CurrentPasswordKey, Str(other))];
    ThreeFieldObject(PasswordKey, PasswordConfirmationKey, CurrentPasswordKey, pw, pw, Str(other));
    assert forall k :: k in Keys(change) ==> k in ChangePasswordKeys;
    assert IsFilled(Lookup(change, CurrentPasswordKey));
  }

  /** At the limit: an ASCII password passes with 72 characters and fails with 73. */
  lemma AsciiPasswordLimit(s: JsString)
    requires forall i :: 0 <= i < |s| ==> s[i] < 0x80
    ensures ByteLengthTest(PasswordKey, Some(s)) == [] <==> |s| <= 72
  {
    Utf8.AsciiByteLength(s);
  }

  /** At the limit: a password of two-byte characters passes with 36 characters and fails with 37. */
  lemma TwoBytePasswordLimit(s: JsString)
    requires forall i :: 0 <= i < |s| ==> 0x80 <= s[i] < 0x800
    ensures ByteLengthTest(PasswordKey, Some(s)) == [] <==> |s| <= 36
  {
    Utf8.TwoByteLength(s);
  }

  lemma KeyLengths()
    ensures |PasswordKey| == 8 && |PasswordConfirmationKey| == 20 && |CodeKey| == 4 && |CurrentPasswordKey| == 15
  {
  }

  /** Reading back the properties of a three-property object literal with distinct keys. */
  lemma ThreeFieldObject(k1: JsString, k2: JsString, k3: JsString, v1: Value, v2: Value, v3: Value)
    requires k1 != k2 && k1 != k3 && k2 != k3
    ensures var o := [Field(k1, v1), Field(k2, v2), Field(k3, v3)];
      && Keys(o) == [k1, k2, k3]
      && Lookup(o, k1) == Some(v1) && Lookup(o, k2) == Some(v2) && Lookup(o, k3) == Some(v3)
  {
    var o := [Field(k1, v1), Field(k2, v2), Field(k3, v3)];
    var o2 := [Field(k2, v2), Field(k3, v3)];
    var o3 := [Field(k3, v3)];
    assert o[1..] == o2 && o2[1..] == o3 && o3[1..] == [];
    assert Lookup(o3, k3) == Some(v3);
    assert Lookup(o2, k3) == Lookup(o3, k3);
    assert Lookup(o, k3) == Lookup(o2, k3);
    assert Lookup(o2, k2) == Some(v2);
    assert Lookup(o, k2) == Lookup(o2, k2);
  }
}
