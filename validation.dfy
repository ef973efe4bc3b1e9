/**
 * The Joi request schemas as data, the check Joi runs with its default
 * options (stop at the first error; keys in schema order, then keys the
 * schema does not declare), the messages the schemas attach to each
 * error, and the generic `validate` middleware.
 */
module Validation {
  import opened Common
  import opened Http

  datatype Format = Plain | EmailAddress | Plate

  /** What one schema key accepts. */
  datatype Kind =
    | Text(min: nat, max: Option<nat>, format: Format)  // Joi.string(), .min, .max, .email() / .pattern()
    | OneOf(choices: seq<string>)                        // Joi.string().valid(...)
    | WholeNumber(least: int, most: int)                 // Joi.number().integer().min().max()
    | PositiveNumber                                     // Joi.number().positive()

  datatype Field = Field(key: string, kind: Kind, required: bool)

  type Schema = seq<Field>

  /** The Joi error each failed rule raises. */
  datatype Rule =
    | Required     // any.required
    | NotText      // string.base
    | EmptyText    // string.empty
    | TooShort     // string.min
    | TooLong      // string.max
    | NotEmail     // string.email
    | NotPlate     // string.pattern.base
    | NotNumber    // number.base
    | NotSafe      // number.unsafe
    | NotInteger   // number.integer
    | BelowMin     // number.min
    | AboveMax     // number.max
    | NotPositive  // number.positive
    | NotAllowed   // any.only
    | UnknownKey   // object.unknown

  datatype Issue = Issue(key: string, rule: Rule)

  predicate IsUpper(c: char) { 'A' <= c <= 'Z' }

  predicate IsDigit(c: char) { '0' <= c <= '9' }

  /** `/^[A-Z]{2}-\d{3}-[A-Z]{2}$/` (in JavaScript `$` matches only at the very end). */
  predicate IsPlate(s: string) {
    && |s| == 9
    && IsUpper(s[0]) && IsUpper(s[1]) && s[2] == '-'
    && IsDigit(s[3]) && IsDigit(s[4]) && IsDigit(s[5]) && s[6] == '-'
    && IsUpper(s[7]) && IsUpper(s[8])
  }

  function DigitChar(d: nat): char
    requires d < 10
  {
    (48 + d) as char
  }

  function DigitValue(c: char): nat
    requires IsDigit(c)
  {
    (c as int - 48) as nat
  }

  /** The registration number with letters `front`, number `n` written in three digits, letters `back`. */
  function PlateText(front: string, n: nat, back: string): string
    requires n < 1000
  {
    front + "-" + [DigitChar(n / 100), DigitChar(n / 10 % 10), DigitChar(n % 10)] + "-" + back
  }

  predicate UpperPair(s: string) {
    |s| == 2 && IsUpper(s[0]) && IsUpper(s[1])
  }

  /** The number a registration number carries in its three digits. */
  function PlateNumber(s: string): (n: nat)
    requires IsPlate(s)
    ensures n < 1000
  {
    DigitValue(s[3]) * 100 + DigitValue(s[4]) * 10 + DigitValue(s[5])
  }

  lemma DigitsOf(a: nat, b: nat, c: nat)
    requires a < 10 && b < 10 && c < 10
    ensures (a * 100 + b * 10 + c) / 100 == a
    ensures (a * 100 + b * 10 + c) / 10 % 10 == b
    ensures (a * 100 + b * 10 + c) % 10 == c
  {
  }

  /** Every string the pattern accepts is `PlateText` of its parts. */
  lemma PlateParts(s: string)
    requires IsPlate(s)
    ensures UpperPair(s[..2]) && UpperPair(s[7..])
    ensures s == PlateText(s[..2], PlateNumber(s), s[7..])
  {
    DigitsOf(DigitValue(s[3]), DigitValue(s[4]), DigitValue(s[5]));
    var t := PlateText(s[..2], PlateNumber(s), s[7..]);
    assert |t| == 9;
    forall i | 0 <= i < 9 ensures t[i] == s[i] {
    }
  }

  /** Every string `PlateText` writes passes the pattern. */
  lemma PlateTextMatches(front: string, n: nat, back: string)
    requires UpperPair(front) && n < 1000 && UpperPair(back)
    ensures IsPlate(PlateText(front, n, back))
    ensures PlateNumber(PlateText(front, n, back)) == n
  {
    var t := PlateText(front, n, back);
    assert t[3] == DigitChar(n / 100) && t[4] == DigitChar(n / 10 % 10) && t[5] == DigitChar(n % 10);
  }

  /** The pattern accepts exactly the strings `PlateText` writes. */
  lemma PlatePattern(s: string)
    ensures IsPlate(s) <==> exists front, n: nat, back :: UpperPair(front) && n < 1000 && UpperPair(back) && s == PlateText(front, n, back)
  {
    if IsPlate(s) {
      PlateParts(s);
    }
    forall front, n: nat, back | UpperPair(front) && n < 1000 && UpperPair(back) && s == PlateText(front, n, back)
      ensures IsPlate(s)
    {
      PlateTextMatches(front, n, back);
    }
  }

  /** `Number.MAX_SAFE_INTEGER`, 2^53 - 1: Joi refuses a number beyond it unless the schema says `unsafe()`. */
  const MaxSafeInteger: int := 9007199254740991

  predicate SafeNumber(x: real) {
    -MaxSafeInteger as real <= x <= MaxSafeInteger as real
  }

  /**
   * The first rule a present value `v` breaks, in Joi's order: allowed
   * values, type, emptiness or the safe range, then the rules as declared.
   */
  function ValueIssue(kind: Kind, v: Json, isEmail: string -> bool): Option<Rule> {
    match kind
    case OneOf(choices) =>
      if v.JString? && v.text in choices then None else Some(NotAllowed)
    case Text(min, max, format) =>
      if !v.JString? then Some(NotText)
      else if v.text == "" then Some(EmptyText)
      else if |v.text| < min then Some(TooShort)
      else if max.Some? && |v.text| > max.value then Some(TooLong)
      else if format == EmailAddress && !isEmail(v.text) then Some(NotEmail)
      else if format == Plate && !IsPlate(v.text) then Some(NotPlate)
      else None
    case WholeNumber(least, most) =>
      if !v.JNumber? then Some(NotNumber)
      else if !SafeNumber(v.number) then Some(NotSafe)
      else if v.number.Floor as real != v.number then Some(NotInteger)
      else if v.number < least as real then Some(BelowMin)
      else if v.number > most as real then Some(AboveMax)
      else None
    case PositiveNumber =>
      if !v.JNumber? then Some(NotNumber)
      else if !SafeNumber(v.number) then Some(NotSafe)
      else if v.number <= 0.0 then Some(NotPositive)
      else None
  }

  /** The first declared key, in schema order, whose value is missing or breaks a rule. */
  function FieldsIssue(fields: Schema, body: Body, isEmail: string -> bool): Option<Issue>
    decreases |fields|
  {
    if fields == [] then None
    else
      var f := fields[0];
      match Lookup(body, f.key)
      case None =>
        if f.required then Some(Issue(f.key, Required)) else FieldsIssue(fields[1..], body, isEmail)
      case Some(v) =>
        match ValueIssue(f.kind, v, isEmail)
        case Some(rule) => Some(Issue(f.key, rule))
        case None => FieldsIssue(fields[1..], body, isEmail)
  }

  predicate Declares(schema: Schema, key: string) {
    exists f :: f in schema && f.key == key
  }

  /** The first key of the body, in document order, that the schema does not declare. */
  function UndeclaredIssue(members: seq<Member>, schema: Schema): Option<Issue>
    decreases |members|
  {
    if members == [] then None
    else if !Declares(schema, members[0].0) then Some(Issue(members[0].0, UnknownKey))
    else UndeclaredIssue(members[1..], schema)
  }

  /** `schema.validate(body).error`, reduced to its one detail. */
  function Check(schema: Schema, body: Body, isEmail: string -> bool): Option<Issue> {
    match FieldsIssue(schema, body, isEmail)
    case Some(issue) => Some(issue)
    case None => UndeclaredIssue(body, schema)
  }

  /** A field is satisfied by the body's value for its key (or by its absence). */
  predicate Conforms(f: Field, v: Option<Json>, isEmail: string -> bool) {
    match v
    case None => !f.required
    case Some(x) => ValueIssue(f.kind, x, isEmail).None?
  }

  lemma {:induction false} FieldsIssueNone(fields: Schema, body: Body, isEmail: string -> bool)
    ensures FieldsIssue(fields, body, isEmail).None? <==>
            forall i :: 0 <= i < |fields| ==> Conforms(fields[i], Lookup(body, fields[i].key), isEmail)
  {
    if fields != [] {
      FieldsIssueNone(fields[1..], body, isEmail);
      assert forall i :: 1 <= i < |fields| ==> fields[i] == fields[1..][i - 1];
    }
  }

  lemma {:induction false} UndeclaredIssueNone(members: seq<Member>, schema: Schema)
    ensures UndeclaredIssue(members, schema).None? <==> forall i :: 0 <= i < |members| ==> Declares(schema, members[i].0)
  {
    if members != [] {
      UndeclaredIssueNone(members[1..], schema);
      assert forall i :: 1 <= i < |members| ==> members[i] == members[1..][i - 1];
    }
  }

  /**
   * A body passes a schema exactly when every declared field conforms and
   * the body has no undeclared key.
   */
  lemma CheckPasses(schema: Schema, body: Body, isEmail: string -> bool)
    ensures Check(schema, body, isEmail).None? <==>
            && (forall i :: 0 <= i < |schema| ==> Conforms(schema[i], Lookup(body, schema[i].key), isEmail))
            && (forall i :: 0 <= i < |body| ==> Declares(schema, body[i].0))
  {
    FieldsIssueNone(schema, body, isEmail);
    UndeclaredIssueNone(body, schema);
  }

  /** A field of a schema the body passes conforms. */
  lemma PassedFieldConforms(schema: Schema, body: Body, isEmail: string -> bool, f: Field)
    requires Check(schema, body, isEmail).None?
    requires f in schema
    ensures Conforms(f, Lookup(body, f.key), isEmail)
  {
    CheckPasses(schema, body, isEmail);
  }

  /** Every field before index `n` conforms to the body. */
  predicate ConformsBefore(schema: Schema, body: Body, isEmail: string -> bool, n: nat)
    requires n <= |schema|
  {
    forall j :: 0 <= j < n ==> Conforms(schema[j], Lookup(body, schema[j].key), isEmail)
  }

  /** The rule `rule` is a real defect of field `f` given the body's value `v` for its key. */
  predicate Breaks(f: Field, v: Option<Json>, isEmail: string -> bool, rule: Rule) {
    || (f.required && v.None? && rule == Required)
    || (v.Some? && ValueIssue(f.kind, v.value, isEmail) == Some(rule))
  }

  /** A field issue names a field that breaks the reported rule, and every field before it conforms. */
  lemma {:induction false} FieldsIssueAt(fields: Schema, body: Body, isEmail: string -> bool) returns (i: nat)
    requires FieldsIssue(fields, body, isEmail).Some?
    ensures i < |fields| && ConformsBefore(fields, body, isEmail, i)
    ensures var issue := FieldsIssue(fields, body, isEmail).value;
            issue.key == fields[i].key && Breaks(fields[i], Lookup(body, issue.key), isEmail, issue.rule)
  {
    var f := fields[0];
    if Lookup(body, f.key).None? && f.required {
      i := 0;
    } else if Lookup(body, f.key).Some? && ValueIssue(f.kind, Lookup(body, f.key).value, isEmail).Some? {
      i := 0;
    } else {
      var k := FieldsIssueAt(fields[1..], body, isEmail);
      i := k + 1;
      forall j | 0 <= j < i ensures Conforms(fields[j], Lookup(body, fields[j].key), isEmail) {
        if j > 0 {
          assert fields[j] == fields[1..][j - 1];
        }
      }
    }
  }

  /** An unknown-key issue names a body key the schema does not declare, and every key before it is declared. */
  lemma {:induction false} UndeclaredIssueAt(members: seq<Member>, schema: Schema) returns (k: nat)
    requires UndeclaredIssue(members, schema).Some?
    ensures k < |members| && !Declares(schema, members[k].0)
    ensures UndeclaredIssue(members, schema) == Some(Issue(members[k].0, UnknownKey))
    ensures forall m :: 0 <= m < k ==> Declares(schema, members[m].0)
  {
    if Declares(schema, members[0].0) {
      var j := UndeclaredIssueAt(members[1..], schema);
      k := j + 1;
      forall m | 0 <= m < k ensures Declares(schema, members[m].0) {
        if m > 0 {
          assert members[m] == members[1..][m - 1];
        }
      }
    } else {
      k := 0;
    }
  }

  /**
   * The issue a failed check reports is a real defect, and the first one:
   * either a declared field that is missing though required, or whose value
   * breaks a rule, with every field before it conforming; or, when every
   * declared field conforms, the first body key the schema does not declare.
   */
  lemma CheckIssue(schema: Schema, body: Body, isEmail: string -> bool)
    requires Check(schema, body, isEmail).Some?
    ensures var issue := Check(schema, body, isEmail).value;
            || (exists i :: 0 <= i < |schema| && ConformsBefore(schema, body, isEmail, i) && schema[i].key == issue.key
                            && Breaks(schema[i], Lookup(body, issue.key), isEmail, issue.rule))
            || (&& issue.rule == UnknownKey
                && ConformsBefore(schema, body, isEmail, |schema|)
                && exists k :: 0 <= k < |body| && body[k].0 == issue.key && !Declares(schema, issue.key)
                               && forall m :: 0 <= m < k ==> Declares(schema, body[m].0))
  {
    if FieldsIssue(schema, body, isEmail).Some? {
      var i := FieldsIssueAt(schema, body, isEmail);
    } else {
      FieldsIssueNone(schema, body, isEmail);
      var k := UndeclaredIssueAt(body, schema);
    }
  }

  /** A check never reports an unknown key while a declared field is missing or broken. */
  lemma UnknownKeyOnlyAfterFields(schema: Schema, body: Body, isEmail: string -> bool)
    requires Check(schema, body, isEmail).Some? && Check(schema, body, isEmail).value.rule == UnknownKey
    ensures forall i :: 0 <= i < |schema| ==> Conforms(schema[i], Lookup(body, schema[i].key), isEmail)
  {
    if FieldsIssue(schema, body, isEmail).Some? {
      var i := FieldsIssueAt(schema, body, isEmail);
      assert false;
    } else {
      FieldsIssueNone(schema, body, isEmail);
    }
  }

  // The schemas of the API.

  /** The vehicle schema; its year bound is fixed when the schema is built. */
  function VehicleSchema(startYear: int): Schema {
    [ Field("registrationNumber", Text(0, None, Plate), true),
      Field("make", Text(2, Some(50), Plain), true),
      Field("model", Text(2, Some(50), Plain), true),
      Field("year", WholeNumber(1900, startYear + 1), true),
      Field("rentPrice", PositiveNumber, true) ]
  }

  const RoleChoices: seq<string> := ["admin", "user"]

  const CreateUserSchema: Schema :=
    [ Field("name", Text(2, Some(100), Plain), true),
      Field("email", Text(0, None, EmailAddress), true),
      Field("password", Text(6, None, Plain), true),
      Field("role", OneOf(RoleChoices), false) ]

  const UpdateUserSchema: Schema :=
    [ Field("name", Text(2, Some(100), Plain), false),
      Field("email", Text(0, None, EmailAddress), false),
      Field("password", Text(6, None, Plain), false),
      Field("role", OneOf(RoleChoices), false) ]

  const LoginSchema: Schema :=
    [ Field("email", Text(0, None, EmailAddress), true),
      Field("password", Text(0, None, Plain), true) ]

  const RefreshTokenSchema: Schema :=
    [ Field("refreshToken", Text(0, None, Plain), true) ]

  /** The schema names the routes refer to. */
  datatype SchemaName = VehicleBody | CreateUserBody | UpdateUserBody | LoginBody | RefreshTokenBody

  function SchemaOf(name: SchemaName, startYear: int): Schema {
    match name
    case VehicleBody => VehicleSchema(startYear)
    case CreateUserBody => CreateUserSchema
    case UpdateUserBody => UpdateUserSchema
    case LoginBody => LoginSchema
    case RefreshTokenBody => RefreshTokenSchema
  }

  /** Joi's own label quoting, for the errors the schemas give no message of their own. */
  function Label(key: string): string {
    "\"" + key + "\""
  }

  /**
   * The message of an issue. Type, emptiness, safe-range and unknown-key
   * errors always get Joi's default text, since no schema overrides them;
   * the other rules get the schema's own text where it gives one.
   */
  function Message(issue: Issue): string {
    match issue.rule
    case NotText => Label(issue.key) + " must be a string"
    case EmptyText => Label(issue.key) + " is not allowed to be empty"
    case NotSafe => Label(issue.key) + " must be a safe number"
    case UnknownKey => Label(issue.key) + " is not allowed"
    case _ => SchemaMessage(issue)
  }

  /** The text of the schemas' `.messages()` blocks, or Joi's generic default. */
  function SchemaMessage(issue: Issue): string {
    match (issue.key, issue.rule)
    case ("registrationNumber", NotPlate) => "Le numéro d'immatriculation doit être au format XX-123-XX"
    case ("registrationNumber", Required) => "Le numéro d'immatriculation est requis"
    case ("make", TooShort) => "La marque doit contenir au moins 2 caractères"
    case ("make", TooLong) => "La marque ne peut pas dépasser 50 caractères"
    case ("make", Required) => "La marque est requise"
    case ("model", TooShort) => "Le modèle doit contenir au moins 2 caractères"
    case ("model", TooLong) => "Le modèle ne peut pas dépasser 50 caractères"
    case ("model", Required) => "Le modèle est requis"
    case ("year", NotNumber) => "L'année doit être un nombre"
    case ("year", NotInteger) => "L'année doit être un nombre entier"
    case ("year", BelowMin) => "L'année doit être supérieure à 1900"
    case ("year", AboveMax) => "L'année ne peut pas dépasser l'année suivante"
    case ("year", Required) => "L'année est requise"
    case ("rentPrice", NotNumber) => "Le prix de location doit être un nombre"
    case ("rentPrice", NotPositive) => "Le prix de location doit être positif"
    case ("rentPrice", Required) => "Le prix de location est requis"
    case ("name", TooShort) => "Le nom doit contenir au moins 2 caractères"
    case ("name", TooLong) => "Le nom ne peut pas dépasser 100 caractères"
    case ("name", Required) => "Le nom est requis"
    case ("email", NotEmail) => "L'email doit être un email valide"
    case ("email", Required) => "L'email est requis"
    case ("password", TooShort) => "Le mot de passe doit contenir au moins 6 caractères"
    case ("password", Required) => "Le mot de passe est requis"
    case ("role", NotAllowed) => "Le rôle doit être \"admin\" ou \"user\""
    case ("refreshToken", Required) => "Le token de rafraîchissement est requis"
    case (key, _) => Label(key) + " is invalid"
  }

  const InvalidData: string := "Données invalides"

  /** The `validate(schema)` middleware: 400 with the error messages, or `next()`. */
  function Validate(schema: Schema, body: Body, isEmail: string -> bool): (s: Step)
    ensures s.Continue? <==> Check(schema, body, isEmail).None?
    ensures !s.Raise?
    ensures s.Respond? ==>
      && s.response.status == 400
      && s.response.payload == Invalid(InvalidData, [Message(Check(schema, body, isEmail).value)])
  {
    match Check(schema, body, isEmail)
    case Some(issue) => Respond(Response(400, Invalid(InvalidData, [Message(issue)])))
    case None => Continue
  }

  // What the schemas accept, field by field.

  /** A year passes the vehicle schema's rule exactly when it is a whole number in [1900, startYear + 1]. */
  lemma YearRange(startYear: int, v: Json, isEmail: string -> bool)
    ensures ValueIssue(VehicleSchema(startYear)[3].kind, v, isEmail).None? <==>
            v.JNumber? && v.number.Floor as real == v.number && 1900 <= v.number.Floor <= startYear + 1
            && v.number.Floor <= MaxSafeInteger
  {
  }

  /**
   * A number outside the safe range, such as `rentPrice: 1e16`, breaks both
   * number kinds before any declared rule is tried.
   */
  lemma UnsafeNumberRefused(kind: Kind, x: real, isEmail: string -> bool)
    requires kind.WholeNumber? || kind.PositiveNumber?
    requires !SafeNumber(x)
    ensures ValueIssue(kind, JNumber(x), isEmail) == Some(NotSafe)
  {
  }

  /** A vehicle body whose `rentPrice` is beyond the safe range gets the 400, not `next()`. */
  lemma UnsafeRentPriceRefused(startYear: int, body: Body, isEmail: string -> bool, x: real)
    requires Lookup(body, "rentPrice") == Some(JNumber(x)) && !SafeNumber(x)
    ensures Validate(VehicleSchema(startYear), body, isEmail).Respond?
  {
    var schema := VehicleSchema(startYear);
    assert schema[4].key == "rentPrice";
    assert !Conforms(schema[4], Lookup(body, schema[4].key), isEmail);
    CheckPasses(schema, body, isEmail);
  }

  /**
   * Every field the update schema declares carries the creation schema's
   * rules; only presence differs. So a body carrying all four keys gets
   * the same verdict from both.
   */
  lemma {:induction false} SameRulesSameVerdict(create: Schema, update: Schema, body: Body, isEmail: string -> bool)
    requires |create| == |update|
    requires forall i :: 0 <= i < |create| ==> create[i].key == update[i].key && create[i].kind == update[i].kind
    requires forall i :: 0 <= i < |create| ==> Lookup(body, create[i].key).Some?
    ensures FieldsIssue(create, body, isEmail) == FieldsIssue(update, body, isEmail)
    decreases |create|
  {
    if create != [] {
      assert forall i :: 0 <= i < |create[1..]| ==> create[1..][i] == create[i + 1] && update[1..][i] == update[i + 1];
      SameRulesSameVerdict(create[1..], update[1..], body, isEmail);
    }
  }

  lemma UpdateMatchesCreateOnFullBodies(body: Body, isEmail: string -> bool)
    requires forall i :: 0 <= i < |CreateUserSchema| ==> Lookup(body, CreateUserSchema[i].key).Some?
    ensures Check(CreateUserSchema, body, isEmail) == Check(UpdateUserSchema, body, isEmail)
  {
    SameRulesSameVerdict(CreateUserSchema, UpdateUserSchema, body, isEmail);
    assert forall k :: Declares(CreateUserSchema, k) <==> Declares(UpdateUserSchema, k) by {
      forall k ensures Declares(CreateUserSchema, k) ==> Declares(UpdateUserSchema, k) {
        if Declares(CreateUserSchema, k) {
          var f :| f in CreateUserSchema && f.key == k;
          var i :| 0 <= i < |CreateUserSchema| && CreateUserSchema[i] == f;
          assert UpdateUserSchema[i].key == k;
        }
      }
      forall k ensures Declares(UpdateUserSchema, k) ==> Declares(CreateUserSchema, k) {
        if Declares(UpdateUserSchema, k) {
          var f :| f in UpdateUserSchema && f.key == k;
          var i :| 0 <= i < |UpdateUserSchema| && UpdateUserSchema[i] == f;
          assert CreateUserSchema[i].key == k;
        }
      }
    }
    UndeclaredSameKeys(body, CreateUserSchema, UpdateUserSchema);
  }

  lemma {:induction false} UndeclaredSameKeys(members: seq<Member>, s1: Schema, s2: Schema)
    requires forall k :: Declares(s1, k) <==> Declares(s2, k)
    ensures UndeclaredIssue(members, s1) == UndeclaredIssue(members, s2)
    decreases |members|
  {
    if members != [] {
      UndeclaredSameKeys(members[1..], s1, s2);
    }
  }

  /** The empty body passes the update schema: no key is required. */
  lemma EmptyUpdatePasses(isEmail: string -> bool)
    ensures Check(UpdateUserSchema, [], isEmail).None?
  {
    CheckPasses(UpdateUserSchema, [], isEmail);
  }

  /** A login body missing its email or its password never passes. */
  lemma LoginNeedsBoth(body: Body, isEmail: string -> bool)
    requires Lookup(body, "email").None? || Lookup(body, "password").None?
    ensures Check(LoginSchema, body, isEmail).Some?
  {
    CheckPasses(LoginSchema, body, isEmail);
    assert LoginSchema[0].key == "email" && LoginSchema[1].key == "password";
  }
  /** The keys a schema marks `.required()`. */
  function RequiredKeys(schema: Schema): set<string> {
    set i | 0 <= i < |schema| && schema[i].required :: schema[i].key
  }

  /** A body without a key its schema requires never passes. */
  lemma MissingRequiredRefused(schema: Schema, body: Body, isEmail: string -> bool, key: string)
    requires key in RequiredKeys(schema) && Lookup(body, key).None?
    ensures Check(schema, body, isEmail).Some?
  {
    var i :| 0 <= i < |schema| && schema[i].required && schema[i].key == key;
    CheckPasses(schema, body, isEmail);
    assert !Conforms(schema[i], Lookup(body, schema[i].key), isEmail);
  }

  /**
   * What each schema requires: every vehicle field, name, email and
   * password to register, nothing to update, email and password to log in,
   * and the token to refresh.
   */
  lemma SchemaRequirements(startYear: int)
    ensures RequiredKeys(VehicleSchema(startYear)) == {"registrationNumber", "make", "model", "year", "rentPrice"}
    ensures RequiredKeys(CreateUserSchema) == {"name", "email", "password"}
    ensures RequiredKeys(UpdateUserSchema) == {}
    ensures RequiredKeys(LoginSchema) == {"email", "password"}
    ensures RequiredKeys(RefreshTokenSchema) == {"refreshToken"}
  {
    var v := VehicleSchema(startYear);
    assert v[0].key == "registrationNumber" && v[1].key == "make" && v[2].key == "model";
    assert v[3].key == "year" && v[4].key == "rentPrice";
    assert CreateUserSchema[0].key == "name" && CreateUserSchema[1].key == "email";
    assert CreateUserSchema[2].key == "password";
    assert LoginSchema[0].key == "email" && LoginSchema[1].key == "password";
    assert RefreshTokenSchema[0].key == "refreshToken";
  }
}
