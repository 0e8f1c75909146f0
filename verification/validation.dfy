/**
 * The validator of the registration handler: five stages run in a fixed order
 * over the untrusted JSON body, and the first failing stage produces the one
 * error record the client sees.
 *
 * Each stage is written the way the handler writes it (a `find` over a field
 * list) and its contract compares it with a reference written out field by
 * field, in declaration order.
 */
module Validation {
  import opened Wrappers
  import opened Json
  import opened Builtins
  import opened Messages

  /** The client-facing error record `{code, reason, message, location}`. */
  datatype ErrorRecord = ErrorRecord(code: int, reason: string, message: string, location: string)
  {
    function ToJson(): Object {
      map["code" := JNumber(code), "reason" := JString(reason),
          "message" := JString(message), "location" := JString(location)]
    }
  }

  /** The fields the next step of registration works with. */
  datatype Fields = Fields(username: string, email: string, password: string,
                           firstName: string, lastName: string)

  /** A length rule of `sizedFields`. */
  datatype SizeRule = SizeRule(field: string, min: Option<nat>, max: Option<nat>)

  const RequiredFields: seq<string> := ["username", "email", "password"]
  const StringFields: seq<string> := ["username", "password", "firstName", "lastName", "email"]
  const ExplicitlyTrimmedFields: seq<string> := ["username", "password"]
  /** Password at most 72: bcrypt ignores everything after the 72nd character. */
  const SizedFields: seq<SizeRule> :=
    [SizeRule("username", Some(1), None), SizeRule("password", Some(6), Some(72))]

  /** Every error the handler reports to the client has status 422 and reason ValidationError. */
  function Reject(message: string, location: string): ErrorRecord {
    ErrorRecord(422, "ValidationError", message, location)
  }

  // ------------------------------------------------------------ body access

  /** The field is present and `typeof` it is not `'string'`. */
  predicate Mistyped(body: Object, f: string) {
    f in body && !IsString(body[f])
  }

  /** The string held by field `f`; the empty string when it holds none.
      The handler only reads a field this way after the type stage has passed. */
  function Text(body: Object, f: string): string {
    if f in body && IsString(body[f]) then body[f].s else ""
  }

  predicate HasRequired(body: Object) {
    "username" in body && "email" in body && "password" in body
  }

  predicate AllStrings(body: Object) {
    && !Mistyped(body, "username") && !Mistyped(body, "password")
    && !Mistyped(body, "firstName") && !Mistyped(body, "lastName")
    && !Mistyped(body, "email")
  }

  /** What the whitespace and length stages demand of the body. */
  predicate Typed(body: Object) {
    HasRequired(body) && AllStrings(body)
  }

  // ------------------------------------------------------------ references

  /** The first absent required field, in the order username, email, password. */
  function FirstAbsent(body: Object): Option<string> {
    if "username" !in body then Some("username")
    else if "email" !in body then Some("email")
    else if "password" !in body then Some("password")
    else None
  }

  /** The first present non-string field, in the order username, password,
      firstName, lastName, email. */
  function FirstMistyped(body: Object): Option<string> {
    if Mistyped(body, "username") then Some("username")
    else if Mistyped(body, "password") then Some("password")
    else if Mistyped(body, "firstName") then Some("firstName")
    else if Mistyped(body, "lastName") then Some("lastName")
    else if Mistyped(body, "email") then Some("email")
    else None
  }

  /** The first of username, password that starts or ends with whitespace. */
  function FirstUntrimmed(body: Object): Option<string> {
    if !IsTrimmed(Text(body, "username")) then Some("username")
    else if !IsTrimmed(Text(body, "password")) then Some("password")
    else None
  }

  /** Everything the validator demands of an acceptable body. */
  predicate Acceptable(body: Object) {
    && HasRequired(body)
    && AllStrings(body)
    && IsTrimmed(Text(body, "username")) && IsTrimmed(Text(body, "password"))
    && |Text(body, "username")| >= 1
    && 6 <= |Text(body, "password")| <= 72
  }

  // ------------------------------------------------------------ stages

  /** Stage 1, `requiredFields.find(...)`: the first absent required field. */
  function MissingField(body: Object): (r: Option<string>)
    ensures r == FirstAbsent(body)
    ensures r.None? <==> HasRequired(body)
  {
    var i := FindFirst(RequiredFields, f => f !in body);
    if i < |RequiredFields| then Some(RequiredFields[i]) else None
  }

  /** Stage 2, `stringFields.find(...)`: the first present field that is not a string. */
  function NonStringField(body: Object): (r: Option<string>)
    ensures r == FirstMistyped(body)
    ensures r.Some? ==> r.value in body
    ensures r.None? <==> AllStrings(body)
  {
    var i := FindFirst(StringFields, f => f in body && !IsString(body[f]));
    if i < |StringFields| then Some(StringFields[i]) else None
  }

  /** Stage 3, `explicityTrimmedFields.find(...)`: the first of username and
      password that differs from its trimmed form. */
  function NonTrimmedField(body: Object): (r: Option<string>)
    requires Typed(body)
    ensures r == FirstUntrimmed(body)
    ensures r.None? <==> IsTrimmed(Text(body, "username")) && IsTrimmed(Text(body, "password"))
  {
    var username, password := Text(body, "username"), Text(body, "password");
    var untrimmed := (f: string) => Trim(Text(body, f)) != Text(body, f);
    assert untrimmed(ExplicitlyTrimmedFields[0]) <==> !IsTrimmed(username);
    assert untrimmed(ExplicitlyTrimmedFields[1]) <==> !IsTrimmed(password);
    var i := FindFirst(ExplicitlyTrimmedFields, untrimmed);
    if i < |ExplicitlyTrimmedFields| then Some(ExplicitlyTrimmedFields[i]) else None
  }

  /** Stage 4, `tooSmallField`: the first sized field whose trimmed length is
      below its minimum. */
  function TooSmallField(body: Object): (r: Option<SizeRule>)
    requires Typed(body)
    ensures
      var u, p := |Trim(Text(body, "username"))|, |Trim(Text(body, "password"))|;
      && (u < 1 ==> r == Some(SizeRule("username", Some(1), None)))
      && (u >= 1 && p < 6 ==> r == Some(SizeRule("password", Some(6), Some(72))))
      && (r.None? <==> u >= 1 && p >= 6)
  {
    var i := FindFirst(SizedFields, (rule: SizeRule) =>
                         rule.min.Some? && |Trim(Text(body, rule.field))| < rule.min.value);
    if i < |SizedFields| then Some(SizedFields[i]) else None
  }

  /** Stage 4, `tooLargeField`: the first sized field whose trimmed length is
      above its maximum; only the password has one. */
  function TooLargeField(body: Object): (r: Option<SizeRule>)
    requires Typed(body)
    ensures r.Some? <==> |Trim(Text(body, "password"))| > 72
    ensures r.Some? ==> r.value == SizeRule("password", Some(6), Some(72))
  {
    var i := FindFirst(SizedFields, (rule: SizeRule) =>
                         rule.max.Some? && |Trim(Text(body, rule.field))| > rule.max.value);
    if i < |SizedFields| then Some(SizedFields[i]) else None
  }

  /** Stage 4's report: a too-short field is reported before a too-long one. */
  function SizeError(body: Object): (r: Option<ErrorRecord>)
    requires Typed(body)
    ensures
      var u, p := |Trim(Text(body, "username"))|, |Trim(Text(body, "password"))|;
      && (u < 1 ==>
            r == Some(Reject("Must be at least 1 characters long", "username")))
      && (u >= 1 && p < 6 ==>
            r == Some(Reject("Must be at least 6 characters long", "password")))
      && (u >= 1 && p > 72 ==>
            r == Some(Reject("Must be at most 72 characters long", "password")))
      && (r.None? <==> u >= 1 && 6 <= p <= 72)
    ensures r.Some? ==> r.value.code == 422 && r.value.reason == "ValidationError"
  {
    var tooSmall, tooLarge := TooSmallField(body), TooLargeField(body);
    SizeMessages();
    if tooSmall.Some? then Some(Reject(TooShortMessage(tooSmall.value.min.value), tooSmall.value.field))
    else if tooLarge.Some? then Some(Reject(TooLongMessage(tooLarge.value.max.value), tooLarge.value.field))
    else None
  }

  /** Stage 5: firstName and lastName default to "" and are trimmed. */
  function Normalize(body: Object): (f: Fields)
    requires Typed(body)
    ensures f.username == body["username"].s && f.password == body["password"].s
    ensures f.email == body["email"].s
    ensures "firstName" !in body ==> f.firstName == ""
    ensures "firstName" in body ==> f.firstName == Trim(body["firstName"].s)
    ensures "lastName" !in body ==> f.lastName == ""
    ensures "lastName" in body ==> f.lastName == Trim(body["lastName"].s)
  {
    var firstName := if "firstName" in body then Text(body, "firstName") else "";
    var lastName := if "lastName" in body then Text(body, "lastName") else "";
    Fields(Text(body, "username"), Text(body, "email"), Text(body, "password"),
           Trim(firstName), Trim(lastName))
  }

  // ------------------------------------------------------------ pipeline

  /** The success guarantee: username and password pass through unchanged,
      already trimmed and within bounds; the names are defaulted and trimmed. */
  predicate NormalizedFrom(f: Fields, body: Object)
    requires Typed(body)
  {
    && f.username == body["username"].s && IsTrimmed(f.username)
    && f.password == body["password"].s && IsTrimmed(f.password)
    && 1 <= |f.username| && 6 <= |f.password| <= 72
    && f.email == body["email"].s
    && f.firstName == (if "firstName" in body then Trim(body["firstName"].s) else "")
    && f.lastName == (if "lastName" in body then Trim(body["lastName"].s) else "")
  }

  /** Stages 3 to 5, on a body whose listed fields are known to be strings. */
  function ValidateTyped(body: Object): (r: Result<Fields, ErrorRecord>)
    requires Typed(body)
    ensures r.Failure? ==> r.error.code == 422 && r.error.reason == "ValidationError"
    ensures r.Success? ==> NormalizedFrom(r.value, body)
  {
    var nonTrimmed := NonTrimmedField(body);
    if nonTrimmed.Some? then Failure(Reject(WhitespaceMessage, nonTrimmed.value))
    else
      var sizeError := SizeError(body);
      if sizeError.Some? then Failure(sizeError.value)
      else Success(Normalize(body))
  }

  /** The whole validator: the stages run in order and the first failing one wins. */
  function Validate(body: Object): (r: Result<Fields, ErrorRecord>)
    // a single report, always client-facing
    ensures r.Failure? ==> r.error.code == 422 && r.error.reason == "ValidationError"
    ensures r.Success? ==> Typed(body) && NormalizedFrom(r.value, body)
  {
    var missing := MissingField(body);
    if missing.Some? then Failure(Reject(MissingFieldMessage, missing.value))
    else
      var nonString := NonStringField(body);
      if nonString.Some? then Failure(Reject(WrongTypeMessage, nonString.value))
      else ValidateTyped(body)
  }

  // ------------------------------------------------------------ properties

  /** A missing required field is reported first, at the first absent one in
      the order username, email, password; nothing else is looked at. */
  lemma MissingFieldReported(body: Object)
    requires FirstAbsent(body).Some?
    ensures Validate(body) == Failure(Reject(MissingFieldMessage, FirstAbsent(body).value))
  {
  }

  /** With every required field present, the first present non-string field is
      reported, in the order username, password, firstName, lastName, email; an
      absent optional field is never reported. */
  lemma WrongTypeReported(body: Object)
    requires HasRequired(body) && FirstMistyped(body).Some?
    ensures Validate(body) == Failure(Reject(WrongTypeMessage, FirstMistyped(body).value))
    ensures Validate(body).error.location in body
  {
  }

  /** A username or password with surrounding whitespace is rejected, username
      first, whatever its trimmed form would have been. */
  lemma WhitespaceReported(body: Object)
    requires Typed(body) && FirstUntrimmed(body).Some?
    ensures Validate(body) == Failure(Reject(WhitespaceMessage, FirstUntrimmed(body).value))
  {
  }

  /** Length bounds on an already-trimmed username and password: username at
      least 1 with no upper bound, password 6 to 72, and a too-short field is
      reported before a too-long one. */
  lemma LengthBoundsReported(body: Object)
    requires Typed(body) && FirstUntrimmed(body).None?
    ensures
      var u, p := |body["username"].s|, |body["password"].s|;
      && (u == 0 ==>
            Validate(body) == Failure(Reject("Must be at least 1 characters long", "username")))
      && (u >= 1 && p < 6 ==>
            Validate(body) == Failure(Reject("Must be at least 6 characters long", "password")))
      && (u >= 1 && p > 72 ==>
            Validate(body) == Failure(Reject("Must be at most 72 characters long", "password")))
      && (u >= 1 && 6 <= p <= 72 ==> Validate(body).Success?)
  {
    assert Validate(body) == ValidateTyped(body);
    assert NonTrimmedField(body) == None;
    var username, password := body["username"].s, body["password"].s;
    assert Text(body, "username") == username && Trim(username) == username;
    assert Text(body, "password") == password && Trim(password) == password;
    var sizeError := SizeError(body);
    if sizeError.Some? {
      assert ValidateTyped(body) == Failure(sizeError.value);
    } else {
      assert ValidateTyped(body).Success?;
    }
  }

  /** The validator accepts exactly the acceptable bodies. */
  lemma AcceptsExactly(body: Object)
    ensures Validate(body).Success? <==> Acceptable(body)
  {
    if Typed(body) && FirstUntrimmed(body).None? {
      LengthBoundsReported(body);
    }
  }

  /** The body rewritten with the normalized names, as the handler stores them. */
  function Renamed(body: Object, f: Fields): Object {
    body["firstName" := JString(f.firstName)]["lastName" := JString(f.lastName)]
  }

  /** Normalizing is idempotent: a body that already carries the normalized
      names normalizes to the same fields. */
  lemma NormalizeIdempotent(body: Object)
    requires Typed(body)
    ensures Typed(Renamed(body, Normalize(body)))
    ensures Normalize(Renamed(body, Normalize(body))) == Normalize(body)
  {
  }

  /** A present name loses only surrounding whitespace: the stored name is
      trimmed and sits inside the given one with whitespace on either side. */
  lemma NormalizedNamesFromInput(body: Object)
    requires Typed(body)
    ensures IsTrimmed(Normalize(body).firstName) && IsTrimmed(Normalize(body).lastName)
    ensures "firstName" in body ==>
              SitsIn(Normalize(body).firstName, body["firstName"].s, TrimOffset(body["firstName"].s))
    ensures "lastName" in body ==>
              SitsIn(Normalize(body).lastName, body["lastName"].s, TrimOffset(body["lastName"].s))
  {
    if "firstName" in body {
      TrimRemovesOnlyEnds(body["firstName"].s);
    }
    if "lastName" in body {
      TrimRemovesOnlyEnds(body["lastName"].s);
    }
  }
}
