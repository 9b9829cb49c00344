/** The OpenAPI request-validation middleware (pkg/validation/validator.go): the
    pass-through rule, the error classification and the error-message rewriting.
    Route lookup and schema validation belong to kin-openapi and enter as inputs. */
module Validation {
  import opened Text
  import opened Http
  import opened Wrappers

  const SchemaMismatch := "doesn't match schema"
  const SchemaMismatchText := "does not match the required format"
  const ErrorAt := "Error at"
  const ErrorInField := "Error in field"
  const PropertyUpper := "Property"
  const FieldUpper := "Field"
  const Minimum := "minimum"
  const MustBeAtLeast := "must be at least"
  const EmailInvalid := "Email address format is invalid"

  /** The first four steps of `formatErrorMessage`: three unconditional replacements and
      the `minimum` replacement guarded by a containment test. */
  function Rewrite(message: string): string {
    var m1 := ReplaceAll(message, SchemaMismatch, SchemaMismatchText);
    var m2 := ReplaceAll(m1, ErrorAt, ErrorInField);
    var m3 := ReplaceAll(m2, PropertyUpper, FieldUpper);
    if Contains(m3, Minimum) then ReplaceAll(m3, Minimum, MustBeAtLeast) else m3
  }

  /** The last two steps of `formatErrorMessage`: a text mentioning both "format" and
      "email" collapses to one fixed message, and a text mentioning "required" has its
      lowercase "property" turned into "field". */
  function Conclude(m4: string): string {
    var m5 := if Contains(m4, "format") && Contains(m4, "email") then EmailInvalid else m4;
    if Contains(m5, "required") then ReplaceAll(m5, "property", "field") else m5
  }

  /** `formatErrorMessage`: `Rewrite`, then `Conclude`. */
  function FormatErrorMessage(message: string): string {
    Conclude(Rewrite(message))
  }

  /** The fixed email message mentions "format" but not "required", so the last step
      leaves it alone. */
  lemma EmailInvalidFacts()
    ensures Contains(EmailInvalid, "format") && !Contains(EmailInvalid, "required")
  {
    assert EmailInvalid == "Email address " + "format" + " is invalid";
    ContainsMiddle("Email address ", "format", " is invalid");
    MissingCharNotContained(EmailInvalid, "required", 'q');
  }

  /** A rewritten text mentioning both "format" and "email" yields exactly the fixed email
      message: the final "property" rewrite cannot touch it. */
  lemma EmailCollapse(m: string)
    requires Contains(m, "format") && Contains(m, "email")
    ensures Conclude(m) == EmailInvalid
  {
    EmailInvalidFacts();
  }

  /** The `minimum` guard is redundant: replacing an absent word changes nothing. */
  lemma MinimumGuardRedundant(message: string)
    ensures Rewrite(message) ==
      ReplaceAll(ReplaceAll(ReplaceAll(ReplaceAll(message, SchemaMismatch, SchemaMismatchText),
        ErrorAt, ErrorInField), PropertyUpper, FieldUpper), Minimum, MustBeAtLeast)
  {
  }

  /** A message that mentions none of the rewritten words, and not both "format" and
      "email", comes back unchanged. */
  lemma UntouchedMessage(message: string)
    requires !Contains(message, SchemaMismatch) && !Contains(message, ErrorAt)
    requires !Contains(message, PropertyUpper) && !Contains(message, Minimum)
    requires !Contains(message, "required")
    requires !(Contains(message, "format") && Contains(message, "email"))
    ensures FormatErrorMessage(message) == message
  {
    assert Rewrite(message) == message;
  }

  /** Both words the schema-mismatch rewrite introduces survive the later replacements. */
  lemma RewriteKeepsRequiredAndFormat(m: string)
    requires Contains(m, "required") && Contains(m, "format")
    ensures Contains(ReplaceAll(m, ErrorAt, ErrorInField), "required")
    ensures Contains(ReplaceAll(m, ErrorAt, ErrorInField), "format")
  {
    BigramFreeCannotStart("required", ErrorAt);
    BigramFreeCannotStart(ErrorAt, "required");
    BigramFreeCannotStart("format", ErrorAt);
    BigramFreeCannotStart(ErrorAt, "format");
    ContainsKept(m, ErrorAt, ErrorInField, "required");
    ContainsKept(m, ErrorAt, ErrorInField, "format");
  }

  lemma PropertyKeepsRequiredAndFormat(m: string)
    requires Contains(m, "required") && Contains(m, "format")
    ensures Contains(ReplaceAll(m, PropertyUpper, FieldUpper), "required")
    ensures Contains(ReplaceAll(m, PropertyUpper, FieldUpper), "format")
  {
    BigramFreeCannotStart("required", PropertyUpper);
    BigramFreeCannotStart(PropertyUpper, "required");
    BigramFreeCannotStart("format", PropertyUpper);
    BigramFreeCannotStart(PropertyUpper, "format");
    ContainsKept(m, PropertyUpper, FieldUpper, "required");
    ContainsKept(m, PropertyUpper, FieldUpper, "format");
  }

  lemma MinimumKeepsRequiredAndFormat(m: string)
    requires Contains(m, "required") && Contains(m, "format")
    ensures Contains(ReplaceAll(m, Minimum, MustBeAtLeast), "required")
    ensures Contains(ReplaceAll(m, Minimum, MustBeAtLeast), "format")
  {
    BigramFreeCannotStart("required", Minimum);
    BigramFreeCannotStart(Minimum, "required");
    BigramFreeCannotStart("format", Minimum);
    BigramFreeCannotStart(Minimum, "format");
    ContainsKept(m, Minimum, MustBeAtLeast, "required");
    ContainsKept(m, Minimum, MustBeAtLeast, "format");
  }

  /** A "doesn't match schema" message is rewritten to text that mentions "required" and
      "format", so it either collapses to the email message (when it mentions "email") or
      gets the property-to-field rewrite. */
  lemma SchemaMismatchOutcome(message: string)
    requires Contains(message, SchemaMismatch)
    ensures Contains(Rewrite(message), "required") && Contains(Rewrite(message), "format")
    ensures Contains(Rewrite(message), "email") ==> FormatErrorMessage(message) == EmailInvalid
    ensures !Contains(Rewrite(message), "email") ==>
      FormatErrorMessage(message) == ReplaceAll(Rewrite(message), "property", "field")
  {
    var m1 := ReplaceAll(message, SchemaMismatch, SchemaMismatchText);
    assert SchemaMismatchText == "does not match the " + "required" + " format";
    ContainsMiddle("does not match the ", "required", " format");
    assert SchemaMismatchText == "does not match the required " + "format" + "";
    ContainsMiddle("does not match the required ", "format", "");
    ContainsTransitive(m1, SchemaMismatchText, "required");
    ContainsTransitive(m1, SchemaMismatchText, "format");
    RewriteKeepsRequiredAndFormat(m1);
    var m2 := ReplaceAll(m1, ErrorAt, ErrorInField);
    PropertyKeepsRequiredAndFormat(m2);
    var m3 := ReplaceAll(m2, PropertyUpper, FieldUpper);
    MinimumKeepsRequiredAndFormat(m3);
    EmailInvalidFacts();
  }

  /** Lowercase "property" becomes "field" only in text that mentions "required". */
  lemma PropertyKeptWithoutRequired(m: string)
    requires !Contains(m, "required")
    requires !(Contains(m, "format") && Contains(m, "email"))
    requires Contains(m, "property")
    ensures Contains(Conclude(m), "property")
  {
  }

  /** The error a failed validation carries, by kind: kin-openapi's RequestError (naming a
      parameter, or the request body, or neither, and wrapping an inner error that may be
      nil), its SecurityRequirementsError, or any other error with its text. */
  datatype ValidationError =
    | RequestError(parameter: Option<string>, onBody: bool, inner: Option<string>)
    | SecurityError
    | OtherError(text: string)

  /** The message `handleValidationError` builds before formatting, or `None` where it
      calls `Error()` on a nil inner error and panics. */
  function ErrorPrefix(e: ValidationError): (msg: Option<string>)
    ensures msg.None? <==> e.RequestError? && e.inner.None?
    ensures e.RequestError? && e.inner.Some? && e.parameter.Some? ==>
      msg == Some("Parameter validation failed for '" + e.parameter.value + "': " + e.inner.value)
    ensures e.RequestError? && e.inner.Some? && e.parameter.None? && e.onBody ==>
      msg == Some("Request body validation failed: " + e.inner.value)
    ensures e.RequestError? && e.inner.Some? && e.parameter.None? && !e.onBody ==>
      msg == Some("Request validation failed: " + e.inner.value)
    ensures e.SecurityError? ==> msg == Some("Security requirements not met")
    ensures e.OtherError? ==> msg == Some(e.text)
  {
    match e
    case RequestError(parameter, onBody, inner) =>
      if inner.None? then None
      else if parameter.Some? then Some("Parameter validation failed for '" + parameter.value + "': " + inner.value)
      else if onBody then Some("Request body validation failed: " + inner.value)
      else Some("Request validation failed: " + inner.value)
    case SecurityError => Some("Security requirements not met")
    case OtherError(text) => Some(text)
  }

  /** `handleValidationError`: 400 with a single "error" entry holding the formatted
      message; a request error with a nil inner error panics, and `middleware.Recover`
      turns the panic into Echo's 500. */
  function HandleValidationError(e: ValidationError): (r: Response)
    ensures ErrorPrefix(e).Some? ==>
      r.status == StatusBadRequest && r.body == ErrorJson(FormatErrorMessage(ErrorPrefix(e).value))
    ensures e.RequestError? && e.inner.None? ==> r == RecoveredPanic
    ensures r.status == StatusBadRequest <==> !(e.RequestError? && e.inner.None?)
  {
    match ErrorPrefix(e)
    case None => RecoveredPanic
    case Some(msg) => Response(StatusBadRequest, ErrorJson(FormatErrorMessage(msg)))
  }

  /** What the middleware does with a request: hand it to the next handler or answer. */
  datatype Verdict = Next | Reject(response: Response)

  /** `Validate`: a request no route matches goes to the next handler unvalidated;
      a routed request is rejected exactly when validation reports an error. */
  function Validate(routeFound: bool, validation: Option<ValidationError>): (v: Verdict)
    ensures !routeFound ==> v == Next
    ensures routeFound ==> (v.Reject? <==> validation.Some?)
    ensures v.Reject? ==> v.response == HandleValidationError(validation.value)
  {
    if !routeFound then Next
    else if validation.Some? then Reject(HandleValidationError(validation.value))
    else Next
  }

  const SecurityMessage := "Security requirements not met"

  /** Characters the security message lacks, each one occurring in a rewritten word. */
  lemma SecurityMessageLacksChars()
    ensures '\'' !in SecurityMessage && 'E' !in SecurityMessage && 'P' !in SecurityMessage
  {
  }

  lemma SecurityMessageLacksLetters()
    ensures 'd' !in SecurityMessage && 'f' !in SecurityMessage
  {
  }

  /** No position of the security message starts with "mi". */
  lemma SecurityMessageLacksMinimum()
    ensures !Contains(SecurityMessage, Minimum)
  {
    assert BigramFree(SecurityMessage, Minimum, 25);
    assert BigramFree(SecurityMessage, Minimum, 20);
    assert BigramFree(SecurityMessage, Minimum, 15);
    assert BigramFree(SecurityMessage, Minimum, 10);
    assert BigramFree(SecurityMessage, Minimum, 5);
    BigramFreeCannotStart(SecurityMessage, Minimum);
    ContainsCanStart(SecurityMessage, Minimum);
  }

  /** The security message contains none of the words `formatErrorMessage` looks for. */
  lemma SecurityMessageLacksTriggers()
    ensures !Contains(SecurityMessage, SchemaMismatch) && !Contains(SecurityMessage, ErrorAt)
    ensures !Contains(SecurityMessage, PropertyUpper) && !Contains(SecurityMessage, Minimum)
    ensures !Contains(SecurityMessage, "required") && !Contains(SecurityMessage, "format")
  {
    SecurityMessageLacksChars();
    SecurityMessageLacksLetters();
    SecurityMessageLacksMinimum();
    MissingCharNotContained(SecurityMessage, SchemaMismatch, '\'');
    MissingCharNotContained(SecurityMessage, ErrorAt, 'E');
    MissingCharNotContained(SecurityMessage, PropertyUpper, 'P');
    MissingCharNotContained(SecurityMessage, "required", 'd');
    MissingCharNotContained(SecurityMessage, "format", 'f');
  }

  /** A security failure is answered 400 with its prefix message untouched: the message
      mentions none of the words `formatErrorMessage` rewrites. */
  lemma SecurityErrorAnswer()
    ensures HandleValidationError(SecurityError) ==
      Response(StatusBadRequest, ErrorJson("Security requirements not met"))
    ensures Validate(true, Some(SecurityError)) == Reject(HandleValidationError(SecurityError))
  {
    SecurityMessageLacksTriggers();
    UntouchedMessage(SecurityMessage);
  }

  /** A routed request whose request error wraps a nil inner error gets Echo's recovered
      500, whatever parameter or body it names. */
  lemma NilInnerErrorRecovered(parameter: Option<string>, onBody: bool)
    ensures Validate(true, Some(RequestError(parameter, onBody, None))) == Reject(RecoveredPanic)
  {
  }

  /** A request error whose inner text reports a schema mismatch is answered 400 with the
      fixed email message when the rewritten text mentions "email", and otherwise with
      the rewritten text after its "property"-to-"field" rewrite. */
  lemma SchemaMismatchAnswer(e: ValidationError)
    requires e.RequestError? && e.inner.Some? && Contains(e.inner.value, SchemaMismatch)
    ensures var v := Validate(true, Some(e));
      var m4 := Rewrite(ErrorPrefix(e).value);
      v.Reject? && v.response.status == StatusBadRequest &&
      (Contains(m4, "email") ==> v.response.body == ErrorJson(EmailInvalid)) &&
      (!Contains(m4, "email") ==> v.response.body == ErrorJson(ReplaceAll(m4, "property", "field")))
  {
    var head :=
      if e.parameter.Some? then "Parameter validation failed for '" + e.parameter.value + "': "
      else if e.onBody then "Request body validation failed: "
      else "Request validation failed: ";
    assert ErrorPrefix(e).value == head + e.inner.value;
    ContainsAppendLeft(head, e.inner.value, SchemaMismatch);
    SchemaMismatchOutcome(ErrorPrefix(e).value);
  }
}
