/**
 * ResponseService: the response-level pipeline. A decoded SAML response is parsed, its
 * signature is checked for the service-provider role, its InResponseTo is bound to the
 * expected request id, its issue instant is checked, and its top-level status is
 * dispatched: Responder goes through the sub-status table, Success through decryption and
 * the assertion translator, anything else is rejected.
 */
module ResponseService {
  import opened Failures
  import opened Saml

  /** The injected collaborators; `A` is the attribute record of a translated body. */
  datatype ResponseCollaborators<A> = ResponseCollaborators(
    /** StringToOpenSamlObjectTransformer: XML text to a Response, or an exception. */
    transform: string -> Result<Response>,
    /** SamlResponseSignatureValidator.validate. */
    validateResponseSignature: (Response, Role) -> Result<ValidatedResponse>,
    /** IssueInstantValidator.validate, which owns the clock and the freshness window. */
    validateIssueInstant: Option<Instant> -> Check,
    /** AssertionDecrypter.decryptAssertions. */
    decryptAssertions: ValidatedResponse -> Result<seq<Assertion>>,
    /** AssertionTranslator.translate(assertions, expectedInResponseTo, expectedLevelOfAssurance). */
    translate: (seq<Assertion>, string, LevelOfAssurance) -> Result<TranslatedResponseBody<A>>)

  /** The text Java prints for a possibly-null string. */
  function ShowNullable(s: Option<string>): string
  {
    if s.Some? then s.value else "null"
  }

  function InResponseToMessage(expected: string, was: Option<string>): string
  {
    "Expected InResponseTo to be " + expected + ", but was " + ShowNullable(was)
  }

  function UnknownStatusMessage(status: string): string
  {
    "Unknown SAML status: " + status
  }

  function UnknownSubStatusMessage(subStatus: string): string
  {
    "Unknown SAML sub-status: " + subStatus
  }

  const MISSING_SUB_STATUS_MESSAGE: string := "Missing status code for non-Success response"

  /** The second-level codes a Responder status may carry, and the scenario each means. */
  const NON_SUCCESS_SCENARIOS: map<string, Scenario> := map[
    NO_MATCH := NoMatch,
    REQUESTER := RequestError,
    NO_AUTHN_CONTEXT := Cancellation,
    AUTHN_FAILED := AuthenticationFailed]

  /** The inverse of the table: the sub-status that yields a scenario, if any does. */
  function SubStatusFor(scenario: Scenario): Option<string>
  {
    match scenario
    case NoMatch => Some(NO_MATCH)
    case RequestError => Some(REQUESTER)
    case Cancellation => Some(NO_AUTHN_CONTEXT)
    case AuthenticationFailed => Some(AUTHN_FAILED)
    case _ => None
  }

  /** A body that carries only a scenario: no pid, no level of assurance, no attributes. */
  predicate ScenarioOnly<A>(body: TranslatedResponseBody<A>)
  {
    body.pid.None? && body.levelOfAssurance.None? && body.attributes.None?
  }

  /** translateNonSuccessResponse: the Responder branch. */
  function TranslateNonSuccessResponse<A>(statusCode: StatusCode): (r: Result<TranslatedResponseBody<A>>)
    ensures statusCode.statusCode.None? ==> r == Err(SamlResponseValidation(MISSING_SUB_STATUS_MESSAGE))
    ensures r.Ok? <==> statusCode.statusCode.Some? && statusCode.statusCode.value.value in NON_SUCCESS_SCENARIOS
    ensures r.Ok? ==>
      (&& ScenarioOnly(r.value)
       && r.value.scenario == NON_SUCCESS_SCENARIOS[statusCode.statusCode.value.value]
       && SubStatusFor(r.value.scenario) == Some(statusCode.statusCode.value.value))
    ensures statusCode.statusCode.Some? && statusCode.statusCode.value.value !in NON_SUCCESS_SCENARIOS ==>
      r == Err(SamlResponseValidation(UnknownSubStatusMessage(statusCode.statusCode.value.value)))
  {
    match statusCode.statusCode
    case None => Err(SamlResponseValidation(MISSING_SUB_STATUS_MESSAGE))
    case Some(sub) =>
      if sub.value in NON_SUCCESS_SCENARIOS then
        SubStatusRoundTrip(sub.value);
        Ok(TranslatedResponseBody(NON_SUCCESS_SCENARIOS[sub.value], None, None, None))
      else
        Err(SamlResponseValidation(UnknownSubStatusMessage(sub.value)))
  }

  /** The checks that read the validated response; `rawInResponseTo` only feeds a message. */
  function CheckValidatedResponse<A>(
    c: ResponseCollaborators<A>, rawInResponseTo: Option<string>, validated: ValidatedResponse,
    expectedInResponseTo: string, expectedLevelOfAssurance: LevelOfAssurance): (r: Result<TranslatedResponseBody<A>>)
    ensures validated.InResponseTo() != Some(expectedInResponseTo) ==>
      r == Err(SamlResponseValidation(InResponseToMessage(expectedInResponseTo, rawInResponseTo)))
    ensures r.Ok? ==>
      validated.InResponseTo() == Some(expectedInResponseTo) && c.validateIssueInstant(validated.IssueInstant()).Pass?
    ensures r.Ok? ==>
      var statusCode := validated.GetStatus().statusCode;
      || (&& statusCode.value == RESPONDER && ScenarioOnly(r.value)
          && statusCode.statusCode.Some? && statusCode.statusCode.value.value in NON_SUCCESS_SCENARIOS)
      || (statusCode.value == SUCCESS && c.decryptAssertions(validated).Ok?)
  {
    if validated.InResponseTo() != Some(expectedInResponseTo) then
      Err(SamlResponseValidation(InResponseToMessage(expectedInResponseTo, rawInResponseTo)))
    else match c.validateIssueInstant(validated.IssueInstant())
      case Fail(e) => Err(e)
      case Pass =>
        var statusCode := validated.GetStatus().statusCode;
        if statusCode.value == RESPONDER then
          TranslateNonSuccessResponse(statusCode)
        else if statusCode.value == SUCCESS then
          match c.decryptAssertions(validated)
          case Err(e) => Err(e)
          case Ok(assertions) => c.translate(assertions, expectedInResponseTo, expectedLevelOfAssurance)
        else
          Err(SamlResponseValidation(UnknownStatusMessage(statusCode.value)))
  }

  /** convertTranslatedResponseBody. */
  function ConvertTranslatedResponseBody<A>(
    c: ResponseCollaborators<A>, decodedSamlResponse: string,
    expectedInResponseTo: string, expectedLevelOfAssurance: LevelOfAssurance): (r: Result<TranslatedResponseBody<A>>)
    ensures r.Ok? ==>
      && c.transform(decodedSamlResponse).Ok?
      && c.validateResponseSignature(c.transform(decodedSamlResponse).value, SpSsoDescriptor).Ok?
      && var validated := c.validateResponseSignature(c.transform(decodedSamlResponse).value, SpSsoDescriptor).value;
         && validated.InResponseTo() == Some(expectedInResponseTo)
         && c.validateIssueInstant(validated.IssueInstant()).Pass?
         && (validated.GetStatus().statusCode.value == RESPONDER || validated.GetStatus().statusCode.value == SUCCESS)
  {
    match c.transform(decodedSamlResponse)
    case Err(e) => Err(e)
    case Ok(response) =>
      match c.validateResponseSignature(response, SpSsoDescriptor)
      case Err(e) => Err(e)
      case Ok(validated) =>
        CheckValidatedResponse(c, response.inResponseTo, validated, expectedInResponseTo, expectedLevelOfAssurance)
  }

  // ---------------------------------------------------------------------------------------
  // The order of the checks

  /** Parsing is the first step: its failure is the result. */
  lemma ParseFailureIsFinal<A>(c: ResponseCollaborators<A>, raw: string, expected: string, loa: LevelOfAssurance)
    requires c.transform(raw).Err?
    ensures ConvertTranslatedResponseBody(c, raw, expected, loa) == Err(c.transform(raw).error)
  {
  }

  /**
   * The signature is validated with the SP role before anything in the response is read:
   * when it fails, that failure is the result whatever the response says.
   */
  lemma SignatureCheckedFirst<A>(c: ResponseCollaborators<A>, raw: string, expected: string, loa: LevelOfAssurance)
    requires c.transform(raw).Ok?
    requires c.validateResponseSignature(c.transform(raw).value, SpSsoDescriptor).Err?
    ensures ConvertTranslatedResponseBody(c, raw, expected, loa)
      == Err(c.validateResponseSignature(c.transform(raw).value, SpSsoDescriptor).error)
  {
  }

  /**
   * Every decision reads the validated response. Two parsed responses that the signature
   * validator turns into the same validated response lead to the same outcome; they can
   * differ only in the InResponseTo text quoted in the mismatch message, which the source
   * takes from the parsed response.
   */
  lemma DecisionsReadValidatedResponse<A>(
    c: ResponseCollaborators<A>, raw1: string, raw2: string, expected: string, loa: LevelOfAssurance)
    requires c.transform(raw1).Ok? && c.transform(raw2).Ok?
    requires c.validateResponseSignature(c.transform(raw1).value, SpSsoDescriptor)
      == c.validateResponseSignature(c.transform(raw2).value, SpSsoDescriptor)
    ensures var r1 := ConvertTranslatedResponseBody(c, raw1, expected, loa);
            var r2 := ConvertTranslatedResponseBody(c, raw2, expected, loa);
            r1 == r2 || (r1.Err? && r2.Err? && r1.error.SamlResponseValidation? && r2.error.SamlResponseValidation?
                         && c.validateResponseSignature(c.transform(raw1).value, SpSsoDescriptor).Ok?
                         && c.validateResponseSignature(c.transform(raw1).value, SpSsoDescriptor).value.InResponseTo()
                            != Some(expected))
  {
  }

  /** The checks that follow a trusted signature. */
  predicate SignatureTrusted<A>(c: ResponseCollaborators<A>, raw: string)
  {
    c.transform(raw).Ok? && c.validateResponseSignature(c.transform(raw).value, SpSsoDescriptor).Ok?
  }

  function Validated<A>(c: ResponseCollaborators<A>, raw: string): ValidatedResponse
    requires SignatureTrusted(c, raw)
  {
    c.validateResponseSignature(c.transform(raw).value, SpSsoDescriptor).value
  }

  /**
   * A mismatched InResponseTo fails the call before the issue instant, the status,
   * the decrypter or the translator play any part.
   */
  lemma InResponseToCheckedBeforeIssueInstant<A>(
    c: ResponseCollaborators<A>, raw: string, expected: string, loa: LevelOfAssurance,
    otherIssueInstant: Option<Instant> -> Check)
    requires SignatureTrusted(c, raw)
    requires Validated(c, raw).InResponseTo() != Some(expected)
    ensures ConvertTranslatedResponseBody(c, raw, expected, loa)
      == Err(SamlResponseValidation(InResponseToMessage(expected, c.transform(raw).value.inResponseTo)))
    ensures ConvertTranslatedResponseBody(c.(validateIssueInstant := otherIssueInstant), raw, expected, loa)
      == ConvertTranslatedResponseBody(c, raw, expected, loa)
  {
  }

  /** The issue-instant validator runs before the status is dispatched on. */
  lemma IssueInstantCheckedBeforeStatus<A>(c: ResponseCollaborators<A>, raw: string, expected: string, loa: LevelOfAssurance)
    requires SignatureTrusted(c, raw)
    requires Validated(c, raw).InResponseTo() == Some(expected)
    requires c.validateIssueInstant(Validated(c, raw).IssueInstant()).Fail?
    ensures ConvertTranslatedResponseBody(c, raw, expected, loa)
      == Err(c.validateIssueInstant(Validated(c, raw).IssueInstant()).error)
  {
  }

  /** All response-level checks passed; what remains is the status dispatch. */
  predicate ResponseChecksPass<A>(c: ResponseCollaborators<A>, raw: string, expected: string)
  {
    && SignatureTrusted(c, raw)
    && Validated(c, raw).InResponseTo() == Some(expected)
    && c.validateIssueInstant(Validated(c, raw).IssueInstant()).Pass?
  }

  function TopStatus<A>(c: ResponseCollaborators<A>, raw: string): StatusCode
    requires SignatureTrusted(c, raw)
  {
    Validated(c, raw).GetStatus().statusCode
  }

  /** A top-level status other than Responder and Success is rejected by name. */
  lemma UnknownStatusRejected<A>(c: ResponseCollaborators<A>, raw: string, expected: string, loa: LevelOfAssurance)
    requires ResponseChecksPass(c, raw, expected)
    requires TopStatus(c, raw).value != RESPONDER && TopStatus(c, raw).value != SUCCESS
    ensures ConvertTranslatedResponseBody(c, raw, expected, loa)
      == Err(SamlResponseValidation(UnknownStatusMessage(TopStatus(c, raw).value)))
  {
  }

  /** A Responder status is decided by the sub-status table alone. */
  lemma ResponderUsesSubStatusTable<A>(c: ResponseCollaborators<A>, raw: string, expected: string, loa: LevelOfAssurance)
    requires ResponseChecksPass(c, raw, expected)
    requires TopStatus(c, raw).value == RESPONDER
    ensures ConvertTranslatedResponseBody(c, raw, expected, loa) == TranslateNonSuccessResponse(TopStatus(c, raw))
  {
  }

  /** A Success status is decrypted and then translated, with the expected request id and level. */
  lemma SuccessDecryptsThenTranslates<A>(c: ResponseCollaborators<A>, raw: string, expected: string, loa: LevelOfAssurance)
    requires ResponseChecksPass(c, raw, expected)
    requires TopStatus(c, raw).value == SUCCESS
    ensures var decrypted := c.decryptAssertions(Validated(c, raw));
            ConvertTranslatedResponseBody(c, raw, expected, loa)
              == if decrypted.Err? then Err(decrypted.error) else c.translate(decrypted.value, expected, loa)
  {
  }

  /**
   * The decrypter and the assertion translator are consulted only for a Success status:
   * for any other status, replacing them changes nothing.
   */
  lemma DecryptionOnlyOnSuccess<A>(
    c: ResponseCollaborators<A>, raw: string, expected: string, loa: LevelOfAssurance,
    otherDecrypt: ValidatedResponse -> Result<seq<Assertion>>,
    otherTranslate: (seq<Assertion>, string, LevelOfAssurance) -> Result<TranslatedResponseBody<A>>)
    requires !(ResponseChecksPass(c, raw, expected) && TopStatus(c, raw).value == SUCCESS)
    ensures ConvertTranslatedResponseBody(c.(decryptAssertions := otherDecrypt, translate := otherTranslate), raw, expected, loa)
      == ConvertTranslatedResponseBody(c, raw, expected, loa)
  {
  }

  /**
   * The converse: a successful translated body whose scenario comes from the sub-status
   * table never needed the decrypter, and a body from the Success branch always did.
   * Every outcome is one of the three branches, so no status falls through to a default.
   */
  lemma OutcomeBranches<A>(c: ResponseCollaborators<A>, raw: string, expected: string, loa: LevelOfAssurance)
    requires ConvertTranslatedResponseBody(c, raw, expected, loa).Ok?
    ensures ResponseChecksPass(c, raw, expected)
    ensures TopStatus(c, raw).value == RESPONDER || TopStatus(c, raw).value == SUCCESS
    ensures TopStatus(c, raw).value == RESPONDER ==>
      (&& ScenarioOnly(ConvertTranslatedResponseBody(c, raw, expected, loa).value)
       && TopStatus(c, raw).statusCode.Some?
       && TopStatus(c, raw).statusCode.value.value in NON_SUCCESS_SCENARIOS)
  {
  }

  // ---------------------------------------------------------------------------------------
  // The sub-status table

  /** Each scenario in the table is reached from exactly one sub-status, and back. */
  lemma SubStatusRoundTrip(subStatus: string)
    requires subStatus in NON_SUCCESS_SCENARIOS
    ensures SubStatusFor(NON_SUCCESS_SCENARIOS[subStatus]) == Some(subStatus)
  {
  }

  lemma ScenarioRoundTrip(scenario: Scenario)
    requires SubStatusFor(scenario).Some?
    ensures SubStatusFor(scenario).value in NON_SUCCESS_SCENARIOS
    ensures NON_SUCCESS_SCENARIOS[SubStatusFor(scenario).value] == scenario
  {
  }

  /** No two sub-statuses share a scenario. */
  lemma {:induction false} SubStatusTableInjective(s1: string, s2: string)
    requires s1 in NON_SUCCESS_SCENARIOS && s2 in NON_SUCCESS_SCENARIOS
    requires NON_SUCCESS_SCENARIOS[s1] == NON_SUCCESS_SCENARIOS[s2]
    ensures s1 == s2
  {
    SubStatusRoundTrip(s1);
    SubStatusRoundTrip(s2);
  }

  /** The four table entries, as the source lists them. */
  lemma SubStatusTableEntries()
    ensures NON_SUCCESS_SCENARIOS.Keys == {NO_MATCH, REQUESTER, NO_AUTHN_CONTEXT, AUTHN_FAILED}
    ensures NON_SUCCESS_SCENARIOS[NO_MATCH] == NoMatch
    ensures NON_SUCCESS_SCENARIOS[REQUESTER] == RequestError
    ensures NON_SUCCESS_SCENARIOS[NO_AUTHN_CONTEXT] == Cancellation
    ensures NON_SUCCESS_SCENARIOS[AUTHN_FAILED] == AuthenticationFailed
  {
  }
}
