/**
 * The parts of the SAML 2.0 object model (OpenSAML's Response, Status, Assertion, ...)
 * and of the service's own value types that the response-validation core reads.
 * Java `null` is `None`; every element keeps only the fields the core looks at.
 */
module Saml {
  import opened Failures

  /** A point in time, as milliseconds since the epoch. */
  type Instant = int

  /** Top-level and second-level status codes, section 3.2.2.2 of SAML 2.0 Core. */
  const SUCCESS: string := "urn:oasis:names:tc:SAML:2.0:status:Success"
  const REQUESTER: string := "urn:oasis:names:tc:SAML:2.0:status:Requester"
  const RESPONDER: string := "urn:oasis:names:tc:SAML:2.0:status:Responder"
  const AUTHN_FAILED: string := "urn:oasis:names:tc:SAML:2.0:status:AuthnFailed"
  const NO_AUTHN_CONTEXT: string := "urn:oasis:names:tc:SAML:2.0:status:NoAuthnContext"
  /** The identity hub's own second-level code for "no match". */
  const NO_MATCH: string := "urn:uk:gov:cabinet-office:tc:saml:statuscode:no-match"

  /** The metadata role a signature is checked against (the descriptors' element names). */
  datatype Role = SpSsoDescriptor | IdpSsoDescriptor

  /** A `<StatusCode>` with its value and its optional nested `<StatusCode>`. */
  datatype StatusCode = StatusCode(value: string, statusCode: Option<StatusCode>)

  datatype Status = Status(statusCode: StatusCode)

  /**
   * A `<Response>` as the XML transformer produces it, reduced to what the pipeline reads.
   * Its encrypted assertions are read only by the decrypter, which is a parameter here.
   */
  datatype Response = Response(
    inResponseTo: Option<string>,
    issueInstant: Option<Instant>,
    status: Status)

  /** What the response signature validator hands back once the signature is trusted. */
  datatype ValidatedResponse = ValidatedResponse(response: Response)
  {
    function InResponseTo(): Option<string> { response.inResponseTo }
    function IssueInstant(): Option<Instant> { response.issueInstant }
    function GetStatus(): Status { response.status }
  }

  /** SAMLVersion: equality compares major and minor numbers. */
  datatype SamlVersion = SamlVersion(major: nat, minor: nat)

  /** The version every assertion must declare, section 2.3.3 of SAML 2.0 Core. */
  const VERSION_20: SamlVersion := SamlVersion(2, 0)

  datatype Issuer = Issuer(value: Option<string>)
  datatype NameId = NameId(value: Option<string>)
  datatype Subject = Subject(nameId: Option<NameId>)

  datatype AuthnContextClassRef = AuthnContextClassRef(uri: Option<string>)
  datatype AuthnContextElement = AuthnContextElement(classRef: Option<AuthnContextClassRef>)
  datatype AuthnStatement = AuthnStatement(authnContext: Option<AuthnContextElement>)

  datatype Attribute = Attribute(name: string, values: seq<string>)
  datatype AttributeStatement = AttributeStatement(attributes: seq<Attribute>)

  /** A decrypted `<Assertion>`. */
  datatype Assertion = Assertion(
    id: Option<string>,
    issueInstant: Option<Instant>,
    issuer: Option<Issuer>,
    version: Option<SamlVersion>,
    subject: Option<Subject>,
    authnStatements: seq<AuthnStatement>,
    attributeStatements: seq<AttributeStatement>)

  /** The role AssertionClassifier infers from an assertion's statements. */
  datatype AssertionType = AuthnAssertion | MdsAssertion | OtherAssertion

  /** The service's level-of-assurance values, as requested by the relying party. */
  datatype LevelOfAssurance = Level1 | Level2

  /** The hub's authentication-context levels. */
  datatype AuthnContext = Level1Context | Level2Context | Level3Context | Level4Context | LevelXContext

  /** The application-level outcome of translating a response. */
  datatype Scenario =
    | SuccessMatch | AccountCreation | NoMatch | Cancellation | AuthenticationFailed | RequestError

  /** TranslatedResponseBody; `A` is the attribute record, opaque here. */
  datatype TranslatedResponseBody<A> = TranslatedResponseBody(
    scenario: Scenario,
    pid: Option<string>,
    levelOfAssurance: Option<LevelOfAssurance>,
    attributes: Option<A>)

  /** AssertionData; `D` is the matching dataset, opaque here. The issuer may be null. */
  datatype AssertionData<D> = AssertionData(
    matchingDatasetIssuer: Option<string>,
    levelOfAssurance: AuthnContext,
    matchingDataset: D)
}
