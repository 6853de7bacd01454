# Verify Service Provider: response-validation core in Dafny

This project models the decision logic of a SAML 2.0 service provider that turns a
signed, possibly encrypted authentication response from the identity hub into an
application-level outcome, and proves properties of that model. It covers:

- **ResponseService** (`response_service.dfy`): parse the response, validate its signature
  for the service-provider role, bind `InResponseTo` to the expected request id, validate
  the issue instant, then dispatch on the top-level status. Responder goes through a
  fixed table from sub-status to scenario. Success goes to decryption and the assertion
  translator. Any other status is rejected.
- **NonMatchingAssertionService** (`non_matching_assertion_service.dfy`): group the
  assertions by the role a classifier infers, and require exactly one authn assertion and
  exactly one matching-dataset assertion. Run the ordered structural guards on each
  assertion (issue instant, ID, issuer, version 2.0 per section 2.3.3 of SAML 2.0 Core),
  then the signature, subject and attribute-statement validators. Then cross-check issuer
  and NameID. `translate` picks the issuer, the level-of-assurance token and the
  matching dataset.
- **EntityIdService** (`entity_id_service.dfy`): the entity-id rule, as a function of the
  configured ids and the optional provided id. The implementation is not part of this
  model; its unit tests fix the rule and the messages.
- **NonMatchingAttributes** (`non_matching_attributes.dfy`): a class with final fields and
  its `equals`. That method compares single fields null-aware and list fields as multisets.
- **StringTableFormatter** (`string_table_formatter.dfy`): the text layout of a titled table.
- **ResponseSizeValidator** (`response_size_validator.dfy`): a 50000-character bound.

Shared types are in `failures.dfy` (`Option` for Java `null`; `Error`, `Result` and
`Check` for thrown exceptions) and `saml.dfy` (the SAML elements the core reads, and the
status URIs of section 3.2.2.2 of SAML 2.0 Core plus the hub's own "no-match" code).

Every collaborator the core calls but does not define is a function-valued field of a
`ResponseCollaborators` or `AssertionCollaborators` value. The lemmas hold for every choice
of these functions. This covers the XML transformer, both signature validators, the issue-instant
validator (which owns the clock), the decrypter, the assertion translator, the classifier,
the subject and attribute-statement validators, AuthnContextFactory and
MatchingDatasetUnmarshaller. A check that fails returns its error, and the first failing
check decides the result. Ordering is stated in two ways. First, if the earlier checks pass
and this one fails, the result is this check's error. Second, the result does not change
when a collaborator that must not be consulted is replaced.

In these places the model follows the code:

- The freshness window is not in the pipeline. The code hands the issue instant to
  IssueInstantValidator, and its `ISSUE_INSTANT_VALIDITY` constant is unused.
- A Responder status without a sub-status has its own message ("Missing status code for
  non-Success response"). It is not reported as an unknown sub-status.
- Assertions that classify as neither role are not rejected by themselves. Only the two
  counts are checked.
- Subject-confirmation binding and the level-of-assurance lookup are delegated to
  SubjectValidator and AuthnContextFactory.

## Model

| member | source | states |
|---|---|---|
| ResponseService.ConvertTranslatedResponseBody | src/main/java/uk/gov/ida/verifyserviceprovider/services/ResponseService.java:50-73 | A success means the response parsed, its signature validated for the SP role, its InResponseTo is the expected id, its issue instant passed, and its status is Responder or Success. |
| ResponseService.CheckValidatedResponse | src/main/java/uk/gov/ida/verifyserviceprovider/services/ResponseService.java:55-72 | A wrong InResponseTo fails with the mismatch message quoting the raw value. A success passed the InResponseTo and issue-instant checks and came from a listed Responder sub-status (scenario only) or from a Success status whose assertions decrypted. |
| ResponseService.ParseFailureIsFinal | src/main/java/uk/gov/ida/verifyserviceprovider/services/ResponseService.java:50-51 | If the XML transformer throws, that exception is the result. |
| ResponseService.SignatureCheckedFirst | src/main/java/uk/gov/ida/verifyserviceprovider/services/ResponseService.java:51-53 | With a parsed response, a failing signature validation for the SP role is the result, whatever the response contains. |
| ResponseService.DecisionsReadValidatedResponse | src/main/java/uk/gov/ida/verifyserviceprovider/services/ResponseService.java:53-62 | Two parsed responses that validate to the same validated response give the same result. The only possible difference is the InResponseTo text in the mismatch message, which the source takes from the parsed response. |
| ResponseService.InResponseToCheckedBeforeIssueInstant | src/main/java/uk/gov/ida/verifyserviceprovider/services/ResponseService.java:55-60 | If the validated InResponseTo is not the expected id, the call fails with "Expected InResponseTo to be …, but was …". The issue-instant validator, status, decrypter and translator cannot change that. |
| ResponseService.IssueInstantCheckedBeforeStatus | src/main/java/uk/gov/ida/verifyserviceprovider/services/ResponseService.java:60-64 | If InResponseTo matches, a failing issue-instant validation is the result before any status dispatch. |
| ResponseService.UnknownStatusRejected | src/main/java/uk/gov/ida/verifyserviceprovider/services/ResponseService.java:64-72 | After the checks pass, a top-level status that is neither Responder nor Success fails with "Unknown SAML status: <value>". |
| ResponseService.ResponderUsesSubStatusTable | src/main/java/uk/gov/ida/verifyserviceprovider/services/ResponseService.java:64-66 | After the checks pass, a Responder status is decided by the sub-status translation alone. |
| ResponseService.SuccessDecryptsThenTranslates | src/main/java/uk/gov/ida/verifyserviceprovider/services/ResponseService.java:67-69 | After the checks pass, a Success status decrypts the validated response. It then translates the assertions with the expected request id and level of assurance, and a decryption failure stops the call. |
| ResponseService.DecryptionOnlyOnSuccess | src/main/java/uk/gov/ida/verifyserviceprovider/services/ResponseService.java:64-72 | Unless every check passes and the status is Success, replacing the decrypter and the translator changes nothing. They are only consulted on Success. |
| ResponseService.OutcomeBranches | src/main/java/uk/gov/ida/verifyserviceprovider/services/ResponseService.java:50-73 | Every successful result passed all response checks and had status Responder or Success. A Responder result has a listed sub-status and no pid, level of assurance or attributes. |
| ResponseService.TranslateNonSuccessResponse | src/main/java/uk/gov/ida/verifyserviceprovider/services/ResponseService.java:75-92 | A missing sub-status fails with "Missing status code for non-Success response". A listed sub-status gives its table scenario with null pid, level of assurance and attributes. Any other fails with "Unknown SAML sub-status: <value>" and never defaults to a scenario. |
| ResponseService.SubStatusTableEntries | src/main/java/uk/gov/ida/verifyserviceprovider/services/ResponseService.java:80-88 | The table is exactly NoMatch→NO_MATCH, Requester→REQUEST_ERROR, NoAuthnContext→CANCELLATION, AuthnFailed→AUTHENTICATION_FAILED. |
| ResponseService.SubStatusRoundTrip | src/main/java/uk/gov/ida/verifyserviceprovider/services/ResponseService.java:80-88 | The inverse table takes each sub-status's scenario back to that sub-status. |
| ResponseService.ScenarioRoundTrip | src/main/java/uk/gov/ida/verifyserviceprovider/services/ResponseService.java:80-88 | Each scenario the inverse table names is reached from exactly that sub-status. |
| ResponseService.SubStatusTableInjective | src/main/java/uk/gov/ida/verifyserviceprovider/services/ResponseService.java:80-88 | No two sub-statuses map to the same scenario. |
| NonMatchingAssertionService.Group | src/main/java/uk/gov/ida/verifyserviceprovider/services/NonMatchingAssertionService.java:60-62 | A group of assertions (one `groupingBy` list) is no longer than the input, has only assertions of its role and is a sub-multiset of the input. |
| NonMatchingAssertionService.GroupCount | src/main/java/uk/gov/ida/verifyserviceprovider/services/NonMatchingAssertionService.java:60-62 | Each assertion appears in its own role's group as often as in the input, and in no other group. |
| NonMatchingAssertionService.GroupHead | src/main/java/uk/gov/ida/verifyserviceprovider/services/NonMatchingAssertionService.java:60-62 | Grouping keeps input order: the first member of a role's group is the earliest input assertion of that role. |
| NonMatchingAssertionService.GroupEmpty | src/main/java/uk/gov/ida/verifyserviceprovider/services/NonMatchingAssertionService.java:60-62 | A role's group is empty (the missing map key) exactly when no input assertion has that role. |
| NonMatchingAssertionService.GroupsPartition | src/main/java/uk/gov/ida/verifyserviceprovider/services/NonMatchingAssertionService.java:60-62 | The three groups together are a permutation of the input. |
| NonMatchingAssertionService.ValidateIdpAssertion | src/main/java/uk/gov/ida/verifyserviceprovider/services/NonMatchingAssertionService.java:90-116 | An assertion that passes has passed every presence and version guard. |
| NonMatchingAssertionService.IdpAssertionGuardOrder | src/main/java/uk/gov/ida/verifyserviceprovider/services/NonMatchingAssertionService.java:94-112 | The first failing guard is reported, in this order: missing issue instant, missing or blank ID, missing or blank issuer, missing version, version not 2.0. Each has its message, with the assertion id where the source quotes it. |
| NonMatchingAssertionService.IdpAssertionCollaboratorOrder | src/main/java/uk/gov/ida/verifyserviceprovider/services/NonMatchingAssertionService.java:114-116 | After the guards, the result is the signature validation for the given role, then the subject validation with the request id, then the attribute-statement validation. The first failure wins. |
| NonMatchingAssertionService.CollaboratorsNotConsultedOnGuardFailure | src/main/java/uk/gov/ida/verifyserviceprovider/services/NonMatchingAssertionService.java:94-116 | An assertion that fails a guard fails whatever the signature, subject and attribute validators would say. |
| NonMatchingAssertionService.CompareNameIds | src/main/java/uk/gov/ida/verifyserviceprovider/services/NonMatchingAssertionService.java:85-87 | The NameID check passes exactly when the matching-dataset NameID is present and the authn NameID equals it. A missing matching-dataset subject, NameID or NameID value is a NullPointerException; so is a missing authn subject or NameID once the matching-dataset value is present. A null authn NameID value gives MISMATCHED_PIDS instead (see MismatchedPids). |
| NonMatchingAssertionService.MismatchedPids | src/main/java/uk/gov/ida/verifyserviceprovider/services/NonMatchingAssertionService.java:85-87 | Two present, different NameIDs fail with MISMATCHED_PIDS. |
| NonMatchingAssertionService.Validate | src/main/java/uk/gov/ida/verifyserviceprovider/services/NonMatchingAssertionService.java:59-88 | A pass means one authn and one matching-dataset assertion, both structurally valid, with equal issuers. |
| NonMatchingAssertionService.ValidateAcceptsExactly | src/main/java/uk/gov/ida/verifyserviceprovider/services/NonMatchingAssertionService.java:59-88 | `validate` passes exactly when there is one authn and one matching-dataset assertion, both pass the IDP-role checks, their issuers are equal and their NameIDs are present and equal. |
| NonMatchingAssertionService.ValidateCountsFirst | src/main/java/uk/gov/ida/verifyserviceprovider/services/NonMatchingAssertionService.java:64-72 | An authn count other than one fails with "Exactly one authn statement is expected.". It is checked before the matching-dataset count, which fails with "Exactly one matching dataset assertion is expected.". |
| NonMatchingAssertionService.ValidateCheckOrder | src/main/java/uk/gov/ida/verifyserviceprovider/services/NonMatchingAssertionService.java:74-88 | With the counts right, checks run in this order: the authn assertion, then the matching-dataset assertion (both with the IDP role), then issuer equality (MISMATCHED_ISSUERS), then NameID equality. |
| NonMatchingAssertionService.TwoMdsAssertionsRejected | src/main/java/uk/gov/ida/verifyserviceprovider/services/NonMatchingAssertionService.java:64-72 | A list with two matching-dataset assertions fails on a count check, however well-formed they are. |
| NonMatchingAssertionService.GroupHasTwo | src/main/java/uk/gov/ida/verifyserviceprovider/services/NonMatchingAssertionService.java:60-62 | Two positions of the same role give that role's group at least two members. |
| NonMatchingAssertionService.ValidateIgnoresLevelOfAssurance | src/main/java/uk/gov/ida/verifyserviceprovider/services/NonMatchingAssertionService.java:59 | The outcome of `validate` does not depend on the expected level of assurance. |
| NonMatchingAssertionService.TranslateSuccessResponse | src/main/java/uk/gov/ida/verifyserviceprovider/services/NonMatchingAssertionService.java:53-56 | Validates before translating. It succeeds exactly on accepted lists and then yields the stub's null. Otherwise it fails with validation's error. |
| NonMatchingAssertionService.TranslateSuccessResponseIgnoresEntityId | src/main/java/uk/gov/ida/verifyserviceprovider/services/NonMatchingAssertionService.java:53-56 | The entity id does not affect the result. |
| NonMatchingAssertionService.LevelOfAssuranceToken | src/main/java/uk/gov/ida/verifyserviceprovider/services/NonMatchingAssertionService.java:133-134 | The token is the authn-context class reference of the statement. A missing context or reference is a null dereference. |
| NonMatchingAssertionService.Translate | src/main/java/uk/gov/ida/verifyserviceprovider/services/NonMatchingAssertionService.java:129-140 | A success carries the issuer value of the first matching-dataset assertion (null when its Issuer element has no value; only a missing Issuer element fails), the authn context for the token of the first authn statement of the first authn assertion, and that matching-dataset assertion's unmarshalled dataset. Conversely, translate succeeds whenever every element it reads is present and both the authn-context lookup and the unmarshaller succeed. |
| NonMatchingAssertionService.TranslateErrorOrder | src/main/java/uk/gov/ida/verifyserviceprovider/services/NonMatchingAssertionService.java:133-139 | The failures come in the order the source reads: no authn group (null), no authn statement (index out of bounds), a missing context or class reference (null), no matching-dataset group (null), a missing Issuer element (null), the authn-context lookup's own error, then the unmarshaller's own error. With none of these, it succeeds (see Translate). |
| NonMatchingAssertionService.TranslateKeepsNullIssuer | src/main/java/uk/gov/ida/verifyserviceprovider/services/NonMatchingAssertionService.java:137 | An Issuer element without a value does not fail: the translated issuer is null. |
| NonMatchingAssertionService.TranslateReadsFirstMdsAssertion | src/main/java/uk/gov/ida/verifyserviceprovider/services/NonMatchingAssertionService.java:130-139 | The issuer and the matching dataset come from the earliest matching-dataset assertion of the input list. |
| NonMatchingAssertionService.TranslateAfterValidate | src/main/java/uk/gov/ida/verifyserviceprovider/services/NonMatchingAssertionService.java:81-83 | On a list `validate` accepts, the translated issuer is present and is the issuer of both validated assertions. |
| EntityIdService.ResolveEntityId | src/test/java/unit/uk/gov/ida/verifyserviceprovider/services/EntityIdServiceTest.java:18-104 | Every success is a configured id, and a provided id is returned unchanged. Every failure is an InvalidEntityIdException. |
| EntityIdService.EntityIdService.GetEntityIdForRequest | src/test/java/unit/uk/gov/ida/verifyserviceprovider/services/EntityIdServiceTest.java:18-104 | For a request-generation body: a success is a configured id, equal to the body's id when it has one; a failure is an InvalidEntityIdException. |
| EntityIdService.EntityIdService.GetEntityIdForResponse | src/test/java/unit/uk/gov/ida/verifyserviceprovider/services/EntityIdServiceTest.java:18-104 | The same for a translate-response body. |
| EntityIdService.SingleTenantDefault | src/test/java/unit/uk/gov/ida/verifyserviceprovider/services/EntityIdServiceTest.java:20-31 | With one configured id and none provided, that id is returned. |
| EntityIdService.ListedIdReturned | src/test/java/unit/uk/gov/ida/verifyserviceprovider/services/EntityIdServiceTest.java:36-63 | A provided id among the configured ids is returned unchanged, with one or several configured. |
| EntityIdService.MultiTenantNeedsId | src/test/java/unit/uk/gov/ida/verifyserviceprovider/services/EntityIdServiceTest.java:67-83 | With two or more configured and none provided, it fails with "No entityId was provided, and there are several in config". |
| EntityIdService.UnlistedIdRejected | src/test/java/unit/uk/gov/ida/verifyserviceprovider/services/EntityIdServiceTest.java:87-103 | A provided id not in the configuration fails with "Provided entityId: <id> is not listed in config". |
| EntityIdService.SameRuleForBothBodies | src/test/java/unit/uk/gov/ida/verifyserviceprovider/services/EntityIdServiceTest.java:18-104 | Request-generation and translate-response bodies with the same entity id resolve alike. |
| EntityIdService.ConfiguredExamples | src/test/java/unit/uk/gov/ida/verifyserviceprovider/services/EntityIdServiceTest.java:18-104 | The unit tests' example ids give the tested results and messages. |
| NonMatchingAttributes.NonMatchingAttributes.constructor | src/main/java/uk/gov/ida/verifyserviceprovider/dto/NonMatchingAttributes.java:27-41 | Each final field, and so each getter, holds the value given to the constructor. |
| NonMatchingAttributes.NonMatchingAttributes.Equals | src/main/java/uk/gov/ida/verifyserviceprovider/dto/NonMatchingAttributes.java:67-79 | `equals` as written: the same reference is equal; null and other classes are not; distinct equal objects match on the first five fields. |
| NonMatchingAttributes.NonMatchingAttributes.IntendedEquals | src/main/java/uk/gov/ida/verifyserviceprovider/dto/NonMatchingAttributes.java:67-79 | `equals` with line 78 un-negated: the same identity and class rules, and distinct equal objects match on the first five fields. |
| NonMatchingAttributes.EqualsIdentityAndClass | src/main/java/uk/gov/ida/verifyserviceprovider/dto/NonMatchingAttributes.java:69-70 | The same reference is equal. Null and objects of another class are not. |
| NonMatchingAttributes.EqualsLeadingMismatch | src/main/java/uk/gov/ida/verifyserviceprovider/dto/NonMatchingAttributes.java:73-77 | Distinct objects differing in first name, middle names, surnames, date of birth or gender are unequal. |
| NonMatchingAttributes.EqualsInvertsAddresses | src/main/java/uk/gov/ida/verifyserviceprovider/dto/NonMatchingAttributes.java:78 | For distinct objects whose other fields match, `equals` as written holds exactly when the addresses differ (one null, or different multisets). |
| NonMatchingAttributes.CopiesCompareUnequal | src/main/java/uk/gov/ida/verifyserviceprovider/dto/NonMatchingAttributes.java:67-79 | A distinct object with identical fields is unequal under `equals` as written, and equal under the intended comparison. |
| NonMatchingAttributes.SameOptionalEquivalence | src/main/java/uk/gov/ida/verifyserviceprovider/dto/NonMatchingAttributes.java:73-77 | Null-aware comparison (both null match, exactly one null does not) is an equivalence. |
| NonMatchingAttributes.SameCollectionEquivalence | src/main/java/uk/gov/ida/verifyserviceprovider/dto/NonMatchingAttributes.java:74-75 | Comparing optional lists as multisets is an equivalence. |
| NonMatchingAttributes.SameCollectionCases | src/main/java/uk/gov/ida/verifyserviceprovider/dto/NonMatchingAttributes.java:74-75 | A null list matches only a null list. Two present lists match exactly when they have the same multiset. |
| NonMatchingAttributes.SameCollectionIgnoresOrder | src/main/java/uk/gov/ida/verifyserviceprovider/dto/NonMatchingAttributes.java:74-75 | Permuting a list never changes the comparison. |
| NonMatchingAttributes.SameCollectionCountsMultiplicity | src/main/java/uk/gov/ida/verifyserviceprovider/dto/NonMatchingAttributes.java:74-75 | Lists that differ in the multiplicity of any element do not match. |
| NonMatchingAttributes.IntendedEqualsIsSameAttributes | src/main/java/uk/gov/ida/verifyserviceprovider/dto/NonMatchingAttributes.java:67-79 | Every object matches itself field by field: each of the six null-aware and multiset comparisons is reflexive. |
| NonMatchingAttributes.IntendedEqualsIsEquivalence | src/main/java/uk/gov/ida/verifyserviceprovider/dto/NonMatchingAttributes.java:67-79 | The intended comparison is reflexive, symmetric and transitive. |
| StringTableFormatter.Repeat | src/main/java/uk/gov/ida/verifyserviceprovider/utils/StringTableFormatter.java:23-25 | A border is `count` copies of one character, or empty when `count` is not positive. |
| StringTableFormatter.Lines | src/main/java/uk/gov/ida/verifyserviceprovider/utils/StringTableFormatter.java:34-35 | Each row becomes the side border, a space and the row, in input order. |
| StringTableFormatter.FormatTitle | src/main/java/uk/gov/ida/verifyserviceprovider/utils/StringTableFormatter.java:22-31 | The opening has length 4s + 2w + 2 + title length and starts with a separator, the '=' border and a separator. |
| StringTableFormatter.FormatBody | src/main/java/uk/gov/ida/verifyserviceprovider/utils/StringTableFormatter.java:33-39 | No rows give just a separator; otherwise the body starts with the first row's line: the side border, a space and the row. What the `joining` of line 36 produces is stated by BodyIsTerminatedLines. |
| StringTableFormatter.FormatBottomBorder | src/main/java/uk/gov/ida/verifyserviceprovider/utils/StringTableFormatter.java:41-43 | The bottom border has length w + s and starts with w '=' characters. |
| StringTableFormatter.FormatStartsWithTopBorder | src/main/java/uk/gov/ida/verifyserviceprovider/utils/StringTableFormatter.java:16-19 | The table starts with a separator, `tableWidth` '=' characters and a separator. |
| StringTableFormatter.FormatLayout | src/main/java/uk/gov/ida/verifyserviceprovider/utils/StringTableFormatter.java:16-43 | For any rows, the table is, in order: separator, '=' border and separator, the side border, a space and the title, then a separator, '-' border and separator, each row after the side border and a space and followed by a separator (a lone separator when there are no rows), then '=' border and separator. |
| StringTableFormatter.BodyIsTerminatedLines | src/main/java/uk/gov/ida/verifyserviceprovider/utils/StringTableFormatter.java:33-39 | A non-empty body is each row, after the side border and a space, followed by a separator, in input order. |
| StringTableFormatter.FormatEndsWithBottomBorder | src/main/java/uk/gov/ida/verifyserviceprovider/utils/StringTableFormatter.java:41-43 | The table ends with `tableWidth` '=' characters and a separator. |
| StringTableFormatter.TerminatedLinesLength | src/main/java/uk/gov/ida/verifyserviceprovider/utils/StringTableFormatter.java:33-39 | n terminated rows take the rows' total length plus n(2 + s) characters. |
| StringTableFormatter.Format | src/main/java/uk/gov/ida/verifyserviceprovider/utils/StringTableFormatter.java:16-43 | Let w be the width (0 when negative) and s the separator length. The length is s + 3(w+s) + (2 + title length + s), plus the rows' total length + n(2+s) for n ≥ 1 rows, or plus s for none. |
| ResponseSizeValidator.Validate | src/main/java/uk/gov/ida/verifyserviceprovider/validators/ResponseSizeValidator.java:8-15 | Accepts exactly the inputs of at most 50000 characters. Longer ones fail with "SAML Response is too long.". |
| ResponseSizeValidator.OnlyLengthMatters | src/main/java/uk/gov/ida/verifyserviceprovider/validators/ResponseSizeValidator.java:10-15 | Inputs of equal length get the same result, whatever their content. |
| ResponseSizeValidator.Boundary | src/main/java/uk/gov/ida/verifyserviceprovider/validators/ResponseSizeValidator.java:12-13 | 50000 characters pass; 50001 fail. |
| ResponseSizeValidator.PrefixOfAcceptedIsAccepted | src/main/java/uk/gov/ida/verifyserviceprovider/validators/ResponseSizeValidator.java:12 | Every prefix of an accepted input is accepted. |

## Left out

- XML parsing, XML-DSig signature validation and XML-ENC decryption are arbitrary
  function parameters, so the lemmas hold for any behaviour of these libraries.
  The same goes for IssueInstantValidator, SubjectValidator,
  AssertionAttributeStatementValidator, AssertionClassifier, AuthnContextFactory,
  MatchingDatasetUnmarshaller and the AssertionTranslator behind ResponseService.
- The freshness window and the clock live in IssueInstantValidator, which is not part of
  this model. No window is claimed.
- `translateAssertions` and NonMatchingAssertionService's `translateNonSuccessResponse` are
  stubs that return null. TranslateSuccessResponse yields `None` where the stub yields null.
- `hashCode`, `toString` and the JSON annotations of NonMatchingAttributes are not modelled.
- Java nulls that only lead to a NullPointerException are not modelled. These are: a null
  expected request id, a null Status or top-level StatusCode, a null top-level status value
  (the `switch` at ResponseService.java:64 dereferences it), a null sub-status value, and a
  null input string. These inputs are non-null in the model.
- A null title or a null row is not modelled either. Java's string concatenation renders it
  as the text `null` (StringTableFormatter.java:24 and :35); the model's title and rows are
  always present strings.
- The AssertionClassifier is taken to be total: any exception it throws is not modelled.
- ResponseSizeValidator.Validate: counts Dafny characters, where Java's `length()` counts
  UTF-16 code units, so a text outside the Basic Multilingual Plane is longer in Java.
- NonMatchingVerifiableAttribute and NonMatchingAddress are not part of this model. They
  are reduced to a value with a verified flag, and to address lines with a postcode. Their
  `equals` is taken to be value equality.
- The text of MISMATCHED_ISSUERS and MISMATCHED_PIDS (GenericHubProfileValidationSpecification)
  is not part of this model, so each constant's name stands for its text. The hub's
  no-match URI is that of `SamlStatusCode.NO_MATCH`.
- EntityIdService.ResolveEntityId: the tests do not fix the case of an empty configuration
  with no provided id. The model reports "several in config" for it.
- The three acceptance tests depend on HTTP, real keys and a compliance tool. They only
  corroborate the table (AuthnFailed gives AUTHENTICATION_FAILED).
- The LevelOfAssurance, AuthnContext and Scenario enums list the values the model needs.
  The core only passes the level of assurance through.

## Findings

| source | as written | input that shows it | evidently intended | confidence | as-written member | corrected member |
|---|---|---|---|---|---|---|
| src/main/java/uk/gov/ida/verifyserviceprovider/dto/NonMatchingAttributes.java:78 | The last line returns `addresses != null ? !(that.addresses != null && isEqualCollection(...)) : that.addresses != null`. This is the negation of the pattern of lines 73-77. | Two distinct instances built with the same arguments, for example all null. `equals` returns false, so `equals` is not reflexive on copies. | `addresses != null ? (that.addresses != null && isEqualCollection(addresses, that.addresses)) : that.addresses == null` | high; not executed | NonMatchingAttributes.CopiesCompareUnequal | NonMatchingAttributes.IntendedEqualsIsEquivalence |
