/**
 * NonMatchingAssertionService: validation of the decrypted assertions of a Success
 * response. The assertions are grouped by the role the classifier infers; exactly one
 * authn assertion and exactly one matching-dataset assertion must be present; each passes
 * the structural guards and then the signature, subject and attribute-statement
 * validators; finally the two must agree on issuer and on NameID.
 */
module NonMatchingAssertionService {
  import opened Failures
  import opened Saml

  /** The injected collaborators (and the static classifier); `D` is the matching dataset. */
  datatype AssertionCollaborators<D> = AssertionCollaborators(
    /** AssertionClassifier.classifyAssertion. */
    classifyAssertion: Assertion -> AssertionType,
    /** SamlAssertionsSignatureValidator.validate(assertions, role). */
    validateAssertionSignatures: (seq<Assertion>, Role) -> Check,
    /** SubjectValidator.validate(subject, expectedInResponseTo). */
    validateSubject: (Option<Subject>, string) -> Check,
    /** AssertionAttributeStatementValidator.validate. */
    validateAttributeStatement: Assertion -> Check,
    /** AuthnContextFactory.authnContextForLevelOfAssurance. */
    authnContextForLevelOfAssurance: Option<string> -> Result<AuthnContext>,
    /** MatchingDatasetUnmarshaller.fromAssertion. */
    fromAssertion: Assertion -> Result<D>)

  const AUTHN_COUNT_MESSAGE: string := "Exactly one authn statement is expected."
  const MDS_COUNT_MESSAGE: string := "Exactly one matching dataset assertion is expected."
  /** The messages of GenericHubProfileValidationSpecification; their text is not part of this model. */
  const MISMATCHED_ISSUERS: string := "MISMATCHED_ISSUERS"
  const MISMATCHED_PIDS: string := "MISMATCHED_PIDS"

  const ISSUE_INSTANT_MISSING_MESSAGE: string := "Assertion IssueInstant is missing."
  const ID_MISSING_MESSAGE: string := "Assertion Id is missing or blank."

  function IssuerMissingMessage(id: string): string
  {
    "Assertion with id " + id + " has missing or blank Issuer."
  }

  function VersionMissingMessage(id: string): string
  {
    "Assertion with id " + id + " has missing Version."
  }

  function IllegalVersionMessage(id: string): string
  {
    "Assertion with id " + id + " declared an illegal Version attribute value."
  }

  // ---------------------------------------------------------------------------------------
  // Classification

  /**
   * The list `groupingBy` collects under key `t`: the assertions of that role, in order.
   * An empty group is the `null` a missing map key gives.
   */
  function Group(classify: Assertion -> AssertionType, assertions: seq<Assertion>, t: AssertionType): (g: seq<Assertion>)
    ensures |g| <= |assertions|
    ensures forall i :: 0 <= i < |g| ==> classify(g[i]) == t
    ensures multiset(g) <= multiset(assertions)
  {
    if assertions == [] then []
    else
      var rest := Group(classify, assertions[1..], t);
      assert assertions == [assertions[0]] + assertions[1..];
      if classify(assertions[0]) == t then [assertions[0]] + rest else rest
  }

  /** The group of a non-empty list: its head when that has the role, then the group of its tail. */
  lemma GroupCons(classify: Assertion -> AssertionType, assertions: seq<Assertion>, t: AssertionType)
    requires assertions != []
    ensures Group(classify, assertions, t)
      == (if classify(assertions[0]) == t then [assertions[0]] else []) + Group(classify, assertions[1..], t)
  {
  }

  /** Each assertion occurs in the group of its own role as often as in the list, and nowhere else. */
  lemma {:induction false} GroupCount(classify: Assertion -> AssertionType, assertions: seq<Assertion>, t: AssertionType, x: Assertion)
    ensures multiset(Group(classify, assertions, t))[x] == if classify(x) == t then multiset(assertions)[x] else 0
  {
    if assertions != [] {
      var head, tail := assertions[0], assertions[1..];
      GroupCount(classify, tail, t, x);
      GroupCons(classify, assertions, t);
      assert assertions == [head] + tail;
      assert multiset(assertions)[x] == multiset{head}[x] + multiset(tail)[x];
      if classify(head) == t {
        assert multiset(Group(classify, assertions, t)) == multiset{head} + multiset(Group(classify, tail, t));
      } else {
        assert Group(classify, assertions, t) == Group(classify, tail, t);
      }
    }
  }

  /** Groups of different roles share nothing; together they are a permutation of the input. */
  lemma GroupsPartition(classify: Assertion -> AssertionType, assertions: seq<Assertion>)
    ensures multiset(Group(classify, assertions, AuthnAssertion))
          + multiset(Group(classify, assertions, MdsAssertion))
          + multiset(Group(classify, assertions, OtherAssertion)) == multiset(assertions)
  {
    forall x | true
      ensures (multiset(Group(classify, assertions, AuthnAssertion))
             + multiset(Group(classify, assertions, MdsAssertion))
             + multiset(Group(classify, assertions, OtherAssertion)))[x] == multiset(assertions)[x]
    {
      GroupCount(classify, assertions, AuthnAssertion, x);
      GroupCount(classify, assertions, MdsAssertion, x);
      GroupCount(classify, assertions, OtherAssertion, x);
    }
  }

  /** Grouping keeps input order: the head of a group is the earliest assertion of that role. */
  lemma {:induction false} GroupHead(classify: Assertion -> AssertionType, assertions: seq<Assertion>, t: AssertionType, i: nat)
    requires i < |assertions| && classify(assertions[i]) == t
    requires forall j :: 0 <= j < i ==> classify(assertions[j]) != t
    ensures |Group(classify, assertions, t)| > 0 && Group(classify, assertions, t)[0] == assertions[i]
  {
    GroupCons(classify, assertions, t);
    if i > 0 {
      var tail := assertions[1..];
      assert forall j :: 0 <= j < i - 1 ==> tail[j] == assertions[j + 1];
      GroupHead(classify, tail, t, i - 1);
    }
  }

  /** A group is empty exactly when no assertion of the list has its role. */
  lemma {:induction false} GroupEmpty(classify: Assertion -> AssertionType, assertions: seq<Assertion>, t: AssertionType)
    ensures |Group(classify, assertions, t)| == 0 <==> forall j :: 0 <= j < |assertions| ==> classify(assertions[j]) != t
  {
    if |Group(classify, assertions, t)| == 0 {
      forall j | 0 <= j < |assertions|
        ensures classify(assertions[j]) != t
      {
        GroupCount(classify, assertions, t, assertions[j]);
      }
    } else {
      var g := Group(classify, assertions, t);
      assert g[0] in multiset(g);
      assert g[0] in assertions;
      var j :| 0 <= j < |assertions| && assertions[j] == g[0];
      assert classify(assertions[j]) == t;
    }
  }

  // ---------------------------------------------------------------------------------------
  // One assertion

  /** The presence and version guards that run before any collaborator. */
  predicate StructurallyValid(a: Assertion)
  {
    && a.issueInstant.Some?
    && a.id.Some? && |a.id.value| > 0
    && a.issuer.Some? && a.issuer.value.value.Some? && |a.issuer.value.value.value| > 0
    && a.version == Some(VERSION_20)
  }

  /** The issuer value of an assertion that passed the guards. */
  function IssuerValue(a: Assertion): (v: string)
    requires StructurallyValid(a)
    ensures |v| > 0
  {
    a.issuer.value.value.value
  }

  /** validateIdpAssertion. */
  function ValidateIdpAssertion<D>(c: AssertionCollaborators<D>, assertion: Assertion, expectedInResponseTo: string, role: Role): (r: Check)
    ensures r.Pass? ==> StructurallyValid(assertion)
  {
    if assertion.issueInstant.None? then
      Fail(SamlResponseValidation(ISSUE_INSTANT_MISSING_MESSAGE))
    else if assertion.id.None? || |assertion.id.value| == 0 then
      Fail(SamlResponseValidation(ID_MISSING_MESSAGE))
    else if assertion.issuer.None? || assertion.issuer.value.value.None? || |assertion.issuer.value.value.value| == 0 then
      Fail(SamlResponseValidation(IssuerMissingMessage(assertion.id.value)))
    else if assertion.version.None? then
      Fail(SamlResponseValidation(VersionMissingMessage(assertion.id.value)))
    else if assertion.version.value != VERSION_20 then
      Fail(SamlResponseValidation(IllegalVersionMessage(assertion.id.value)))
    else
      AndThen(c.validateAssertionSignatures([assertion], role),
        AndThen(c.validateSubject(assertion.subject, expectedInResponseTo),
          c.validateAttributeStatement(assertion)))
  }

  /** The guards report the first failure in the source's order. */
  lemma IdpAssertionGuardOrder<D>(c: AssertionCollaborators<D>, a: Assertion, rid: string, role: Role)
    ensures a.issueInstant.None? ==>
      ValidateIdpAssertion(c, a, rid, role) == Fail(SamlResponseValidation(ISSUE_INSTANT_MISSING_MESSAGE))
    ensures (a.issueInstant.Some? && (a.id.None? || a.id.value == "")) ==>
      ValidateIdpAssertion(c, a, rid, role) == Fail(SamlResponseValidation(ID_MISSING_MESSAGE))
    ensures (&& a.issueInstant.Some? && a.id.Some? && a.id.value != ""
             && (a.issuer.None? || a.issuer.value.value.None? || a.issuer.value.value.value == "")) ==>
      ValidateIdpAssertion(c, a, rid, role) == Fail(SamlResponseValidation(IssuerMissingMessage(a.id.value)))
    ensures (&& a.issueInstant.Some? && a.id.Some? && a.id.value != ""
             && a.issuer.Some? && a.issuer.value.value.Some? && a.issuer.value.value.value != ""
             && a.version.None?) ==>
      ValidateIdpAssertion(c, a, rid, role) == Fail(SamlResponseValidation(VersionMissingMessage(a.id.value)))
    ensures (&& a.issueInstant.Some? && a.id.Some? && a.id.value != ""
             && a.issuer.Some? && a.issuer.value.value.Some? && a.issuer.value.value.value != ""
             && a.version.Some? && a.version.value != VERSION_20) ==>
      ValidateIdpAssertion(c, a, rid, role) == Fail(SamlResponseValidation(IllegalVersionMessage(a.id.value)))
  {
  }

  /**
   * After the guards, the signature validator (with the given role), then the subject
   * validator (with the request id), then the attribute-statement validator decide.
   */
  lemma IdpAssertionCollaboratorOrder<D>(c: AssertionCollaborators<D>, a: Assertion, rid: string, role: Role)
    requires StructurallyValid(a)
    ensures var sig := c.validateAssertionSignatures([a], role);
            var subject := c.validateSubject(a.subject, rid);
            ValidateIdpAssertion(c, a, rid, role)
              == if sig.Fail? then sig else if subject.Fail? then subject else c.validateAttributeStatement(a)
  {
  }

  /** An assertion failing a guard never reaches the signature, subject or attribute validators. */
  lemma CollaboratorsNotConsultedOnGuardFailure<D>(
    c: AssertionCollaborators<D>, c': AssertionCollaborators<D>, a: Assertion, rid: string, role: Role)
    requires !StructurallyValid(a)
    ensures ValidateIdpAssertion(c, a, rid, role) == ValidateIdpAssertion(c', a, rid, role)
    ensures ValidateIdpAssertion(c, a, rid, role).Fail?
  {
  }

  // ---------------------------------------------------------------------------------------
  // The assertion set

  /** The NameID value of a subject; a missing subject or NameID is a null dereference. */
  function NameIdValue(subject: Option<Subject>): (r: Result<Option<string>>)
    ensures r.Err? <==> subject.None? || subject.value.nameId.None?
    ensures r.Err? ==> r.error == NullPointer
  {
    if subject.None? || subject.value.nameId.None? then Err(NullPointer)
    else Ok(subject.value.nameId.value.value)
  }

  /**
   * The NameID comparison: the matching-dataset NameID is read first and must be present;
   * the authn NameID must then equal it. Absent elements are null dereferences.
   */
  function CompareNameIds(mds: Assertion, authn: Assertion): (r: Check)
    ensures r.Pass? <==> NameIdValue(mds.subject).Ok? && NameIdValue(mds.subject).value.Some?
                         && NameIdValue(authn.subject) == NameIdValue(mds.subject)
    ensures (NameIdValue(mds.subject).Err? || NameIdValue(mds.subject) == Ok(None)) ==> r == Fail(NullPointer)
    ensures (NameIdValue(mds.subject).Ok? && NameIdValue(mds.subject).value.Some? && NameIdValue(authn.subject).Err?) ==>
      r == Fail(NullPointer)
  {
    match NameIdValue(mds.subject)
    case Err(e) => Fail(e)
    case Ok(None) => Fail(NullPointer)
    case Ok(Some(mdsPid)) =>
      match NameIdValue(authn.subject)
      case Err(e) => Fail(e)
      case Ok(authnPid) => if authnPid == Some(mdsPid) then Pass else Fail(SamlResponseValidation(MISMATCHED_PIDS))
  }

  /** validate. The level of assurance is a parameter of the source method that it never reads. */
  function Validate<D>(c: AssertionCollaborators<D>, assertions: seq<Assertion>, requestId: string,
                       expectedLevelOfAssurance: LevelOfAssurance): (r: Check)
    ensures r.Pass? ==>
      && |Group(c.classifyAssertion, assertions, AuthnAssertion)| == 1
      && |Group(c.classifyAssertion, assertions, MdsAssertion)| == 1
      && StructurallyValid(Only(c, assertions, AuthnAssertion))
      && StructurallyValid(Only(c, assertions, MdsAssertion))
      && IssuerValue(Only(c, assertions, MdsAssertion)) == IssuerValue(Only(c, assertions, AuthnAssertion))
  {
    var authnAssertions := Group(c.classifyAssertion, assertions, AuthnAssertion);
    if |authnAssertions| != 1 then Fail(SamlResponseValidation(AUTHN_COUNT_MESSAGE))
    else
      var mdsAssertions := Group(c.classifyAssertion, assertions, MdsAssertion);
      if |mdsAssertions| != 1 then Fail(SamlResponseValidation(MDS_COUNT_MESSAGE))
      else
        var authnAssertion := authnAssertions[0];
        var mdsAssertion := mdsAssertions[0];
        match ValidateIdpAssertion(c, authnAssertion, requestId, IdpSsoDescriptor)
        case Fail(e) => Fail(e)
        case Pass =>
          match ValidateIdpAssertion(c, mdsAssertion, requestId, IdpSsoDescriptor)
          case Fail(e) => Fail(e)
          case Pass =>
            if IssuerValue(mdsAssertion) != IssuerValue(authnAssertion) then
              Fail(SamlResponseValidation(MISMATCHED_ISSUERS))
            else
              CompareNameIds(mdsAssertion, authnAssertion)
  }

  /** The only assertion of role `t` in a list holding exactly one. */
  function Only<D>(c: AssertionCollaborators<D>, assertions: seq<Assertion>, t: AssertionType): (a: Assertion)
    requires |Group(c.classifyAssertion, assertions, t)| == 1
    ensures a in assertions && c.classifyAssertion(a) == t
  {
    var g := Group(c.classifyAssertion, assertions, t);
    assert g[0] in multiset(g);
    g[0]
  }

  /**
   * What an accepted assertion list is, without the order of the checks: exactly one
   * assertion of each role, both accepted by the per-assertion checks for the IDP role,
   * with the same issuer and the same, present, NameID.
   */
  predicate Accepted<D>(c: AssertionCollaborators<D>, assertions: seq<Assertion>, requestId: string)
  {
    && |Group(c.classifyAssertion, assertions, AuthnAssertion)| == 1
    && |Group(c.classifyAssertion, assertions, MdsAssertion)| == 1
    && var authn := Only(c, assertions, AuthnAssertion);
       var mds := Only(c, assertions, MdsAssertion);
       && ValidateIdpAssertion(c, authn, requestId, IdpSsoDescriptor).Pass?
       && ValidateIdpAssertion(c, mds, requestId, IdpSsoDescriptor).Pass?
       && IssuerValue(mds) == IssuerValue(authn)
       && NameIdValue(mds.subject).Ok? && NameIdValue(mds.subject).value.Some?
       && NameIdValue(authn.subject) == NameIdValue(mds.subject)
  }

  /** `validate` passes exactly for the accepted lists. */
  lemma ValidateAcceptsExactly<D>(c: AssertionCollaborators<D>, assertions: seq<Assertion>, requestId: string, loa: LevelOfAssurance)
    ensures Validate(c, assertions, requestId, loa).Pass? <==> Accepted(c, assertions, requestId)
  {
  }

  /** The count checks come first, the authn count before the matching-dataset count. */
  lemma ValidateCountsFirst<D>(c: AssertionCollaborators<D>, assertions: seq<Assertion>, requestId: string, loa: LevelOfAssurance)
    ensures |Group(c.classifyAssertion, assertions, AuthnAssertion)| != 1 ==>
      Validate(c, assertions, requestId, loa) == Fail(SamlResponseValidation(AUTHN_COUNT_MESSAGE))
    ensures (|Group(c.classifyAssertion, assertions, AuthnAssertion)| == 1
             && |Group(c.classifyAssertion, assertions, MdsAssertion)| != 1) ==>
      Validate(c, assertions, requestId, loa) == Fail(SamlResponseValidation(MDS_COUNT_MESSAGE))
  {
  }

  /**
   * With the counts right: the authn assertion is checked first, then the matching-dataset
   * assertion, both for the IDP role; then issuers, then NameIDs.
   */
  lemma ValidateCheckOrder<D>(c: AssertionCollaborators<D>, assertions: seq<Assertion>, requestId: string, loa: LevelOfAssurance)
    requires |Group(c.classifyAssertion, assertions, AuthnAssertion)| == 1
    requires |Group(c.classifyAssertion, assertions, MdsAssertion)| == 1
    ensures var authn := Only(c, assertions, AuthnAssertion);
            var mds := Only(c, assertions, MdsAssertion);
            var authnCheck := ValidateIdpAssertion(c, authn, requestId, IdpSsoDescriptor);
            var mdsCheck := ValidateIdpAssertion(c, mds, requestId, IdpSsoDescriptor);
            && (authnCheck.Fail? ==> Validate(c, assertions, requestId, loa) == authnCheck)
            && (authnCheck.Pass? && mdsCheck.Fail? ==> Validate(c, assertions, requestId, loa) == mdsCheck)
            && (authnCheck.Pass? && mdsCheck.Pass? && IssuerValue(mds) != IssuerValue(authn) ==>
                  Validate(c, assertions, requestId, loa) == Fail(SamlResponseValidation(MISMATCHED_ISSUERS)))
            && (authnCheck.Pass? && mdsCheck.Pass? && IssuerValue(mds) == IssuerValue(authn) ==>
                  Validate(c, assertions, requestId, loa) == CompareNameIds(mds, authn))
  {
  }

  /** Two present, different NameIDs are reported as mismatched pids. */
  lemma MismatchedPids(mds: Assertion, authn: Assertion)
    requires NameIdValue(mds.subject).Ok? && NameIdValue(mds.subject).value.Some?
    requires NameIdValue(authn.subject).Ok? && NameIdValue(authn.subject) != NameIdValue(mds.subject)
    ensures CompareNameIds(mds, authn) == Fail(SamlResponseValidation(MISMATCHED_PIDS))
  {
  }

  /** A list with two matching-dataset assertions is rejected, however well-formed each is. */
  lemma {:induction false} TwoMdsAssertionsRejected<D>(
    c: AssertionCollaborators<D>, assertions: seq<Assertion>, requestId: string, loa: LevelOfAssurance, i: nat, j: nat)
    requires i < j < |assertions|
    requires c.classifyAssertion(assertions[i]) == MdsAssertion && c.classifyAssertion(assertions[j]) == MdsAssertion
    ensures Validate(c, assertions, requestId, loa) == Fail(SamlResponseValidation(AUTHN_COUNT_MESSAGE))
         || Validate(c, assertions, requestId, loa) == Fail(SamlResponseValidation(MDS_COUNT_MESSAGE))
  {
    GroupHasTwo(c.classifyAssertion, assertions, MdsAssertion, i, j);
  }

  /** Two positions of role `t` put at least two assertions in its group. */
  lemma {:induction false} GroupHasTwo(classify: Assertion -> AssertionType, s: seq<Assertion>, t: AssertionType, i: nat, j: nat)
    requires i < j < |s|
    requires classify(s[i]) == t && classify(s[j]) == t
    ensures |Group(classify, s, t)| >= 2
  {
    GroupCons(classify, s, t);
    if i == 0 {
      assert s[1..][j - 1] == s[j];
      GroupCount(classify, s[1..], t, s[j]);
      assert multiset(Group(classify, s[1..], t))[s[j]] > 0;
    } else {
      GroupHasTwo(classify, s[1..], t, i - 1, j - 1);
    }
  }

  /** `expectedLevelOfAssurance` takes no part in the outcome of `validate`. */
  lemma ValidateIgnoresLevelOfAssurance<D>(
    c: AssertionCollaborators<D>, assertions: seq<Assertion>, requestId: string, loa1: LevelOfAssurance, loa2: LevelOfAssurance)
    ensures Validate(c, assertions, requestId, loa1) == Validate(c, assertions, requestId, loa2)
  {
  }

  // ---------------------------------------------------------------------------------------
  // Translation

  /**
   * translateSuccessResponse: validation first; the translation it then calls is a stub in
   * the source that returns null, so a passing list yields `Ok(None)`. `A` is the attribute
   * record of the body it would return.
   */
  function TranslateSuccessResponse<D, A>(
    c: AssertionCollaborators<D>, assertions: seq<Assertion>, expectedInResponseTo: string,
    expectedLevelOfAssurance: LevelOfAssurance, entityId: string): (r: Result<Option<TranslatedResponseBody<A>>>)
    ensures r.Ok? <==> Accepted(c, assertions, expectedInResponseTo)
    ensures r.Ok? ==> r.value.None?
    ensures r.Err? ==> Validate(c, assertions, expectedInResponseTo, expectedLevelOfAssurance) == Fail(r.error)
  {
    ValidateAcceptsExactly(c, assertions, expectedInResponseTo, expectedLevelOfAssurance);
    match Validate(c, assertions, expectedInResponseTo, expectedLevelOfAssurance)
    case Fail(e) => Err(e)
    case Pass => Ok(None)
  }

  /** The entity id takes no part in `translateSuccessResponse`. */
  lemma TranslateSuccessResponseIgnoresEntityId<D, A>(
    c: AssertionCollaborators<D>, assertions: seq<Assertion>, rid: string, loa: LevelOfAssurance, e1: string, e2: string)
    ensures TranslateSuccessResponse<D, A>(c, assertions, rid, loa, e1) == TranslateSuccessResponse<D, A>(c, assertions, rid, loa, e2)
  {
  }

  /** The level-of-assurance token of an authn statement: the URI of its authn-context class reference. */
  function LevelOfAssuranceToken(statement: AuthnStatement): (r: Result<Option<string>>)
    ensures r.Err? ==> r.error == NullPointer
    ensures r.Ok? <==> statement.authnContext.Some? && statement.authnContext.value.classRef.Some?
    ensures r.Ok? ==> r.value == statement.authnContext.value.classRef.value.uri
  {
    match statement.authnContext
    case None => Err(NullPointer)
    case Some(context) =>
      match context.classRef
      case None => Err(NullPointer)
      case Some(classRef) => Ok(classRef.uri)
  }

  /**
   * translate: the issuer of the (first) matching-dataset assertion, the authn context for
   * the token of the first authn statement of the first authn assertion, and the
   * unmarshalled matching dataset. The source reads these in that order; a missing group,
   * statement or element is a NullPointerException or IndexOutOfBoundsException. An Issuer
   * element without a value is not dereferenced, so its null value is what is returned.
   */
  function Translate<D>(c: AssertionCollaborators<D>, assertions: seq<Assertion>): (r: Result<AssertionData<D>>)
    ensures r.Ok? ==>
      var authn := Group(c.classifyAssertion, assertions, AuthnAssertion);
      var mds := Group(c.classifyAssertion, assertions, MdsAssertion);
      && |authn| > 0 && |authn[0].authnStatements| > 0 && |mds| > 0
      && LevelOfAssuranceToken(authn[0].authnStatements[0]).Ok?
      && mds[0].issuer.Some?
      && r.value.matchingDatasetIssuer == mds[0].issuer.value.value
      && c.authnContextForLevelOfAssurance(LevelOfAssuranceToken(authn[0].authnStatements[0]).value)
           == Ok(r.value.levelOfAssurance)
      && c.fromAssertion(mds[0]) == Ok(r.value.matchingDataset)
    ensures
      var authn := Group(c.classifyAssertion, assertions, AuthnAssertion);
      var mds := Group(c.classifyAssertion, assertions, MdsAssertion);
      (&& |authn| > 0 && |authn[0].authnStatements| > 0 && |mds| > 0
       && LevelOfAssuranceToken(authn[0].authnStatements[0]).Ok?
       && mds[0].issuer.Some?
       && c.authnContextForLevelOfAssurance(LevelOfAssuranceToken(authn[0].authnStatements[0]).value).Ok?
       && c.fromAssertion(mds[0]).Ok?) ==> r.Ok?
  {
    var authnAssertions := Group(c.classifyAssertion, assertions, AuthnAssertion);
    if |authnAssertions| == 0 then Err(NullPointer)
    else if |authnAssertions[0].authnStatements| == 0 then Err(IndexOutOfBounds)
    else match LevelOfAssuranceToken(authnAssertions[0].authnStatements[0])
      case Err(e) => Err(e)
      case Ok(levelOfAssurance) =>
        var mdsAssertions := Group(c.classifyAssertion, assertions, MdsAssertion);
        if |mdsAssertions| == 0 then Err(NullPointer)
        else
          var mdsAssertion := mdsAssertions[0];
          if mdsAssertion.issuer.None? then Err(NullPointer)
          else match c.authnContextForLevelOfAssurance(levelOfAssurance)
            case Err(e) => Err(e)
            case Ok(authnContext) =>
              match c.fromAssertion(mdsAssertion)
              case Err(e) => Err(e)
              case Ok(matchingDataset) =>
                Ok(AssertionData(mdsAssertion.issuer.value.value, authnContext, matchingDataset))
  }

  /** The failures of `translate`, in the order the source reads the elements. */
  lemma TranslateErrorOrder<D>(c: AssertionCollaborators<D>, assertions: seq<Assertion>)
    ensures var authn := Group(c.classifyAssertion, assertions, AuthnAssertion);
            var mds := Group(c.classifyAssertion, assertions, MdsAssertion);
            && (|authn| == 0 ==> Translate(c, assertions) == Err(NullPointer))
            && (|authn| > 0 && |authn[0].authnStatements| == 0 ==> Translate(c, assertions) == Err(IndexOutOfBounds))
            && (|authn| > 0 && |authn[0].authnStatements| > 0 && LevelOfAssuranceToken(authn[0].authnStatements[0]).Err? ==>
                  Translate(c, assertions) == Err(NullPointer))
            && (|authn| > 0 && |authn[0].authnStatements| > 0 && LevelOfAssuranceToken(authn[0].authnStatements[0]).Ok? ==>
                  && (|mds| == 0 ==> Translate(c, assertions) == Err(NullPointer))
                  && (|mds| > 0 && mds[0].issuer.None? ==> Translate(c, assertions) == Err(NullPointer))
                  && (|mds| > 0 && mds[0].issuer.Some?
                      && c.authnContextForLevelOfAssurance(LevelOfAssuranceToken(authn[0].authnStatements[0]).value).Err? ==>
                        Translate(c, assertions)
                          == Err(c.authnContextForLevelOfAssurance(LevelOfAssuranceToken(authn[0].authnStatements[0]).value).error))
                  && (|mds| > 0 && mds[0].issuer.Some?
                      && c.authnContextForLevelOfAssurance(LevelOfAssuranceToken(authn[0].authnStatements[0]).value).Ok?
                      && c.fromAssertion(mds[0]).Err? ==>
                        Translate(c, assertions) == Err(c.fromAssertion(mds[0]).error)))
  {
  }

  /** An Issuer element with no value gives a translation whose issuer is null, not a failure. */
  lemma TranslateKeepsNullIssuer<D>(c: AssertionCollaborators<D>, assertions: seq<Assertion>)
    requires var authn := Group(c.classifyAssertion, assertions, AuthnAssertion);
             var mds := Group(c.classifyAssertion, assertions, MdsAssertion);
             && |authn| > 0 && |authn[0].authnStatements| > 0 && |mds| > 0
             && LevelOfAssuranceToken(authn[0].authnStatements[0]).Ok?
             && c.authnContextForLevelOfAssurance(LevelOfAssuranceToken(authn[0].authnStatements[0]).value).Ok?
             && c.fromAssertion(mds[0]).Ok?
             && mds[0].issuer == Some(Issuer(None))
    ensures Translate(c, assertions).Ok? && Translate(c, assertions).value.matchingDatasetIssuer.None?
  {
  }

  /**
   * `translate` reads the first assertion of each role in input order: the issuer and the
   * matching dataset come from the earliest matching-dataset assertion of the list.
   */
  lemma {:induction false} TranslateReadsFirstMdsAssertion<D>(c: AssertionCollaborators<D>, assertions: seq<Assertion>, i: nat)
    requires i < |assertions| && c.classifyAssertion(assertions[i]) == MdsAssertion
    requires forall j :: 0 <= j < i ==> c.classifyAssertion(assertions[j]) != MdsAssertion
    requires Translate(c, assertions).Ok?
    ensures assertions[i].issuer.Some?
    ensures Translate(c, assertions).value.matchingDatasetIssuer == assertions[i].issuer.value.value
    ensures c.fromAssertion(assertions[i]) == Ok(Translate(c, assertions).value.matchingDataset)
  {
    GroupHead(c.classifyAssertion, assertions, MdsAssertion, i);
  }

  /** On an accepted list, translation reads the two assertions `validate` accepted. */
  lemma TranslateAfterValidate<D>(c: AssertionCollaborators<D>, assertions: seq<Assertion>, requestId: string)
    requires Accepted(c, assertions, requestId)
    requires Translate(c, assertions).Ok?
    ensures Translate(c, assertions).value.matchingDatasetIssuer == Some(IssuerValue(Only(c, assertions, MdsAssertion)))
    ensures Translate(c, assertions).value.matchingDatasetIssuer == Some(IssuerValue(Only(c, assertions, AuthnAssertion)))
  {
  }
}
