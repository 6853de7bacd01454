/** ResponseSizeValidator: an upper bound on the length of an incoming SAML response. */
module ResponseSizeValidator {
  import opened Failures

  const MAX_SAML_RESPONSE_LENGTH: nat := 50000

  const TOO_LONG_MESSAGE: string := "SAML Response is too long."

  /** validate: accepts every input of at most MAX_SAML_RESPONSE_LENGTH characters. */
  function Validate(input: string): (r: Check)
    ensures r.Pass? <==> |input| <= 50000
    ensures r.Fail? ==> r.error == SamlResponseValidation("SAML Response is too long.")
  {
    if |input| > MAX_SAML_RESPONSE_LENGTH then Fail(SamlResponseValidation(TOO_LONG_MESSAGE)) else Pass
  }

  /** Only the length matters: inputs of equal length get the same verdict. */
  lemma OnlyLengthMatters(a: string, b: string)
    requires |a| == |b|
    ensures Validate(a) == Validate(b)
  {
  }

  /** The boundary: 50000 characters pass, 50001 fail. */
  lemma Boundary(s: string)
    ensures |s| == 50000 ==> Validate(s) == Pass
    ensures |s| == 50001 ==> Validate(s) == Fail(SamlResponseValidation(TOO_LONG_MESSAGE))
  {
  }

  /** A prefix of an accepted input is accepted. */
  lemma PrefixOfAcceptedIsAccepted(s: string, n: nat)
    requires n <= |s|
    requires Validate(s) == Pass
    ensures Validate(s[..n]) == Pass
  {
  }
}
