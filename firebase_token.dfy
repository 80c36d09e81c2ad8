/**
 * firebaseValidateToken: the test-token bypass, then delegation to the identity verifier
 * (Firebase Admin's `verifyIdToken`, a parameter here) with its failures turned into "Unauthorized".
 */
module FirebaseToken {
  import opened Wrappers

  /** The decoded ID token; claims other than uid and email are not modelled. */
  datatype DecodedToken = DecodedToken(uid: string, email: Option<string>)

  /** What the test token decodes to. */
  const TestUser := DecodedToken("testuid", Some("test@example.com"))

  const UnauthorizedMessage := "Unauthorized"

  /** `testToken` is `process.env.FIREBASE_TEST_IDTOKEN` (None when it is not configured);
      `verify` stands for `auth.verifyIdToken`. The strict `===` never equates a string with
      undefined, so an unconfigured test token matches nothing. */
  function ValidateToken(token: string, testToken: Option<string>,
                         verify: string -> Outcome<DecodedToken>): (r: Outcome<DecodedToken>)
    ensures testToken == Some(token) ==> r == Returned(TestUser)
    ensures testToken != Some(token) && verify(token).Returned? ==> r == verify(token)
    ensures testToken != Some(token) && verify(token).Threw? ==> r == Threw(UnauthorizedMessage)
  {
    if testToken == Some(token) then Returned(TestUser)
    else match verify(token)
      case Returned(decoded) => Returned(decoded)
      case Threw(_) => Threw(UnauthorizedMessage)
  }

  /** The test token is answered before the verifier is consulted: its result is the same
      whatever the verifier would say. */
  lemma TestTokenBypassesVerifier(token: string, verify1: string -> Outcome<DecodedToken>,
                                  verify2: string -> Outcome<DecodedToken>)
    ensures ValidateToken(token, Some(token), verify1) == ValidateToken(token, Some(token), verify2)
         == Returned(TestUser)
  {
  }

  /** Every failure carries the single message "Unauthorized", whatever the verifier threw. */
  lemma FailuresAreUnauthorized(token: string, testToken: Option<string>, verify: string -> Outcome<DecodedToken>)
    ensures ValidateToken(token, testToken, verify).Threw? <==> testToken != Some(token) && verify(token).Threw?
    ensures ValidateToken(token, testToken, verify).Threw? ==>
              ValidateToken(token, testToken, verify).error == UnauthorizedMessage
  {
  }

  /** With no test token configured, validation is exactly the verifier's answer. */
  lemma UnconfiguredTestTokenDelegates(token: string, verify: string -> Outcome<DecodedToken>)
    ensures forall d :: ValidateToken(token, None, verify) == Returned(d) <==> verify(token) == Returned(d)
  {
  }
}
