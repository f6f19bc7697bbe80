/** The values exchanged by the sign-in core: challenge parameters, sign-in
    results and their next steps, the requests sent to the identity service and
    its responses, the caller's sign-in request and the library configuration. */
module AuthTypes {
  import opened Wrappers

  /** A byte, as stored in a `Uint8Array`. */
  newtype uint8 = x: int | 0 <= x < 256

  /** A string-to-string record: challenge parameters, client metadata, attributes. */
  type Params = map<string, string>

  /** `obj?.key` on an optional record. */
  function Lookup(p: Option<Params>, key: string): Option<string> {
    if p.Some? && key in p.value then Some(p.value[key]) else None
  }

  /** JavaScript truthiness of an optional string: present and non-empty. */
  predicate Truthy(s: Option<string>) {
    s.Some? && s.value != ""
  }

  // ---------------------------------------------------------------------------
  // Errors

  /** Every error the core throws or lets through is identified by its `name`. */
  datatype AuthError = AuthError(name: string)

  const EmptySignInUsername := "EmptySignInUsername"
  const EmptySignInPassword := "EmptySignInPassword"
  const SignInException := "SignInException"
  const UnsupportedChallengeName := "UnsupportedChallengeName"
  const UnrecognizedChallengeName := "UnrecognizedChallengeName"
  const PasswordResetRequiredException := "PasswordResetRequiredException"
  const UserNotConfirmedException := "UserNotConfirmedException"
  /** What reading a property of `undefined` throws. */
  const TypeErrorName := "TypeError"

  // ---------------------------------------------------------------------------
  // Challenge names the service sends

  const ADMIN_NO_SRP_AUTH := "ADMIN_NO_SRP_AUTH"
  const CUSTOM_CHALLENGE := "CUSTOM_CHALLENGE"
  const DEVICE_PASSWORD_VERIFIER := "DEVICE_PASSWORD_VERIFIER"
  const DEVICE_SRP_AUTH := "DEVICE_SRP_AUTH"
  const MFA_SETUP := "MFA_SETUP"
  const NEW_PASSWORD_REQUIRED := "NEW_PASSWORD_REQUIRED"
  const PASSWORD_VERIFIER := "PASSWORD_VERIFIER"
  const SELECT_MFA_TYPE := "SELECT_MFA_TYPE"
  const SMS_MFA := "SMS_MFA"
  const SOFTWARE_TOKEN_MFA := "SOFTWARE_TOKEN_MFA"

  // ---------------------------------------------------------------------------
  // Sign-in results

  /** The next-step names of the published enumeration, and `Undefined`: what
      reading a member that the enumeration lacks gives. */
  datatype SignInStep =
    | CONFIRM_SIGN_IN_WITH_SMS_CODE
    | CONFIRM_SIGN_IN_WITH_CUSTOM_CHALLENGE
    | CONFIRM_SIGN_IN_WITH_NEW_PASSWORD_REQUIRED
    | CONFIRM_SIGN_IN_WITH_TOTP_CODE
    | CONTINUE_SIGN_IN_WITH_TOTP_SETUP
    | CONTINUE_SIGN_IN_WITH_MFA_SELECTION
    | CONFIRM_SIGN_UP
    | RESET_PASSWORD
    | DONE
    | Undefined

  datatype CodeDeliveryDetails = CodeDeliveryDetails(deliveryMedium: Option<string>, destination: Option<string>)

  /** TOTP setup details; the sign-in mapping only ever fills it with an empty object. */
  datatype TotpSetupDetails = TotpSetupDetails(sharedSecret: Option<string>)

  datatype MfaType = SMS | TOTP

  /** A next step: the step name and whichever optional fields the mapping fills. */
  datatype NextStep = NextStep(
    signInStep: SignInStep,
    codeDeliveryDetails: Option<CodeDeliveryDetails>,
    additionalInfo: Option<Params>,
    missingAttributes: Option<seq<string>>,
    totpSetupDetails: Option<TotpSetupDetails>,
    allowedMfaTypes: Option<seq<MfaType>>,
    secretCode: Option<string>)

  /** A next step that carries nothing but its name. */
  function Bare(step: SignInStep): NextStep {
    NextStep(step, None, None, None, None, None, None)
  }

  datatype SignInResult = SignInResult(isSignedIn: bool, nextStep: NextStep)

  /** `{ isSignedIn: true, nextStep: { signInStep: DONE } }` */
  const SignedIn := SignInResult(true, Bare(DONE))

  // ---------------------------------------------------------------------------
  // Identity-service boundary

  /** A value inside `AuthParameters`: a string, or (as some builders put it there) the client metadata record. */
  datatype AuthParam = Str(text: string) | Metadata(metadata: Params)

  /** A request as sent on the wire; a field whose value is `undefined` is absent. */
  datatype Request =
    | InitiateAuth(authFlow: string, authParameters: map<string, AuthParam>, clientMetadata: Option<Params>)
    | RespondToAuthChallenge(challengeName: string, challengeResponses: Params,
                             session: Option<string>, clientMetadata: Option<Params>)
    | VerifySoftwareToken(userCode: string, session: Option<string>)

  datatype AuthenticationResult = AuthenticationResult(accessToken: string, idToken: Option<string>, refreshToken: Option<string>)

  /** `{ ChallengeName?, ChallengeParameters?, Session?, AuthenticationResult? }` */
  datatype AuthResponse = AuthResponse(
    challengeName: Option<string>,
    challengeParameters: Option<Params>,
    session: Option<string>,
    authenticationResult: Option<AuthenticationResult>)

  /** The identity service: each request gets a response or a named service error. */
  type Service = Request -> Result<AuthResponse, AuthError>

  /** A response or error together with the requests sent to obtain it, in order. */
  datatype Exchange = Exchange(response: Result<AuthResponse, AuthError>, sent: seq<Request>)

  /** A sign-in result or error together with the requests sent to obtain it, in order. */
  datatype Run = Run(result: Result<SignInResult, AuthError>, sent: seq<Request>)

  // ---------------------------------------------------------------------------
  // SRP values computed outside the core

  type Key = seq<uint8>

  /** What the password-authentication key is derived from. */
  datatype KeyInput = KeyInput(userPoolName: Option<string>, username: Option<string>, password: string,
                               serverB: Option<string>, salt: Option<string>)

  /** What the password-claim signature is computed from. */
  datatype SignatureInput = SignatureInput(userPoolName: Option<string>, username: Option<string>,
                                           secretBlock: string, dateNow: string, hkdf: Key)

  /** The SRP side of one sign-in attempt: the public value A (`None` when
      `getLargeAValue` resolves without one, as it does when the helper reports
      an error), the key derivation
      (which may reject), the signature and the timestamp string of the verifier
      round. `sign` is `getSignatureString` on a present secret block
      (`AuthUtils.GetSignatureString`); it throws when `atob` rejects the block or
      when no `atob` or `btoa` is available, and then yields that error. */
  datatype SrpContext = SrpContext(
    largeA: Option<nat>,
    deriveKey: KeyInput -> Result<Key, AuthError>,
    sign: SignatureInput -> Result<string, AuthError>,
    dateNow: string)

  // ---------------------------------------------------------------------------
  // Caller input and configuration

  /** `serviceOptions` of a sign-in request. `clientMetaData` is the declared
      field; `clientMetadata` is the spelling the user-password flow reads. */
  datatype ServiceOptions = ServiceOptions(
    authFlowType: Option<string>,
    clientMetaData: Option<Params>,
    clientMetadata: Option<Params>)

  datatype SignInOptions = SignInOptions(serviceOptions: Option<ServiceOptions>)

  datatype SignInRequest = SignInRequest(username: string, password: string, options: Option<SignInOptions>)

  function ServiceOptionsOf(request: SignInRequest): Option<ServiceOptions> {
    if request.options.Some? then request.options.value.serviceOptions else None
  }

  /** `signInRequest.options?.serviceOptions?.clientMetaData` */
  function ClientMetaDataOf(request: SignInRequest): Option<Params> {
    var options := ServiceOptionsOf(request);
    if options.Some? then options.value.clientMetaData else None
  }

  /** The library configuration the helpers read: the pool id under its old key
      (`aws_user_pools_id`) and its new one (`Auth.userPoolId`), and the default client metadata. */
  datatype AmplifyConfig = AmplifyConfig(awsUserPoolsId: string, authUserPoolId: string, clientMetadata: Option<Params>)
}
