/** `signInWithSRP`: validates the request, initiates USER_SRP_AUTH, answers the
    PASSWORD_VERIFIER challenge and maps the final response or error to a
    sign-in result. It writes no sign-in session state. */
module SignInWithSrp {
  import opened Wrappers
  import opened AuthTypes
  import opened RequestParts
  import AuthUtils
  import InitiateAuthHelper
  import HandleChallengeHelper

  /** The catch block: the two recoverable service errors become next steps;
      every other error is rethrown unchanged. */
  function Recover(e: AuthError): (r: Result<SignInResult, AuthError>)
    ensures r.Success? <==> e.name == PasswordResetRequiredException || e.name == UserNotConfirmedException
    ensures e.name == PasswordResetRequiredException ==> r == Success(SignInResult(false, Bare(RESET_PASSWORD)))
    ensures e.name == UserNotConfirmedException ==> r == Success(SignInResult(false, Bare(CONFIRM_SIGN_UP)))
    ensures r.Failure? ==> r.error == e
  {
    if e.name == PasswordResetRequiredException then Success(SignInResult(false, Bare(RESET_PASSWORD)))
    else if e.name == UserNotConfirmedException then Success(SignInResult(false, Bare(CONFIRM_SIGN_UP)))
    else Failure(e)
  }

  /** The explicit name checks recover exactly what the library's error mapping recovers. */
  lemma RecoverIsErrorMapping(e: AuthError)
    ensures Recover(e).Success? <==> AuthUtils.GetSignInResultFromError(e.name).Some?
    ensures Recover(e).Success? ==> Recover(e).value == AuthUtils.GetSignInResultFromError(e.name).value
  {
  }

  /** What a final response or error turns into: signed in exactly when it
      carries an AuthenticationResult; otherwise the next step of the returned
      challenge; a thrown error, including one raised by the mapping, is recovered or rethrown. */
  function Conclude(response: Result<AuthResponse, AuthError>): (r: Result<SignInResult, AuthError>)
    ensures (r.Success? && r.value.isSignedIn) <==> (response.Success? && response.value.authenticationResult.Some?)
    ensures response.Success? && response.value.authenticationResult.Some? ==> r == Success(SignedIn)
    ensures response.Success? && response.value.authenticationResult.None? ==>
      var next := AuthUtils.GetSignInResult(response.value.challengeName, response.value.challengeParameters, None);
      r == (if next.Success? then next else Recover(next.error))
    ensures response.Failure? ==> r == Recover(response.error)
  {
    match response
    case Failure(e) => Recover(e)
    case Success(resp) =>
      if resp.authenticationResult.Some? then Success(SignedIn)
      else
        match AuthUtils.GetSignInResult(resp.challengeName, resp.challengeParameters, None)
        case Success(result) => Success(result)
        case Failure(e) => Recover(e)
  }

  /** The body of `signInWithSRP` around its verifier call. */
  function RunSrp(request: SignInRequest, config: AmplifyConfig, srp: SrpContext, service: Service,
                  verifier: AuthResponse -> Exchange): Run
  {
    if request.username == "" then Run(Failure(AuthError(EmptySignInUsername)), [])
    else if request.password == "" then Run(Failure(AuthError(EmptySignInPassword)), [])
    else
      var init := InitiateAuthHelper.HandleUserSrpAuthFlow(request.username, None, config, srp, service);
      match init.response
      case Failure(_) => Run(Conclude(init.response), init.sent)
      case Success(resp) =>
        var answer := verifier(resp);
        Run(Conclude(answer.response), init.sent + answer.sent)
  }

  /** `signInWithSRP`, its verifier call bound to the four-parameter
      `handlePasswordVerifierChallenge` that its argument list matches. */
  function SignInWithSrp(request: SignInRequest, config: AmplifyConfig, srp: SrpContext, service: Service)
    : (run: Run)
    ensures request.username == "" ==> run == Run(Failure(AuthError(EmptySignInUsername)), [])
    ensures request.username != "" && request.password == "" ==> run == Run(Failure(AuthError(EmptySignInPassword)), [])
    ensures request.username != "" && request.password != "" && srp.largeA.None? ==>
      run == Run(Failure(AuthError(TypeErrorName)), [])
    ensures request.username != "" && request.password != "" ==>
      var init := InitiateAuthHelper.HandleUserSrpAuthFlow(request.username, None, config, srp, service);
      && |run.sent| >= |init.sent| && run.sent[..|init.sent|] == init.sent
      && (init.response.Failure? ==> run == Run(Conclude(init.response), init.sent))
      && (init.response.Success? ==>
            var answer := HandleChallengeHelper.HandlePasswordVerifierChallenge(
              request.username, request.password, init.response.value.challengeParameters,
              ClientMetaDataOf(request), config, srp, service);
            run == Run(Conclude(answer.response), init.sent + answer.sent))
  {
    RunSrp(request, config, srp, service,
           (resp: AuthResponse) => HandleChallengeHelper.HandlePasswordVerifierChallenge(
             request.username, request.password, resp.challengeParameters, ClientMetaDataOf(request),
             config, srp, service))
  }

  /** When the service accepts the initiation, the key is derived and the
      signature over the returned secret block can be computed, the flow sends
      the initiation and the verifier answer, and signs in exactly when the
      answer's response carries an AuthenticationResult. */
  lemma SignInWithSrpCompletes(request: SignInRequest, config: AmplifyConfig, srp: SrpContext, service: Service)
    requires request.username != "" && request.password != "" && srp.largeA.Some?
    requires service(InitiateAuthHelper.HandleUserSrpAuthFlow(request.username, None, config, srp, service).sent[0]).Success?
    requires var resp := service(InitiateAuthHelper.HandleUserSrpAuthFlow(request.username, None, config, srp, service).sent[0]).value;
      var key := srp.deriveKey(VerifierKey(PoolName(config.authUserPoolId), Some(request.username), request.password,
                                           resp.challengeParameters));
      && key.Success?
      && VerifierSignature(resp.challengeParameters, PoolName(config.authUserPoolId), srp.dateNow, key.value,
                           srp.sign).Success?
    ensures var run := SignInWithSrp(request, config, srp, service);
      && |run.sent| == 2 && run.sent[1].RespondToAuthChallenge? && run.sent[1].challengeName == PASSWORD_VERIFIER
      && ((run.result.Success? && run.result.value.isSignedIn) <==>
            (service(run.sent[1]).Success? && service(run.sent[1]).value.authenticationResult.Some?))
  {
    var run := SignInWithSrp(request, config, srp, service);
    var init := InitiateAuthHelper.HandleUserSrpAuthFlow(request.username, None, config, srp, service);
    var answer := HandleChallengeHelper.HandlePasswordVerifierChallenge(
      request.username, request.password, init.response.value.challengeParameters,
      ClientMetaDataOf(request), config, srp, service);
    assert run.sent == init.sent + answer.sent;
    assert run.sent[1] == answer.sent[0];
  }

  /** When the signature over the returned secret block cannot be computed (no
      secret block, or one `atob` rejects), only the initiation is sent and the
      flow ends with what `getSignatureString` threw, unless that names a
      recoverable error. */
  lemma SignInWithSrpSignatureFails(request: SignInRequest, config: AmplifyConfig, srp: SrpContext, service: Service)
    requires request.username != "" && request.password != "" && srp.largeA.Some?
    requires service(InitiateAuthHelper.HandleUserSrpAuthFlow(request.username, None, config, srp, service).sent[0]).Success?
    requires var resp := service(InitiateAuthHelper.HandleUserSrpAuthFlow(request.username, None, config, srp, service).sent[0]).value;
      var key := srp.deriveKey(VerifierKey(PoolName(config.authUserPoolId), Some(request.username), request.password,
                                           resp.challengeParameters));
      && key.Success?
      && VerifierSignature(resp.challengeParameters, PoolName(config.authUserPoolId), srp.dateNow, key.value,
                           srp.sign).Failure?
    ensures var run := SignInWithSrp(request, config, srp, service);
      var resp := service(InitiateAuthHelper.HandleUserSrpAuthFlow(request.username, None, config, srp, service).sent[0]).value;
      var key := srp.deriveKey(VerifierKey(PoolName(config.authUserPoolId), Some(request.username), request.password,
                                           resp.challengeParameters));
      && |run.sent| == 1 && run.sent[0].InitiateAuth?
      && run.result == Recover(VerifierSignature(resp.challengeParameters, PoolName(config.authUserPoolId), srp.dateNow,
                                                 key.value, srp.sign).error)
  {
    var init := InitiateAuthHelper.HandleUserSrpAuthFlow(request.username, None, config, srp, service);
    var answer := HandleChallengeHelper.HandlePasswordVerifierChallenge(
      request.username, request.password, init.response.value.challengeParameters,
      ClientMetaDataOf(request), config, srp, service);
    assert answer.sent == [];
  }

  /** `signInWithSRP` as written: the four arguments are passed to the
      three-parameter `handlePasswordVerifierChallenge` it imports, so they bind
      by position. The user name takes the password's place; the password
      string takes the challenge parameters' place and has none of their
      fields; the returned challenge parameters take the metadata's place. */
  function SignInWithSrpAsWritten(request: SignInRequest, config: AmplifyConfig, srp: SrpContext, service: Service)
    : (run: Run)
    ensures request.username == "" ==> run == Run(Failure(AuthError(EmptySignInUsername)), [])
    ensures request.username != "" && request.password == "" ==> run == Run(Failure(AuthError(EmptySignInPassword)), [])
  {
    RunSrp(request, config, srp, service,
           (resp: AuthResponse) => InitiateAuthHelper.HandlePasswordVerifierChallenge(
             request.username, None, resp.challengeParameters, config, srp, service))
  }

  /** As written, no verifier answer is ever sent, so the flow can never sign in. */
  lemma AsWrittenNeverSignsIn(request: SignInRequest, config: AmplifyConfig, srp: SrpContext, service: Service)
    ensures var run := SignInWithSrpAsWritten(request, config, srp, service);
      && |run.sent| <= 1
      && (forall i :: 0 <= i < |run.sent| ==> run.sent[i].InitiateAuth?)
      && !(run.result.Success? && run.result.value.isSignedIn)
  {
    var run := SignInWithSrpAsWritten(request, config, srp, service);
    if request.username != "" && request.password != "" {
      var init := InitiateAuthHelper.HandleUserSrpAuthFlow(request.username, None, config, srp, service);
      if init.response.Success? {
        var answer := InitiateAuthHelper.HandlePasswordVerifierChallenge(
          request.username, None, init.response.value.challengeParameters, config, srp, service);
        assert answer.sent == [];
        assert run.sent == init.sent + answer.sent;
      }
    }
  }
}
