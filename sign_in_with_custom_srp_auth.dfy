/** `signInWithCustomSRPAuth`: validates the request, initiates CUSTOM_AUTH with
    SRP_A, answers PASSWORD_VERIFIER with the parameters the initiation
    returned, and maps the final response or error to a sign-in result. It
    writes no sign-in session state. */
module SignInWithCustomSrpAuth {
  import opened Wrappers
  import opened AuthTypes
  import AuthUtils
  import InitiateAuthHelper
  import SignInWithSrp
  import SignInHelpers

  /** What a final response or error turns into. */
  function Conclude(response: Result<AuthResponse, AuthError>): (r: Result<SignInResult, AuthError>)
    ensures (r.Success? && r.value.isSignedIn) <==> (response.Success? && response.value.authenticationResult.Some?)
    ensures response.Success? && response.value.authenticationResult.Some? ==> r == Success(SignedIn)
    ensures response.Success? && response.value.authenticationResult.None? ==>
      var next := AuthUtils.GetSignInResult(response.value.challengeName, response.value.challengeParameters, None);
      r == (if next.Success? then next else SignInHelpers.RecoverOrRethrow(next.error))
    ensures response.Failure? ==> r == SignInHelpers.RecoverOrRethrow(response.error)
  {
    match response
    case Failure(e) => SignInHelpers.RecoverOrRethrow(e)
    case Success(resp) =>
      if resp.authenticationResult.Some? then Success(SignedIn)
      else
        match AuthUtils.GetSignInResult(resp.challengeName, resp.challengeParameters, None)
        case Success(result) => Success(result)
        case Failure(e) => SignInHelpers.RecoverOrRethrow(e)
  }

  /** This flow and `signInWithSRP` turn every final response or error into the same result. */
  lemma ConcludesLikeSrp(response: Result<AuthResponse, AuthError>)
    ensures Conclude(response) == SignInWithSrp.Conclude(response)
  {
    match response
    case Failure(e) =>
      SignInWithSrp.RecoverIsErrorMapping(e);
    case Success(resp) =>
      var next := AuthUtils.GetSignInResult(resp.challengeName, resp.challengeParameters, None);
      if next.Failure? {
        SignInWithSrp.RecoverIsErrorMapping(next.error);
      }
  }

  /** `signInWithCustomSRPAuth` */
  function SignInWithCustomSrpAuth(request: SignInRequest, config: AmplifyConfig, srp: SrpContext, service: Service)
    : (run: Run)
    ensures request.username == "" ==> run == Run(Failure(AuthError(EmptySignInUsername)), [])
    ensures request.username != "" && request.password == "" ==> run == Run(Failure(AuthError(EmptySignInPassword)), [])
    ensures request.username != "" && request.password != "" && srp.largeA.None? ==>
      run == Run(Failure(AuthError(TypeErrorName)), [])
    ensures request.username != "" && request.password != "" ==>
      var metadata := ClientMetaDataOf(request);
      var init := InitiateAuthHelper.HandleCustomSrpAuthFlow(request.username, metadata, config, srp, service);
      && |run.sent| >= |init.sent| && run.sent[..|init.sent|] == init.sent
      && (init.response.Failure? ==> run == Run(Conclude(init.response), init.sent))
      && (init.response.Success? ==>
            var answer := InitiateAuthHelper.HandlePasswordVerifierChallenge(
              request.password, init.response.value.challengeParameters, metadata, config, srp, service);
            run == Run(Conclude(answer.response), init.sent + answer.sent))
  {
    var metadata := ClientMetaDataOf(request);
    if request.username == "" then Run(Failure(AuthError(EmptySignInUsername)), [])
    else if request.password == "" then Run(Failure(AuthError(EmptySignInPassword)), [])
    else
      var init := InitiateAuthHelper.HandleCustomSrpAuthFlow(request.username, metadata, config, srp, service);
      match init.response
      case Failure(_) => Run(Conclude(init.response), init.sent)
      case Success(resp) =>
        var answer := InitiateAuthHelper.HandlePasswordVerifierChallenge(
          request.password, resp.challengeParameters, metadata, config, srp, service);
        Run(Conclude(answer.response), init.sent + answer.sent)
  }
}
