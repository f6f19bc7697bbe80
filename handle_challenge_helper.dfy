/** The request builders of handleChallengeHelper.ts: an SRP initiation that
    carries no metadata, and a verifier answer whose key is derived for the
    caller's user name. */
module HandleChallengeHelper {
  import opened Wrappers
  import opened AuthTypes
  import opened RequestParts

  /** `handleUserSRPAuthChallenge`: USER_SRP_AUTH with USERNAME and SRP_A and
      nothing else; without an A, the TypeError comes before any request. */
  function HandleUserSrpAuthChallenge(username: string, srp: SrpContext, service: Service): (x: Exchange)
    ensures srp.largeA.None? ==> x == Exchange(Failure(AuthError(TypeErrorName)), [])
    ensures srp.largeA.Some? ==>
      && |x.sent| == 1 && x.response == service(x.sent[0])
      && x.sent[0].InitiateAuth? && x.sent[0].authFlow == "USER_SRP_AUTH" && x.sent[0].clientMetadata.None?
      && x.sent[0].authParameters.Keys == {"USERNAME", "SRP_A"}
      && x.sent[0].authParameters["USERNAME"] == Str(username) && x.sent[0].authParameters["SRP_A"] == SrpA(srp).value
  {
    match SrpA(srp)
    case Failure(e) => Exchange(Failure(e), [])
    case Success(a) => Send(InitiateAuth("USER_SRP_AUTH", map["USERNAME" := Str(username), "SRP_A" := a], None), service)
  }

  /** This file's `handlePasswordVerifierChallenge`: derives the key for the
      caller's user name, answers with USERNAME set to USER_ID_FOR_SRP, without a
      session, and with the metadata fallback. */
  function HandlePasswordVerifierChallenge(username: string, password: string, challengeParameters: Option<Params>,
                                           clientMetadata: Option<Params>, config: AmplifyConfig,
                                           srp: SrpContext, service: Service): (x: Exchange)
    ensures var userPoolName := PoolName(config.authUserPoolId);
      var key := VerifierKey(userPoolName, Some(username), password, challengeParameters);
      && (x.sent == [] <==> || srp.deriveKey(key).Failure?
                            || VerifierSignature(challengeParameters, userPoolName, srp.dateNow,
                                                 srp.deriveKey(key).value, srp.sign).Failure?)
      && (srp.deriveKey(key).Failure? ==> x.response == Failure(srp.deriveKey(key).error))
      && (srp.deriveKey(key).Success? && x.sent == [] ==>
            x.response == Failure(VerifierSignature(challengeParameters, userPoolName, srp.dateNow,
                                                    srp.deriveKey(key).value, srp.sign).error))
      && (x.sent != [] ==>
            && |x.sent| == 1 && x.response == service(x.sent[0])
            && x.sent[0].RespondToAuthChallenge? && x.sent[0].challengeName == PASSWORD_VERIFIER
            && x.sent[0].session.None?
            && x.sent[0].clientMetadata == MetadataOrDefault(clientMetadata, config)
            && AnswersVerifier(x.sent[0].challengeResponses, challengeParameters, userPoolName, srp.dateNow,
                               srp.deriveKey(key).value, srp.sign))
  {
    var userPoolName := PoolName(config.authUserPoolId);
    var key := VerifierKey(userPoolName, Some(username), password, challengeParameters);
    RespondToVerifier(key, challengeParameters, userPoolName, None, MetadataOrDefault(clientMetadata, config),
                      srp, service)
  }
}
