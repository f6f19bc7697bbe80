/** The request builders of IniateAuthAndRespondToAuthChallengeHelper.ts. Each
    reads the pool id under `Auth.userPoolId` and falls back to the configured
    client metadata with `??`. The three initiations that carry metadata put it
    inside `AuthParameters`; USER_PASSWORD_AUTH and the verifier answer put it
    at the top level. */
module InitiateAuthHelper {
  import opened Wrappers
  import opened AuthTypes
  import opened RequestParts

  /** `handleUserSRPAuthFlow`: USER_SRP_AUTH with USERNAME and SRP_A, and the
      metadata as a parameter; without an A, the TypeError comes before any request. */
  function HandleUserSrpAuthFlow(username: string, clientMetadata: Option<Params>, config: AmplifyConfig,
                                 srp: SrpContext, service: Service): (x: Exchange)
    ensures srp.largeA.None? ==> x == Exchange(Failure(AuthError(TypeErrorName)), [])
    ensures srp.largeA.Some? ==>
      && |x.sent| == 1 && x.response == service(x.sent[0])
      && x.sent[0].InitiateAuth? && x.sent[0].authFlow == "USER_SRP_AUTH" && x.sent[0].clientMetadata.None?
      && var p := x.sent[0].authParameters;
         && p.Keys - {"ClientMetadata"} == {"USERNAME", "SRP_A"}
         && p["USERNAME"] == Str(username) && p["SRP_A"] == SrpA(srp).value
         && HasMetadataParam(p, MetadataOrDefault(clientMetadata, config))
  {
    var clientMeta := MetadataOrDefault(clientMetadata, config);
    match SrpA(srp)
    case Failure(e) => Exchange(Failure(e), [])
    case Success(a) =>
      Send(InitiateAuth("USER_SRP_AUTH", map["USERNAME" := Str(username), "SRP_A" := a] + MetadataParam(clientMeta), None),
           service)
  }

  /** `handleCustomSRPAuthFlow`: CUSTOM_AUTH with the same parameters and
      `CHALLENGE_NAME: 'SRP_A'`; without an A, the TypeError comes before any request. */
  function HandleCustomSrpAuthFlow(username: string, clientMetadata: Option<Params>, config: AmplifyConfig,
                                   srp: SrpContext, service: Service): (x: Exchange)
    ensures srp.largeA.None? ==> x == Exchange(Failure(AuthError(TypeErrorName)), [])
    ensures srp.largeA.Some? ==>
      && |x.sent| == 1 && x.response == service(x.sent[0])
      && x.sent[0].InitiateAuth? && x.sent[0].authFlow == "CUSTOM_AUTH" && x.sent[0].clientMetadata.None?
      && var p := x.sent[0].authParameters;
         && p.Keys - {"ClientMetadata"} == {"USERNAME", "SRP_A", "CHALLENGE_NAME"}
         && p["USERNAME"] == Str(username) && p["SRP_A"] == SrpA(srp).value && p["CHALLENGE_NAME"] == Str("SRP_A")
         && HasMetadataParam(p, MetadataOrDefault(clientMetadata, config))
  {
    var clientMeta := MetadataOrDefault(clientMetadata, config);
    match SrpA(srp)
    case Failure(e) => Exchange(Failure(e), [])
    case Success(a) =>
      Send(InitiateAuth("CUSTOM_AUTH",
                        map["USERNAME" := Str(username), "SRP_A" := a, "CHALLENGE_NAME" := Str("SRP_A")]
                          + MetadataParam(clientMeta), None),
           service)
  }

  /** `handleCustomAuthFlowWithoutSRP`: CUSTOM_AUTH with USERNAME and the metadata only. */
  function HandleCustomAuthFlowWithoutSrp(username: string, clientMetadata: Option<Params>, config: AmplifyConfig,
                                          service: Service): (x: Exchange)
    ensures |x.sent| == 1 && x.response == service(x.sent[0])
    ensures x.sent[0].InitiateAuth? && x.sent[0].authFlow == "CUSTOM_AUTH" && x.sent[0].clientMetadata.None?
    ensures var p := x.sent[0].authParameters;
      && p.Keys - {"ClientMetadata"} == {"USERNAME"}
      && p["USERNAME"] == Str(username)
      && HasMetadataParam(p, MetadataOrDefault(clientMetadata, config))
  {
    var clientMeta := MetadataOrDefault(clientMetadata, config);
    Send(InitiateAuth("CUSTOM_AUTH", map["USERNAME" := Str(username)] + MetadataParam(clientMeta), None), service)
  }

  /** `handleUserPasswordAuthFlow`: USER_PASSWORD_AUTH with USERNAME and
      PASSWORD, the metadata at the top level. */
  function HandleUserPasswordAuthFlow(username: string, password: string, clientMetadata: Option<Params>,
                                      config: AmplifyConfig, service: Service): (x: Exchange)
    ensures |x.sent| == 1 && x.response == service(x.sent[0])
    ensures x.sent[0].InitiateAuth? && x.sent[0].authFlow == "USER_PASSWORD_AUTH"
    ensures x.sent[0].authParameters.Keys == {"USERNAME", "PASSWORD"}
    ensures x.sent[0].authParameters["USERNAME"] == Str(username)
    ensures x.sent[0].authParameters["PASSWORD"] == Str(password)
    ensures x.sent[0].clientMetadata == MetadataOrDefault(clientMetadata, config)
  {
    var clientMeta := MetadataOrDefault(clientMetadata, config);
    Send(InitiateAuth("USER_PASSWORD_AUTH", map["USERNAME" := Str(username), "PASSWORD" := Str(password)], clientMeta),
         service)
  }

  /** This file's `handlePasswordVerifierChallenge`: derives the key for
      USER_ID_FOR_SRP with the pool name of `Auth.userPoolId`, and answers
      PASSWORD_VERIFIER without a session, with the metadata fallback. */
  function HandlePasswordVerifierChallenge(password: string, challengeParameters: Option<Params>,
                                           clientMetadata: Option<Params>, config: AmplifyConfig,
                                           srp: SrpContext, service: Service): (x: Exchange)
    ensures var userPoolName := PoolName(config.authUserPoolId);
      var key := VerifierKey(userPoolName, Lookup(challengeParameters, "USER_ID_FOR_SRP"), password,
                             challengeParameters);
      && (x.sent == [] <==> || srp.deriveKey(key).Failure?
                            || VerifierSignature(challengeParameters, userPoolName, srp.dateNow,
                                                 srp.deriveKey(key).value, srp.sign).Failure?)
      && (srp.deriveKey(key).Failure? ==> x.response == Failure(srp.deriveKey(key).error))
      && (srp.deriveKey(key).Success? && x.sent == [] ==>
            x.response == Failure(VerifierSignature(challengeParameters, userPoolName, srp.dateNow,
                                                    srp.deriveKey(key).value, srp.sign).error))
      && (x.sent != [] ==>
            && |x.sent| == 1 && x.response == service(x.sent[0])
            && x.sent[0].RespondToAuthChallenge? && x.sent[0].challengeName == PASSWORD_VERIFIER
            && x.sent[0].session.None?
            && x.sent[0].clientMetadata == MetadataOrDefault(clientMetadata, config)
            && AnswersVerifier(x.sent[0].challengeResponses, challengeParameters, userPoolName, srp.dateNow,
                               srp.deriveKey(key).value, srp.sign))
  {
    var userPoolName := PoolName(config.authUserPoolId);
    var key := VerifierKey(userPoolName, Lookup(challengeParameters, "USER_ID_FOR_SRP"), password, challengeParameters);
    var clientMeta := MetadataOrDefault(clientMetadata, config);
    RespondToVerifier(key, challengeParameters, userPoolName, None, clientMeta, srp, service)
  }
}
