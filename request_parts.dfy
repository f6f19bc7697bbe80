/** Pieces the request builders of signInHelpers.ts,
    IniateAuthAndRespondToAuthChallengeHelper.ts and handleChallengeHelper.ts
    share: sending a request, the `??` metadata fallback, the user-pool name,
    the SRP_A parameter and the PASSWORD_VERIFIER answer. */
module RequestParts {
  import opened Wrappers
  import opened Text
  import opened AuthTypes

  /** Sends a request and records it. */
  function Send(request: Request, service: Service): Exchange {
    Exchange(service(request), [request])
  }

  /** `clientMetadata ?? config.clientMetadata`. A record is never falsy, so
      `clientMetadata || config.clientMetadata` denotes the same choice. */
  function MetadataOrDefault(clientMetadata: Option<Params>, config: AmplifyConfig): (r: Option<Params>)
    ensures clientMetadata.Some? ==> r == clientMetadata
    ensures clientMetadata.None? ==> r == config.clientMetadata
  {
    if clientMetadata.Some? then clientMetadata else config.clientMetadata
  }

  /** `userPoolId.split('_')[1]`, absent when the id has no underscore. */
  function PoolName(userPoolId: string): Option<string> {
    var parts := Split(userPoolId, '_');
    if |parts| > 1 then Some(parts[1]) else None
  }

  /** A pool id `region_name`, with or without further underscore-separated
      parts, names the pool `name`. */
  lemma PoolNameOfId(region: string, name: string, rest: string)
    requires '_' !in region && '_' !in name
    ensures PoolName(region + "_" + name) == Some(name)
    ensures PoolName(region + "_" + name + "_" + rest) == Some(name)
  {
    SplitAfterFirst(region, name, '_');
    SplitWithoutSeparator(name, '_');
    assert region + "_" + name + "_" + rest == region + ['_'] + (name + ['_'] + rest);
    SplitAfterFirst(region, name + "_" + rest, '_');
    SplitAfterFirst(name, rest, '_');
  }

  /** An id has a pool name exactly when it holds an underscore. */
  lemma PoolNamePresent(userPoolId: string)
    ensures PoolName(userPoolId).Some? <==> '_' in userPoolId
  {
    SplitJoin(userPoolId, '_');
    if '_' !in userPoolId {
      SplitWithoutSeparator(userPoolId, '_');
    }
  }

  /** `SRP_A`: `A.toString(16)`, a `TypeError` when there is no A. */
  function SrpA(srp: SrpContext): (r: Result<AuthParam, AuthError>)
    ensures r.Failure? <==> srp.largeA.None?
    ensures r.Failure? ==> r.error == AuthError(TypeErrorName)
  {
    match srp.largeA
    case None => Failure(AuthError(TypeErrorName))
    case Some(a) => Success(Str(Digits(a, 16)))
  }

  /** SRP_A is a canonical lower-case base-16 numeral whose value is A. */
  lemma SrpAIsBase16(srp: SrpContext)
    requires srp.largeA.Some?
    ensures SrpA(srp).Success? && SrpA(srp).value.Str?
    ensures IsNumeral(SrpA(srp).value.text, 16) && ValueOf(SrpA(srp).value.text, 16) == srp.largeA.value
  {
    DigitsCorrect(srp.largeA.value, 16);
  }

  /** `ClientMetadata: m` inside `AuthParameters`; an undefined value leaves the field out. */
  function MetadataParam(m: Option<Params>): map<string, AuthParam> {
    if m.Some? then map["ClientMetadata" := Metadata(m.value)] else map[]
  }

  /** The client metadata sits in `AuthParameters` exactly when it is defined. */
  predicate HasMetadataParam(p: map<string, AuthParam>, m: Option<Params>) {
    && ("ClientMetadata" in p <==> m.Some?)
    && (m.Some? ==> p["ClientMetadata"] == Metadata(m.value))
  }

  /** Puts `key: value` into a record unless the value is `undefined`. */
  function WithDefined(m: Params, key: string, value: Option<string>): (r: Params)
    ensures value.Some? ==> r == m[key := value.value]
    ensures value.None? ==> r == m
  {
    if value.Some? then m[key := value.value] else m
  }

  /** `getSignatureString({userPoolName, username: USER_ID_FOR_SRP, challengeParameters,
      dateNow, hkdf})`: reading `challengeParameters.SECRET_BLOCK` unguarded, it
      throws a TypeError when there is no secret block; otherwise it signs that
      block, and fails as `sign` fails. */
  function VerifierSignature(challengeParameters: Option<Params>, userPoolName: Option<string>,
                             dateNow: string, hkdf: Key, sign: SignatureInput -> Result<string, AuthError>)
    : (r: Result<string, AuthError>)
    ensures Lookup(challengeParameters, "SECRET_BLOCK").None? ==> r == Failure(AuthError(TypeErrorName))
    ensures Lookup(challengeParameters, "SECRET_BLOCK").Some? ==>
      r == sign(SignatureInput(userPoolName, Lookup(challengeParameters, "USER_ID_FOR_SRP"),
                               Lookup(challengeParameters, "SECRET_BLOCK").value, dateNow, hkdf))
  {
    match Lookup(challengeParameters, "SECRET_BLOCK")
    case None => Failure(AuthError(TypeErrorName))
    case Some(secretBlock) =>
      sign(SignatureInput(userPoolName, Lookup(challengeParameters, "USER_ID_FOR_SRP"), secretBlock, dateNow, hkdf))
  }

  /** The challenge responses of a PASSWORD_VERIFIER answer, or what computing
      the signature threw, before any request is made. */
  function VerifierResponses(challengeParameters: Option<Params>, userPoolName: Option<string>,
                             dateNow: string, hkdf: Key, sign: SignatureInput -> Result<string, AuthError>)
    : (r: Result<Params, AuthError>)
    ensures r.Failure? <==> VerifierSignature(challengeParameters, userPoolName, dateNow, hkdf, sign).Failure?
    ensures r.Failure? ==> r.error == VerifierSignature(challengeParameters, userPoolName, dateNow, hkdf, sign).error
    ensures r.Success? ==> AnswersVerifier(r.value, challengeParameters, userPoolName, dateNow, hkdf, sign)
  {
    var userId := Lookup(challengeParameters, "USER_ID_FOR_SRP");
    match VerifierSignature(challengeParameters, userPoolName, dateNow, hkdf, sign)
    case Failure(e) => Failure(e)
    case Success(signature) =>
      Success(WithDefined(map["PASSWORD_CLAIM_SECRET_BLOCK" := Lookup(challengeParameters, "SECRET_BLOCK").value,
                              "TIMESTAMP" := dateNow, "PASSWORD_CLAIM_SIGNATURE" := signature],
                          "USERNAME", userId))
  }

  /** What a PASSWORD_VERIFIER answer holds: exactly USERNAME (when the service
      named USER_ID_FOR_SRP), the secret block verbatim, the timestamp, and the
      signature computed over USER_ID_FOR_SRP, that secret block and that same timestamp. */
  predicate AnswersVerifier(responses: Params, challengeParameters: Option<Params>, userPoolName: Option<string>,
                            dateNow: string, hkdf: Key, sign: SignatureInput -> Result<string, AuthError>)
  {
    var userId := Lookup(challengeParameters, "USER_ID_FOR_SRP");
    var secretBlock := Lookup(challengeParameters, "SECRET_BLOCK");
    && secretBlock.Some?
    && responses.Keys == {"PASSWORD_CLAIM_SECRET_BLOCK", "TIMESTAMP", "PASSWORD_CLAIM_SIGNATURE"}
                         + (if userId.Some? then {"USERNAME"} else {})
    && (userId.Some? ==> responses["USERNAME"] == userId.value)
    && responses["PASSWORD_CLAIM_SECRET_BLOCK"] == secretBlock.value
    && responses["TIMESTAMP"] == dateNow
    && sign(SignatureInput(userPoolName, userId, secretBlock.value, responses["TIMESTAMP"], hkdf)).Success?
    && responses["PASSWORD_CLAIM_SIGNATURE"] ==
         sign(SignatureInput(userPoolName, userId, secretBlock.value, responses["TIMESTAMP"], hkdf)).value
  }

  /** What the key for the verifier round is derived from: the pool name, the
      given user name, the password, and the service's SRP_B and SALT. */
  function VerifierKey(userPoolName: Option<string>, username: Option<string>, password: string,
                       challengeParameters: Option<Params>): KeyInput
  {
    KeyInput(userPoolName, username, password, Lookup(challengeParameters, "SRP_B"), Lookup(challengeParameters, "SALT"))
  }

  /** The PASSWORD_VERIFIER round every helper file performs: derive the key,
      compute the answer, send it with the given session and metadata. A key
      derivation that rejects, or a signature that cannot be computed (no secret
      block, or one `atob` rejects), sends nothing. */
  function RespondToVerifier(keyInput: KeyInput, challengeParameters: Option<Params>, userPoolName: Option<string>,
                             session: Option<string>, clientMetadata: Option<Params>, srp: SrpContext,
                             service: Service): (x: Exchange)
    ensures x.sent == [] <==> || srp.deriveKey(keyInput).Failure?
                              || VerifierSignature(challengeParameters, userPoolName, srp.dateNow,
                                                   srp.deriveKey(keyInput).value, srp.sign).Failure?
    ensures srp.deriveKey(keyInput).Failure? ==> x.response == Failure(srp.deriveKey(keyInput).error)
    ensures srp.deriveKey(keyInput).Success? && x.sent == [] ==>
      x.response == Failure(VerifierSignature(challengeParameters, userPoolName, srp.dateNow,
                                              srp.deriveKey(keyInput).value, srp.sign).error)
    ensures x.sent != [] ==>
      && |x.sent| == 1 && x.response == service(x.sent[0])
      && x.sent[0].RespondToAuthChallenge?
      && x.sent[0].challengeName == PASSWORD_VERIFIER
      && x.sent[0].session == session && x.sent[0].clientMetadata == clientMetadata
      && AnswersVerifier(x.sent[0].challengeResponses, challengeParameters, userPoolName, srp.dateNow,
                         srp.deriveKey(keyInput).value, srp.sign)
  {
    match srp.deriveKey(keyInput)
    case Failure(e) => Exchange(Failure(e), [])
    case Success(hkdf) =>
      match VerifierResponses(challengeParameters, userPoolName, srp.dateNow, hkdf, srp.sign)
      case Failure(e) => Exchange(Failure(e), [])
      case Success(challengeResponses) =>
        Send(RespondToAuthChallenge(PASSWORD_VERIFIER, challengeResponses, session, clientMetadata), service)
  }
}
