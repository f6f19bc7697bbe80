/** packages/auth/src/providers/cognito/utils/signInHelpers.ts: the challenge
    response builders, the user-password and SRP flows of the older helper set,
    this file's mapping of challenges and errors to sign-in results, and the
    `userAttributes.` prefixing and stripping of attribute names. */
module SignInHelpers {
  import opened Wrappers
  import opened Text
  import opened AuthTypes
  import AuthUtils
  import opened SignInStore
  import opened RequestParts

  /** The prefix under which required user attributes travel. */
  const USER_ATTRIBUTES := "userAttributes."

  /** `JSON.parse` of a string expected to hold an array of strings; it may throw. */
  type JsonStringArray = string -> Result<seq<string>, AuthError>

  // ===========================================================================
  // Attribute names

  /** An attribute name as it travels in a challenge response. */
  function Prefixed(key: string): string {
    USER_ATTRIBUTES + key
  }

  lemma PrefixInjective()
    ensures forall a: string, b: string :: Prefixed(a) == Prefixed(b) ==> a == b
  {
    forall a: string, b: string | Prefixed(a) == Prefixed(b) ensures a == b {
      assert a == Prefixed(a)[|USER_ATTRIBUTES|..];
      assert b == Prefixed(b)[|USER_ATTRIBUTES|..];
    }
  }

  /** The attribute record with every key prefixed and every value kept. */
  function PrefixedAttributes(attributes: Option<Params>): Params {
    if attributes.None? then map[]
    else
      var attrs := attributes.value;
      PrefixInjective();
      map key | key in attrs :: Prefixed(key) := attrs[key]
  }

  /** The keys of the prefixed record are exactly the prefixed attribute names,
      each holding its attribute's value; without attributes the record is empty. */
  lemma PrefixedAttributesShape(attributes: Option<Params>)
    ensures attributes.None? ==> PrefixedAttributes(attributes) == map[]
    ensures attributes.Some? ==>
      && PrefixedAttributes(attributes).Keys == (set key | key in attributes.value :: Prefixed(key))
      && (forall key :: key in attributes.value ==> PrefixedAttributes(attributes)[Prefixed(key)] == attributes.value[key])
  {
    if attributes.Some? {
      PrefixInjective();
      var r := PrefixedAttributes(attributes);
      forall key | key in attributes.value ensures Prefixed(key) in r && r[Prefixed(key)] == attributes.value[key] {
      }
    }
  }

  /** Adding one attribute adds its one prefixed entry. */
  lemma PrefixedAttributesAdd(m: Params, key: string, value: string)
    ensures PrefixedAttributes(Some(m[key := value])) == PrefixedAttributes(Some(m))[Prefixed(key) := value]
  {
    PrefixInjective();
    var lhs := PrefixedAttributes(Some(m[key := value]));
    var rhs := PrefixedAttributes(Some(m))[Prefixed(key) := value];
    forall k | k in lhs ensures k in rhs && lhs[k] == rhs[k] {
      var key' :| key' in m[key := value] && k == Prefixed(key');
    }
    forall k | k in rhs ensures k in lhs {
      if k != Prefixed(key) {
        var key' :| key' in m && k == Prefixed(key');
        assert key' in m[key := value];
      }
    }
  }

  /** What the loop of `createAttributes` knows after handling the attributes in `done`. */
  predicate CreatedSoFar(attrs: Params, done: Params, entries: set<string>, acc: Params) {
    && entries <= attrs.Keys
    && done.Keys == attrs.Keys - entries
    && (forall k :: k in done ==> done[k] == attrs[k])
    && acc == PrefixedAttributes(Some(done))
  }

  /** One more attribute keeps the loop's invariant. */
  lemma CreatedOneMore(attrs: Params, done: Params, entries: set<string>, acc: Params, key: string)
    requires CreatedSoFar(attrs, done, entries, acc) && key in entries
    ensures CreatedSoFar(attrs, done[key := attrs[key]], entries - {key}, acc[Prefixed(key) := attrs[key]])
  {
    PrefixedAttributesAdd(done, key, attrs[key]);
  }

  /** Before the loop nothing is handled and the record is empty. */
  lemma CreatedNone(attrs: Params)
    ensures CreatedSoFar(attrs, map[], attrs.Keys, map[])
  {
    assert PrefixedAttributes(Some(map[])) == map[];
  }

  /** When no attribute is left, the record built is the prefixed one. */
  lemma CreatedAll(attrs: Params, done: Params, acc: Params)
    requires CreatedSoFar(attrs, done, {}, acc)
    ensures acc == PrefixedAttributes(Some(attrs))
  {
    assert done.Keys == attrs.Keys;
    assert done == attrs;
  }

  /** `createAttributes`: fills a fresh record, one prefixed key per attribute. */
  method CreateAttributes(attributes: Option<Params>) returns (newAttributes: Params)
    ensures newAttributes == PrefixedAttributes(attributes)
  {
    if attributes.None? {
      return map[];
    }
    var attrs := attributes.value;
    newAttributes := map[];
    var entries := attrs.Keys;
    ghost var done: Params := map[];
    CreatedNone(attrs);
    while entries != {}
      invariant CreatedSoFar(attrs, done, entries, newAttributes)
      decreases entries
    {
      var key :| key in entries;
      CreatedOneMore(attrs, done, entries, newAttributes, key);
      newAttributes := newAttributes[Prefixed(key) := attrs[key]];
      done := done[key := attrs[key]];
      entries := entries - {key};
    }
    CreatedAll(attrs, done, newAttributes);
  }

  /** What `att.includes(X) ? att.replace(X, '') : att` does to one name. */
  function StripPrefix(att: string): (r: string)
    ensures !Includes(att, USER_ATTRIBUTES) ==> r == att
    ensures Includes(att, USER_ATTRIBUTES) ==>
      var k := IndexOf(att, USER_ATTRIBUTES).value;
      r == att[..k] + att[k + |USER_ATTRIBUTES|..] && |r| + |USER_ATTRIBUTES| == |att|
  {
    if Includes(att, USER_ATTRIBUTES) then ReplaceFirst(att, USER_ATTRIBUTES, "") else att
  }

  /** This file's `parseAttributes`: nothing for an absent or empty string,
      else the parsed names, each stripped of its first `userAttributes.`. */
  function ParseAttributes(attributes: Option<string>, parseJson: JsonStringArray): (r: Result<seq<string>, AuthError>)
    ensures !Truthy(attributes) ==> r == Success([])
    ensures Truthy(attributes) && parseJson(attributes.value).Failure? ==> r == Failure(parseJson(attributes.value).error)
    ensures Truthy(attributes) && parseJson(attributes.value).Success? ==>
      var parsed := parseJson(attributes.value).value;
      r.Success? && |r.value| == |parsed|
      && forall i :: 0 <= i < |parsed| ==>
           (Includes(parsed[i], USER_ATTRIBUTES) ==>
              var k := IndexOf(parsed[i], USER_ATTRIBUTES).value;
              r.value[i] == parsed[i][..k] + parsed[i][k + |USER_ATTRIBUTES|..])
           && (!Includes(parsed[i], USER_ATTRIBUTES) ==> r.value[i] == parsed[i])
  {
    if !Truthy(attributes) then Success([])
    else
      match parseJson(attributes.value)
      case Failure(e) => Failure(e)
      case Success(parsed) => Success(seq(|parsed|, i requires 0 <= i < |parsed| => StripPrefix(parsed[i])))
  }

  /** Stripping undoes prefixing: a key `createAttributes` produced reads back as the attribute's own name. */
  lemma StripUndoesPrefix(name: string)
    ensures StripPrefix(Prefixed(name)) == name
  {
    var s := Prefixed(name);
    assert OccursAt(s, USER_ATTRIBUTES, 0) by {
      assert s[0..|USER_ATTRIBUTES|] == USER_ATTRIBUTES;
    }
    assert IndexOf(s, USER_ATTRIBUTES) == Some(0);
    assert s[|USER_ATTRIBUTES|..] == name;
  }

  /** The names `parseAttributes` reads from a list of prefixed keys are exactly the attribute names. */
  lemma ParseOfPrefixedNames(names: seq<string>, attributes: string, parseJson: JsonStringArray)
    requires attributes != "" && parseJson(attributes) == Success(seq(|names|, i requires 0 <= i < |names| => Prefixed(names[i])))
    ensures ParseAttributes(Some(attributes), parseJson) == Success(names)
  {
    var parsed := parseJson(attributes).value;
    forall i | 0 <= i < |names| ensures StripPrefix(parsed[i]) == names[i] {
      StripUndoesPrefix(names[i]);
    }
    assert ParseAttributes(Some(attributes), parseJson).value == names;
  }

  // ===========================================================================
  // Challenge responses

  /** The field under which each challenge expects the user's answer: an
      independent table against which the builders are checked. */
  function AnswerKey(challengeName: string): Option<string> {
    if challengeName == CUSTOM_CHALLENGE || challengeName == SELECT_MFA_TYPE then Some("ANSWER")
    else if challengeName == SMS_MFA then Some("SMS_MFA_CODE")
    else if challengeName == SOFTWARE_TOKEN_MFA then Some("SOFTWARE_TOKEN_MFA_CODE")
    else if challengeName == NEW_PASSWORD_REQUIRED then Some("NEW_PASSWORD")
    else None
  }

  /** `handleCustomChallenge` */
  function HandleCustomChallenge(challengeResponse: string, clientMetadata: Option<Params>, session: Option<string>,
                                 username: string, service: Service): (x: Exchange)
    ensures |x.sent| == 1 && AnswersChallenge(x.sent[0], CUSTOM_CHALLENGE, username, challengeResponse, session, clientMetadata)
    ensures x.sent[0].challengeResponses.Keys == {"USERNAME", "ANSWER"}
    ensures x.response == service(x.sent[0])
  {
    Send(RespondToAuthChallenge(CUSTOM_CHALLENGE, map["USERNAME" := username, "ANSWER" := challengeResponse],
                                session, clientMetadata), service)
  }

  /** `handleSelectMFATypeChallenge` */
  function HandleSelectMfaTypeChallenge(challengeResponse: string, clientMetadata: Option<Params>, session: Option<string>,
                                        username: string, service: Service): (x: Exchange)
    ensures |x.sent| == 1 && AnswersChallenge(x.sent[0], SELECT_MFA_TYPE, username, challengeResponse, session, clientMetadata)
    ensures x.sent[0].challengeResponses.Keys == {"USERNAME", "ANSWER"}
    ensures x.response == service(x.sent[0])
  {
    Send(RespondToAuthChallenge(SELECT_MFA_TYPE, map["USERNAME" := username, "ANSWER" := challengeResponse],
                                session, clientMetadata), service)
  }

  /** `handleSMSMFAChallenge` */
  function HandleSmsMfaChallenge(challengeResponse: string, clientMetadata: Option<Params>, session: Option<string>,
                                 username: string, service: Service): (x: Exchange)
    ensures |x.sent| == 1 && AnswersChallenge(x.sent[0], SMS_MFA, username, challengeResponse, session, clientMetadata)
    ensures x.sent[0].challengeResponses.Keys == {"USERNAME", "SMS_MFA_CODE"}
    ensures x.response == service(x.sent[0])
  {
    Send(RespondToAuthChallenge(SMS_MFA, map["USERNAME" := username, "SMS_MFA_CODE" := challengeResponse],
                                session, clientMetadata), service)
  }

  /** `handleSoftwareTokenMFAChallenge` */
  function HandleSoftwareTokenMfaChallenge(challengeResponse: string, clientMetadata: Option<Params>, session: Option<string>,
                                           username: string, service: Service): (x: Exchange)
    ensures |x.sent| == 1 && AnswersChallenge(x.sent[0], SOFTWARE_TOKEN_MFA, username, challengeResponse, session, clientMetadata)
    ensures x.sent[0].challengeResponses.Keys == {"USERNAME", "SOFTWARE_TOKEN_MFA_CODE"}
    ensures x.response == service(x.sent[0])
  {
    Send(RespondToAuthChallenge(SOFTWARE_TOKEN_MFA, map["USERNAME" := username, "SOFTWARE_TOKEN_MFA_CODE" := challengeResponse],
                                session, clientMetadata), service)
  }

  /** `handleCompleteNewPasswordChallenge`: the prefixed attributes, then the new password and user name. */
  function HandleCompleteNewPasswordChallenge(challengeResponse: string, username: string, clientMetadata: Option<Params>,
                                              session: Option<string>, requiredAttributes: Option<Params>,
                                              service: Service): (x: Exchange)
    ensures |x.sent| == 1 && x.sent[0].RespondToAuthChallenge? && x.sent[0].challengeName == NEW_PASSWORD_REQUIRED
    ensures "NEW_PASSWORD" in x.sent[0].challengeResponses && x.sent[0].challengeResponses["NEW_PASSWORD"] == challengeResponse
    ensures "USERNAME" in x.sent[0].challengeResponses && x.sent[0].challengeResponses["USERNAME"] == username
    ensures x.sent[0].session == session && x.sent[0].clientMetadata == clientMetadata
    ensures x.response == service(x.sent[0])
  {
    Send(RespondToAuthChallenge(NEW_PASSWORD_REQUIRED,
                                PrefixedAttributes(requiredAttributes) + map["NEW_PASSWORD" := challengeResponse, "USERNAME" := username],
                                session, clientMetadata), service)
  }

  /** A request that answers `challengeName` for `username` with `answer`, carrying the session and metadata given. */
  predicate AnswersChallenge(request: Request, challengeName: string, username: string, answer: string,
                             session: Option<string>, clientMetadata: Option<Params>)
  {
    && request.RespondToAuthChallenge?
    && request.challengeName == challengeName
    && AnswerKey(challengeName).Some?
    && "USERNAME" in request.challengeResponses && request.challengeResponses["USERNAME"] == username
    && AnswerKey(challengeName).value in request.challengeResponses
    && request.challengeResponses[AnswerKey(challengeName).value] == answer
    && request.session == session && request.clientMetadata == clientMetadata
  }

  /** Each answer builder sends exactly one request, naming its own challenge and
      putting the user's answer under that challenge's field next to USERNAME, and nothing else. */
  lemma AnswerBuildersAnswer(challengeResponse: string, clientMetadata: Option<Params>, session: Option<string>,
                             username: string, service: Service)
    ensures var x := HandleCustomChallenge(challengeResponse, clientMetadata, session, username, service);
      |x.sent| == 1 && AnswersChallenge(x.sent[0], CUSTOM_CHALLENGE, username, challengeResponse, session, clientMetadata)
      && x.sent[0].challengeResponses.Keys == {"USERNAME", "ANSWER"}
      && x.response == service(x.sent[0])
    ensures var x := HandleSelectMfaTypeChallenge(challengeResponse, clientMetadata, session, username, service);
      |x.sent| == 1 && AnswersChallenge(x.sent[0], SELECT_MFA_TYPE, username, challengeResponse, session, clientMetadata)
      && x.sent[0].challengeResponses.Keys == {"USERNAME", "ANSWER"}
      && x.response == service(x.sent[0])
    ensures var x := HandleSmsMfaChallenge(challengeResponse, clientMetadata, session, username, service);
      |x.sent| == 1 && AnswersChallenge(x.sent[0], SMS_MFA, username, challengeResponse, session, clientMetadata)
      && x.sent[0].challengeResponses.Keys == {"USERNAME", "SMS_MFA_CODE"}
      && x.response == service(x.sent[0])
    ensures var x := HandleSoftwareTokenMfaChallenge(challengeResponse, clientMetadata, session, username, service);
      |x.sent| == 1 && AnswersChallenge(x.sent[0], SOFTWARE_TOKEN_MFA, username, challengeResponse, session, clientMetadata)
      && x.sent[0].challengeResponses.Keys == {"USERNAME", "SOFTWARE_TOKEN_MFA_CODE"}
      && x.response == service(x.sent[0])
  {
  }

  /** The new-password response answers NEW_PASSWORD_REQUIRED with the new
      password, and its keys are the prefixed attributes, NEW_PASSWORD and USERNAME. */
  lemma NewPasswordBuilderAnswer(challengeResponse: string, username: string, clientMetadata: Option<Params>,
                                 session: Option<string>, requiredAttributes: Option<Params>, service: Service)
    ensures var x := HandleCompleteNewPasswordChallenge(challengeResponse, username, clientMetadata, session, requiredAttributes, service);
      && |x.sent| == 1 && AnswersChallenge(x.sent[0], NEW_PASSWORD_REQUIRED, username, challengeResponse, session, clientMetadata)
      && x.sent[0].challengeResponses.Keys == PrefixedAttributes(requiredAttributes).Keys + {"NEW_PASSWORD", "USERNAME"}
      && x.response == service(x.sent[0])
  {
    NewPasswordAnswerFields(challengeResponse, username, clientMetadata, session, requiredAttributes, service);
    NewPasswordBuilderKeys(challengeResponse, username, clientMetadata, session, requiredAttributes, service);
  }

  /** The new-password response names its challenge, the user and the new password. */
  lemma NewPasswordAnswerFields(challengeResponse: string, username: string, clientMetadata: Option<Params>,
                                session: Option<string>, requiredAttributes: Option<Params>, service: Service)
    ensures var x := HandleCompleteNewPasswordChallenge(challengeResponse, username, clientMetadata, session, requiredAttributes, service);
      && |x.sent| == 1 && AnswersChallenge(x.sent[0], NEW_PASSWORD_REQUIRED, username, challengeResponse, session, clientMetadata)
  {
    var fixed := map["NEW_PASSWORD" := challengeResponse, "USERNAME" := username];
    var responses := PrefixedAttributes(requiredAttributes) + fixed;
    assert "USERNAME" in fixed && "NEW_PASSWORD" in fixed;
    assert responses["USERNAME"] == username && responses["NEW_PASSWORD"] == challengeResponse;
    assert AnswerKey(NEW_PASSWORD_REQUIRED) == Some("NEW_PASSWORD") by {
      assert NEW_PASSWORD_REQUIRED[0] == 'N' && CUSTOM_CHALLENGE[0] == 'C';
      assert SELECT_MFA_TYPE[1] == 'E' && SMS_MFA[1] == 'M' && SOFTWARE_TOKEN_MFA[1] == 'O';
    }
  }

  /** The keys of the new-password response: the prefixed attributes, NEW_PASSWORD and USERNAME. */
  lemma NewPasswordBuilderKeys(challengeResponse: string, username: string, clientMetadata: Option<Params>,
                               session: Option<string>, requiredAttributes: Option<Params>, service: Service)
    ensures var x := HandleCompleteNewPasswordChallenge(challengeResponse, username, clientMetadata, session, requiredAttributes, service);
      x.sent[0].challengeResponses.Keys == PrefixedAttributes(requiredAttributes).Keys + {"NEW_PASSWORD", "USERNAME"}
  {
  }

  /** It also carries every required attribute under its prefixed name, which
      never collides with NEW_PASSWORD or USERNAME. */
  lemma NewPasswordCarriesAttributes(challengeResponse: string, username: string, clientMetadata: Option<Params>,
                                     session: Option<string>, attributes: Params, service: Service)
    ensures var x := HandleCompleteNewPasswordChallenge(challengeResponse, username, clientMetadata, session, Some(attributes), service);
      forall key :: key in attributes ==>
        Prefixed(key) in x.sent[0].challengeResponses
        && x.sent[0].challengeResponses[Prefixed(key)] == attributes[key]
  {
    var prefixed := PrefixedAttributes(Some(attributes));
    var fixed := map["NEW_PASSWORD" := challengeResponse, "USERNAME" := username];
    var responses := prefixed + fixed;
    PrefixedAttributesShape(Some(attributes));
    forall key | key in attributes
      ensures Prefixed(key) in responses && responses[Prefixed(key)] == attributes[key]
    {
      var k := Prefixed(key);
      assert k in prefixed;
      assert k[0] == 'u';
      assert k !in fixed;
    }
  }

  /** `handleMFASetupChallenge`: verifies the TOTP code with the caller's session,
      records the session the verification returns, and answers MFA_SETUP with
      that session and the user name only. A failed verification sends nothing further. */
  method HandleMfaSetupChallenge(store: Store, challengeResponse: string, clientMetadata: Option<Params>,
                                 session: Option<string>, username: string, service: Service)
    returns (x: Exchange)
    modifies store
    ensures (x, store.GetState()) == MfaSetupRound(old(store.GetState()), challengeResponse, clientMetadata, session, username, service)
  {
    var verifyRequest := VerifySoftwareToken(challengeResponse, session);
    var verifyTotpCode := service(verifyRequest);
    if verifyTotpCode.Failure? {
      return Exchange(Failure(verifyTotpCode.error), [verifyRequest]);
    }
    store.Dispatch(SetActiveSignInSession(verifyTotpCode.value.session));
    var request := RespondToAuthChallenge(MFA_SETUP, map["USERNAME" := username], verifyTotpCode.value.session, clientMetadata);
    x := Exchange(service(request), [verifyRequest, request]);
  }

  /** The requests and the store after `handleMFASetupChallenge`. */
  function MfaSetupRound(s: SignInState, challengeResponse: string, clientMetadata: Option<Params>,
                         session: Option<string>, username: string, service: Service)
    : (r: (Exchange, SignInState))
    ensures 1 <= |r.0.sent| <= 2
    ensures r.0.sent[0] == VerifySoftwareToken(challengeResponse, session)
    ensures |r.0.sent| == 2 <==> service(VerifySoftwareToken(challengeResponse, session)).Success?
    ensures |r.0.sent| == 1 ==>
      && r.1 == s && r.0.response.Failure?
      && r.0.response == service(VerifySoftwareToken(challengeResponse, session))
    ensures |r.0.sent| == 2 ==>
      var verified := service(VerifySoftwareToken(challengeResponse, session)).value.session;
      && r.1 == s.(activeSignInSession := verified)
      && r.0.sent[1] == RespondToAuthChallenge(MFA_SETUP, map["USERNAME" := username], verified, clientMetadata)
      && r.0.response == service(r.0.sent[1])
  {
    var verifyRequest := VerifySoftwareToken(challengeResponse, session);
    match service(verifyRequest)
    case Failure(e) => (Exchange(Failure(e), [verifyRequest]), s)
    case Success(verify) =>
      var request := RespondToAuthChallenge(MFA_SETUP, map["USERNAME" := username], verify.session, clientMetadata);
      (Exchange(service(request), [verifyRequest, request]), Reduce(s, SetActiveSignInSession(verify.session)))
  }

  // ===========================================================================
  // Flows of the older helper set

  /** `handleUserPasswordAuthFlow`: one USER_PASSWORD_AUTH initiation, metadata at the top level. */
  function HandleUserPasswordAuthFlow(username: string, password: string, clientMetadata: Option<Params>,
                                      service: Service): (x: Exchange)
    ensures |x.sent| == 1 && x.sent[0].InitiateAuth? && x.sent[0].authFlow == "USER_PASSWORD_AUTH"
    ensures x.sent[0].authParameters == map["USERNAME" := Str(username), "PASSWORD" := Str(password)]
    ensures x.sent[0].clientMetadata == clientMetadata
    ensures x.response == service(x.sent[0])
  {
    Send(InitiateAuth("USER_PASSWORD_AUTH", map["USERNAME" := Str(username), "PASSWORD" := Str(password)], clientMetadata),
         service)
  }

  /** This file's `handlePasswordVerifierChallenge`: derives the key for
      USER_ID_FOR_SRP and answers PASSWORD_VERIFIER inside the given session,
      with the given metadata. */
  function HandlePasswordVerifierChallenge(password: string, challengeParameters: Option<Params>,
                                           clientMetadata: Option<Params>, session: Option<string>,
                                           srp: SrpContext, userPoolName: Option<string>, service: Service)
    : (x: Exchange)
    ensures var key := VerifierKey(userPoolName, Lookup(challengeParameters, "USER_ID_FOR_SRP"), password,
                                   challengeParameters);
      && (x.sent == [] <==> || srp.deriveKey(key).Failure?
                            || VerifierSignature(challengeParameters, userPoolName, srp.dateNow,
                                                 srp.deriveKey(key).value, srp.sign).Failure?)
      && (srp.deriveKey(key).Failure? ==> x.response == Failure(srp.deriveKey(key).error))
      && (srp.deriveKey(key).Success? && x.sent == [] ==>
            x.response == Failure(VerifierSignature(challengeParameters, userPoolName, srp.dateNow,
                                                    srp.deriveKey(key).value, srp.sign).error))
      && (x.sent != [] ==>
            && |x.sent| == 1 && x.response == service(x.sent[0])
            && x.sent[0].RespondToAuthChallenge? && x.sent[0].challengeName == PASSWORD_VERIFIER
            && x.sent[0].session == session && x.sent[0].clientMetadata == clientMetadata
            && AnswersVerifier(x.sent[0].challengeResponses, challengeParameters, userPoolName, srp.dateNow,
                               srp.deriveKey(key).value, srp.sign))
  {
    var key := VerifierKey(userPoolName, Lookup(challengeParameters, "USER_ID_FOR_SRP"), password, challengeParameters);
    RespondToVerifier(key, challengeParameters, userPoolName, session, clientMetadata, srp, service)
  }

  /** `handleUserSRPAuthFlow`: initiates USER_SRP_AUTH with the user name and A,
      then answers the verifier challenge with the returned parameters and
      session. Without an A, the TypeError comes before any request. */
  function HandleUserSrpAuthFlow(username: string, password: string, clientMetadata: Option<Params>,
                                 config: AmplifyConfig, srp: SrpContext, service: Service): (x: Exchange)
    ensures srp.largeA.None? ==> x == Exchange(Failure(AuthError(TypeErrorName)), [])
    ensures srp.largeA.Some? ==>
      && 1 <= |x.sent| <= 2
      && x.sent[0] == InitiateAuth("USER_SRP_AUTH", map["USERNAME" := Str(username), "SRP_A" := SrpA(srp).value],
                                   clientMetadata)
      && (service(x.sent[0]).Failure? ==> x == Exchange(service(x.sent[0]), [x.sent[0]]))
      && (service(x.sent[0]).Success? ==>
            var resp := service(x.sent[0]).value;
            var verifier := HandlePasswordVerifierChallenge(password, resp.challengeParameters, clientMetadata,
                                                            resp.session, srp, PoolName(config.awsUserPoolsId), service);
            x.sent[1..] == verifier.sent && x.response == verifier.response)
  {
    var userPoolName := PoolName(config.awsUserPoolsId);
    match SrpA(srp)
    case Failure(e) => Exchange(Failure(e), [])
    case Success(a) =>
      var request := InitiateAuth("USER_SRP_AUTH", map["USERNAME" := Str(username), "SRP_A" := a], clientMetadata);
      Then(request, service, password, clientMetadata, srp, userPoolName)
  }

  /** `handleCustomSRPAuthFlow`: the same, as CUSTOM_AUTH with `CHALLENGE_NAME: 'SRP_A'`. */
  function HandleCustomSrpAuthFlow(username: string, password: string, clientMetadata: Option<Params>,
                                   config: AmplifyConfig, srp: SrpContext, service: Service): (x: Exchange)
    ensures srp.largeA.None? ==> x == Exchange(Failure(AuthError(TypeErrorName)), [])
    ensures srp.largeA.Some? ==>
      && 1 <= |x.sent| <= 2
      && x.sent[0] == InitiateAuth("CUSTOM_AUTH",
           map["USERNAME" := Str(username), "SRP_A" := SrpA(srp).value, "CHALLENGE_NAME" := Str("SRP_A")], clientMetadata)
      && (service(x.sent[0]).Failure? ==> x == Exchange(service(x.sent[0]), [x.sent[0]]))
      && (service(x.sent[0]).Success? ==>
            var resp := service(x.sent[0]).value;
            var verifier := HandlePasswordVerifierChallenge(password, resp.challengeParameters, clientMetadata,
                                                            resp.session, srp, PoolName(config.awsUserPoolsId), service);
            x.sent[1..] == verifier.sent && x.response == verifier.response)
  {
    var userPoolName := PoolName(config.awsUserPoolsId);
    match SrpA(srp)
    case Failure(e) => Exchange(Failure(e), [])
    case Success(a) =>
      var request := InitiateAuth("CUSTOM_AUTH",
        map["USERNAME" := Str(username), "SRP_A" := a, "CHALLENGE_NAME" := Str("SRP_A")], clientMetadata);
      Then(request, service, password, clientMetadata, srp, userPoolName)
  }

  /** Sends the initiation, then (if it answered) the verifier response. */
  function Then(request: Request, service: Service, password: string, clientMetadata: Option<Params>,
                srp: SrpContext, userPoolName: Option<string>): Exchange
  {
    match service(request)
    case Failure(e) => Exchange(Failure(e), [request])
    case Success(resp) =>
      var verifier := HandlePasswordVerifierChallenge(password, resp.challengeParameters, clientMetadata, resp.session,
                                                      srp, userPoolName, service);
      Exchange(verifier.response, [request] + verifier.sent)
  }

  // ===========================================================================
  // Sign-in results

  /** The challenges this file's `getSignInResult` maps to a next step. */
  const SupportedChallenges: set<string> :=
    {CUSTOM_CHALLENGE, MFA_SETUP, NEW_PASSWORD_REQUIRED, SELECT_MFA_TYPE, SMS_MFA, SOFTWARE_TOKEN_MFA}

  /** This file's `getSignInResult`. Reading a field of absent parameters is a `TypeError`. */
  function GetSignInResult(challengeName: Option<string>, challengeParameters: Option<Params>, parseJson: JsonStringArray)
    : (r: Result<SignInResult, AuthError>)
    ensures r.Success? ==> !r.value.isSignedIn
    ensures r.Success? ==> AuthUtils.ChallengeForStep(r.value.nextStep.signInStep) == challengeName
    ensures (challengeName.None? || challengeName.value !in SupportedChallenges) ==>
      r == Failure(AuthError(UnsupportedChallengeName))
    ensures challengeName.Some? && challengeName.value in SupportedChallenges - {NEW_PASSWORD_REQUIRED, SMS_MFA} ==> r.Success?
    ensures challengeName.Some? && challengeName.value in {NEW_PASSWORD_REQUIRED, SMS_MFA} && challengeParameters.None? ==>
      r == Failure(AuthError(TypeErrorName))
    ensures challengeName == Some(SMS_MFA) && challengeParameters.Some? ==>
      r.Success? && r.value.nextStep.additionalInfo == challengeParameters
      && r.value.nextStep.codeDeliveryDetails == Some(CodeDeliveryDetails(
           Lookup(challengeParameters, "CODE_DELIVERY_DELIVERY_MEDIUM"), Lookup(challengeParameters, "CODE_DELIVERY_DESTINATION")))
    ensures challengeName == Some(NEW_PASSWORD_REQUIRED) && challengeParameters.Some? ==>
      var missing := ParseAttributes(Lookup(challengeParameters, "requiredAttributes"), parseJson);
      (missing.Failure? ==> r == Failure(missing.error))
      && (missing.Success? ==> r.Success? && r.value.nextStep.missingAttributes == Some(missing.value)
                               && r.value.nextStep.additionalInfo == challengeParameters)
    ensures challengeName == Some(CUSTOM_CHALLENGE) ==> r.value.nextStep.additionalInfo == challengeParameters
    ensures challengeName == Some(MFA_SETUP) ==>
      r == Success(SignInResult(false, Bare(CONTINUE_SIGN_IN_WITH_TOTP_SETUP).(totpSetupDetails := Some(TotpSetupDetails(None)))))
    ensures challengeName == Some(SELECT_MFA_TYPE) ==>
      r == Success(SignInResult(false, Bare(CONTINUE_SIGN_IN_WITH_MFA_SELECTION).(allowedMfaTypes := Some([]))))
    ensures challengeName == Some(SOFTWARE_TOKEN_MFA) ==>
      r == Success(SignInResult(false, Bare(CONFIRM_SIGN_IN_WITH_TOTP_CODE)))
  {
    if challengeName.None? then Failure(AuthError(UnsupportedChallengeName))
    else
      var name := challengeName.value;
      if name == CUSTOM_CHALLENGE then
        Success(SignInResult(false, Bare(CONFIRM_SIGN_IN_WITH_CUSTOM_CHALLENGE).(additionalInfo := challengeParameters)))
      else if name == MFA_SETUP then
        Success(SignInResult(false, Bare(CONTINUE_SIGN_IN_WITH_TOTP_SETUP).(totpSetupDetails := Some(TotpSetupDetails(None)))))
      else if name == NEW_PASSWORD_REQUIRED then
        if challengeParameters.None? then Failure(AuthError(TypeErrorName))
        else
          match ParseAttributes(Lookup(challengeParameters, "requiredAttributes"), parseJson)
          case Failure(e) => Failure(e)
          case Success(missing) =>
            Success(SignInResult(false, Bare(CONFIRM_SIGN_IN_WITH_NEW_PASSWORD_REQUIRED)
              .(missingAttributes := Some(missing), additionalInfo := challengeParameters)))
      else if name == SELECT_MFA_TYPE then
        Success(SignInResult(false, Bare(CONTINUE_SIGN_IN_WITH_MFA_SELECTION).(allowedMfaTypes := Some([]))))
      else if name == SMS_MFA then
        if challengeParameters.None? then Failure(AuthError(TypeErrorName))
        else Success(SignInResult(false, Bare(CONFIRM_SIGN_IN_WITH_SMS_CODE)
          .(codeDeliveryDetails := Some(CodeDeliveryDetails(
              Lookup(challengeParameters, "CODE_DELIVERY_DELIVERY_MEDIUM"),
              Lookup(challengeParameters, "CODE_DELIVERY_DESTINATION"))),
            additionalInfo := challengeParameters)))
      else if name == SOFTWARE_TOKEN_MFA then
        Success(SignInResult(false, Bare(CONFIRM_SIGN_IN_WITH_TOTP_CODE)))
      else
        // ADMIN_NO_SRP_AUTH, DEVICE_PASSWORD_VERIFIER, DEVICE_SRP_AUTH, PASSWORD_VERIFIER and anything else
        Failure(AuthError(UnsupportedChallengeName))
  }

  /** Both result mappings agree on which challenges are answerable and differ
      only in the error they raise for the others. */
  lemma MappingsAgreeOnSupport(challengeName: Option<string>, challengeParameters: Option<Params>,
                               parseJson: JsonStringArray, secretCode: Option<string>)
    requires challengeParameters.Some?
    requires Lookup(challengeParameters, "requiredAttributes").None?
    ensures GetSignInResult(challengeName, challengeParameters, parseJson).Success?
            <==> AuthUtils.GetSignInResult(challengeName, challengeParameters, secretCode).Success?
    ensures GetSignInResult(challengeName, challengeParameters, parseJson).Failure? ==>
      GetSignInResult(challengeName, challengeParameters, parseJson).error == AuthError(UnsupportedChallengeName)
      && AuthUtils.GetSignInResult(challengeName, challengeParameters, secretCode).error == AuthError(UnrecognizedChallengeName)
  {
  }

  /** This file's `getSignInResultFromError` (the same mapping as AuthUtils.ts's). */
  function GetSignInResultFromError(errorName: string): (r: Option<SignInResult>)
    ensures r.Some? <==> errorName in {PasswordResetRequiredException, UserNotConfirmedException}
    ensures r.Some? ==> !r.value.isSignedIn
    ensures errorName == PasswordResetRequiredException ==> r.value.nextStep == Bare(RESET_PASSWORD)
    ensures errorName == UserNotConfirmedException ==> r.value.nextStep == Bare(CONFIRM_SIGN_UP)
  {
    AuthUtils.GetSignInResultFromError(errorName)
  }

  /** The catch block of the sign-in flows: a defined `getSignInResultFromError`
      result is returned, any other error is rethrown unchanged. */
  function RecoverOrRethrow(e: AuthError): (r: Result<SignInResult, AuthError>)
    ensures r.Success? <==> e.name in {PasswordResetRequiredException, UserNotConfirmedException}
    ensures r.Success? ==> r.value == GetSignInResultFromError(e.name).value
    ensures r.Failure? ==> r.error == e
  {
    match GetSignInResultFromError(e.name)
    case Some(result) => Success(result)
    case None => Failure(e)
  }
}
