/** `signInWithUserPassword`: validates the request, initiates
    USER_PASSWORD_AUTH, records the round in the sign-in store, and resets the
    store when the user is signed in or anything throws. */
module SignInWithUserPassword {
  import opened Wrappers
  import opened AuthTypes
  import opened SignInStore
  import opened RequestParts
  import SignInHelpers

  /** `options?.serviceOptions?.clientMetadata || config.clientMetadata`. */
  function MetadataOf(request: SignInRequest, config: AmplifyConfig): (r: Option<Params>)
    ensures var options := ServiceOptionsOf(request);
      r == if options.Some? && options.value.clientMetadata.Some? then options.value.clientMetadata
           else config.clientMetadata
  {
    var options := ServiceOptionsOf(request);
    MetadataOrDefault(if options.Some? then options.value.clientMetadata else None, config)
  }

  /** One call of `signInWithUserPassword`: what it dispatches, returns and sends. */
  function SignInWithUserPasswordSpec(request: SignInRequest, config: AmplifyConfig,
                                      parseJson: SignInHelpers.JsonStringArray, service: Service)
    : (o: Transition<Request>)
    ensures request.username == "" ==> o == Transition([], Failure(AuthError(EmptySignInUsername)), [])
    ensures request.username != "" && request.password == "" ==>
      o == Transition([], Failure(AuthError(EmptySignInPassword)), [])
    ensures request.username != "" && request.password != "" ==>
      var x := SignInHelpers.HandleUserPasswordAuthFlow(request.username, request.password,
                                                        MetadataOf(request, config), service);
      && o.calls == x.sent
      && (x.response.Failure? ==> o.actions == [SetInitialState]
                                    && o.result == SignInHelpers.RecoverOrRethrow(x.response.error))
      && (x.response.Success? ==>
            var resp := x.response.value;
            && |o.actions| >= 3
            && o.actions[..3] == [SetActiveSignInSession(resp.session), SetUsername(Some(request.username)),
                                  SetActiveChallengeName(resp.challengeName)]
            && (resp.authenticationResult.Some? ==> o.actions[3..] == [SetInitialState] && o.result == Success(SignedIn))
            && (resp.authenticationResult.None? ==>
                  var next := SignInHelpers.GetSignInResult(resp.challengeName, resp.challengeParameters, parseJson);
                  && (next.Success? ==> o.actions[3..] == [] && o.result == next)
                  && (next.Failure? ==> o.actions[3..] == [SetInitialState]
                                         && o.result == SignInHelpers.RecoverOrRethrow(next.error))))
  {
    if request.username == "" then Transition([], Failure(AuthError(EmptySignInUsername)), [])
    else if request.password == "" then Transition([], Failure(AuthError(EmptySignInPassword)), [])
    else
      var x := SignInHelpers.HandleUserPasswordAuthFlow(request.username, request.password,
                                                        MetadataOf(request, config), service);
      match x.response
      case Failure(e) => Transition([SetInitialState], SignInHelpers.RecoverOrRethrow(e), x.sent)
      case Success(resp) =>
        var recorded := [SetActiveSignInSession(resp.session), SetUsername(Some(request.username)),
                         SetActiveChallengeName(resp.challengeName)];
        if resp.authenticationResult.Some? then Transition(recorded + [SetInitialState], Success(SignedIn), x.sent)
        else
          match SignInHelpers.GetSignInResult(resp.challengeName, resp.challengeParameters, parseJson)
          case Success(result) => Transition(recorded, Success(result), x.sent)
          case Failure(e) => Transition(recorded + [SetInitialState], SignInHelpers.RecoverOrRethrow(e), x.sent)
  }

  /** The store afterwards: untouched when validation fails; holding the
      returned session, the caller's user name and the returned challenge when
      the flow stops at a next step; otherwise reset. */
  lemma UserPasswordFinalState(s: SignInState, request: SignInRequest, config: AmplifyConfig,
                               parseJson: SignInHelpers.JsonStringArray, service: Service)
    ensures var o := SignInWithUserPasswordSpec(request, config, parseJson, service);
      var t := ReduceAll(s, o.actions);
      && (request.username == "" || request.password == "" ==> t == s)
      && (request.username != "" && request.password != "" ==>
            var x := SignInHelpers.HandleUserPasswordAuthFlow(request.username, request.password,
                                                              MetadataOf(request, config), service);
            if x.response.Success? && x.response.value.authenticationResult.None?
               && SignInHelpers.GetSignInResult(x.response.value.challengeName, x.response.value.challengeParameters,
                                                parseJson).Success?
            then t == SignInState(Some(request.username), x.response.value.challengeName, x.response.value.session)
            else t == InitialState)
  {
    var o := SignInWithUserPasswordSpec(request, config, parseJson, service);
    if request.username != "" && request.password != "" {
      var x := SignInHelpers.HandleUserPasswordAuthFlow(request.username, request.password,
                                                        MetadataOf(request, config), service);
      if x.response.Success? {
        var resp := x.response.value;
        var recorded := [SetActiveSignInSession(resp.session), SetUsername(Some(request.username)),
                         SetActiveChallengeName(resp.challengeName)];
        if o.actions == recorded {
          var a, b, c := recorded[0], recorded[1], recorded[2];
          ReduceAllSnoc(s, [], a);
          assert [] + [a] == [a];
          ReduceAllSnoc(s, [a], b);
          assert [a] + [b] == [a, b];
          ReduceAllSnoc(s, [a, b], c);
          assert [a, b] + [c] == recorded;
        } else {
          assert o.actions == recorded + [SetInitialState];
          ResetLast(s, recorded);
        }
      } else {
        ResetLast(s, []);
      }
    }
  }

  /** `signInWithUserPassword` on the library's sign-in store. */
  method SignInWithUserPassword(store: Store, request: SignInRequest, config: AmplifyConfig,
                                parseJson: SignInHelpers.JsonStringArray, service: Service)
    returns (result: Result<SignInResult, AuthError>, sent: seq<Request>)
    modifies store
    ensures var o := SignInWithUserPasswordSpec(request, config, parseJson, service);
      && store.GetState() == ReduceAll(old(store.GetState()), o.actions)
      && result == o.result && sent == o.calls
  {
    ghost var s0 := store.GetState();
    ghost var o := SignInWithUserPasswordSpec(request, config, parseJson, service);
    if request.username == "" {
      return Failure(AuthError(EmptySignInUsername)), [];
    }
    if request.password == "" {
      return Failure(AuthError(EmptySignInPassword)), [];
    }
    var metadata := MetadataOf(request, config);
    var x := SignInHelpers.HandleUserPasswordAuthFlow(request.username, request.password, metadata, service);
    sent := x.sent;
    ghost var done: seq<Action> := [];
    match x.response {
      case Failure(e) =>
        store.Dispatch(SetInitialState);
        ReduceAllSnoc(s0, [], SetInitialState);
        result := SignInHelpers.RecoverOrRethrow(e);
      case Success(resp) =>
        store.Dispatch(SetActiveSignInSession(resp.session));
        ReduceAllSnoc(s0, done, SetActiveSignInSession(resp.session));
        done := done + [SetActiveSignInSession(resp.session)];
        store.Dispatch(SetUsername(Some(request.username)));
        ReduceAllSnoc(s0, done, SetUsername(Some(request.username)));
        done := done + [SetUsername(Some(request.username))];
        store.Dispatch(SetActiveChallengeName(resp.challengeName));
        ReduceAllSnoc(s0, done, SetActiveChallengeName(resp.challengeName));
        done := done + [SetActiveChallengeName(resp.challengeName)];
        if resp.authenticationResult.Some? {
          store.Dispatch(SetInitialState);
          ReduceAllSnoc(s0, done, SetInitialState);
          done := done + [SetInitialState];
          result := Success(SignedIn);
        } else {
          var next := SignInHelpers.GetSignInResult(resp.challengeName, resp.challengeParameters, parseJson);
          match next {
            case Success(r) =>
              result := Success(r);
            case Failure(e) =>
              store.Dispatch(SetInitialState);
              ReduceAllSnoc(s0, done, SetInitialState);
              done := done + [SetInitialState];
              result := SignInHelpers.RecoverOrRethrow(e);
          }
        }
        assert done == o.actions;
    }
  }
}
