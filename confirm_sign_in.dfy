/** `confirmSignIn`: answers the challenge recorded in the sign-in store, then
    records the next round or resets the store. The round itself
    (`handleChallengeName`) is not part of this model; it is a parameter. */
module ConfirmSignIn {
  import opened Wrappers
  import opened AuthTypes
  import opened SignInStore
  import SignInHelpers

  /** The caller's answer and its (opaque) `options?.serviceOptions`. */
  datatype ConfirmSignInRequest = ConfirmSignInRequest(challengeResponse: string, serviceOptions: Option<Params>)

  /** What `handleChallengeName` receives. */
  datatype ChallengeRound = ChallengeRound(username: string, challengeName: string, session: string,
                                           challengeResponse: string, serviceOptions: Option<Params>)

  /** `handleChallengeName`: answers one challenge with the service, or throws. */
  type ChallengeHandler = ChallengeRound -> Result<AuthResponse, AuthError>

  /** The store holds a user name, a challenge and a session, all non-empty. */
  predicate InSignIn(s: SignInState) {
    Truthy(s.username) && Truthy(s.activeChallengeName) && Truthy(s.activeSignInSession)
  }

  /** One call of `confirmSignIn` from store state s: what it dispatches, returns, and hands to the round. */
  function ConfirmSignInSpec(s: SignInState, request: ConfirmSignInRequest, handler: ChallengeHandler,
                             parseJson: SignInHelpers.JsonStringArray)
    : (o: Transition<ChallengeRound>)
    ensures !InSignIn(s) ==> o == Transition([], Failure(AuthError(SignInException)), [])
    ensures InSignIn(s) ==>
      var round := ChallengeRound(s.username.value, s.activeChallengeName.value, s.activeSignInSession.value,
                                  request.challengeResponse, request.serviceOptions);
      && o.calls == [round]
      && (handler(round).Failure? ==> o.actions == [SetInitialState]
                                       && o.result == SignInHelpers.RecoverOrRethrow(handler(round).error))
      && (handler(round).Success? ==>
            var resp := handler(round).value;
            && |o.actions| >= 2
            && o.actions[..2] == [SetActiveSignInSession(resp.session), SetActiveChallengeName(resp.challengeName)]
            && (resp.authenticationResult.Some? ==> o.actions[2..] == [SetInitialState] && o.result == Success(SignedIn))
            && (resp.authenticationResult.None? ==>
                  var next := SignInHelpers.GetSignInResult(resp.challengeName, resp.challengeParameters, parseJson);
                  && (next.Success? ==> o.actions[2..] == [] && o.result == next)
                  && (next.Failure? ==> o.actions[2..] == [SetInitialState]
                                         && o.result == SignInHelpers.RecoverOrRethrow(next.error))))
  {
    if !InSignIn(s) then Transition([], Failure(AuthError(SignInException)), [])
    else
      var round := ChallengeRound(s.username.value, s.activeChallengeName.value, s.activeSignInSession.value,
                                  request.challengeResponse, request.serviceOptions);
      match handler(round)
      case Failure(e) => Transition([SetInitialState], SignInHelpers.RecoverOrRethrow(e), [round])
      case Success(resp) =>
        var recorded := [SetActiveSignInSession(resp.session), SetActiveChallengeName(resp.challengeName)];
        if resp.authenticationResult.Some? then Transition(recorded + [SetInitialState], Success(SignedIn), [round])
        else
          match SignInHelpers.GetSignInResult(resp.challengeName, resp.challengeParameters, parseJson)
          case Success(result) => Transition(recorded, Success(result), [round])
          case Failure(e) => Transition(recorded + [SetInitialState], SignInHelpers.RecoverOrRethrow(e), [round])
  }

  /** The store afterwards: untouched when no sign-in is in progress; holding
      the returned session and challenge, and the same user name, when the flow
      stops at a next step; otherwise reset. */
  lemma ConfirmSignInFinalState(s: SignInState, request: ConfirmSignInRequest, handler: ChallengeHandler,
                                parseJson: SignInHelpers.JsonStringArray)
    ensures var o := ConfirmSignInSpec(s, request, handler, parseJson);
      var t := ReduceAll(s, o.actions);
      && (!InSignIn(s) ==> t == s)
      && (InSignIn(s) ==>
            var resp := handler(o.calls[0]);
            if resp.Success? && resp.value.authenticationResult.None?
               && SignInHelpers.GetSignInResult(resp.value.challengeName, resp.value.challengeParameters,
                                                parseJson).Success?
            then t == SignInState(s.username, resp.value.challengeName, resp.value.session)
            else t == InitialState)
  {
    var o := ConfirmSignInSpec(s, request, handler, parseJson);
    if InSignIn(s) {
      var resp := handler(o.calls[0]);
      if resp.Success? {
        var a, b := SetActiveSignInSession(resp.value.session), SetActiveChallengeName(resp.value.challengeName);
        if o.actions == [a, b] {
          ReduceAllSnoc(s, [], a);
          assert [] + [a] == [a];
          ReduceAllSnoc(s, [a], b);
          assert [a] + [b] == [a, b];
        } else {
          assert o.actions == [a, b] + [SetInitialState];
          ResetLast(s, [a, b]);
        }
      } else {
        ResetLast(s, []);
      }
    }
  }

  /** `confirmSignIn` on the library's sign-in store. */
  method ConfirmSignIn(store: Store, request: ConfirmSignInRequest, handler: ChallengeHandler,
                       parseJson: SignInHelpers.JsonStringArray)
    returns (result: Result<SignInResult, AuthError>, rounds: seq<ChallengeRound>)
    modifies store
    ensures var o := ConfirmSignInSpec(old(store.GetState()), request, handler, parseJson);
      && store.GetState() == ReduceAll(old(store.GetState()), o.actions)
      && result == o.result && rounds == o.calls
  {
    ghost var s0 := store.GetState();
    ghost var o := ConfirmSignInSpec(s0, request, handler, parseJson);
    var state := store.GetState();
    if !Truthy(state.username) || !Truthy(state.activeChallengeName) || !Truthy(state.activeSignInSession) {
      return Failure(AuthError(SignInException)), [];
    }
    var round := ChallengeRound(state.username.value, state.activeChallengeName.value,
                                state.activeSignInSession.value, request.challengeResponse, request.serviceOptions);
    rounds := [round];
    ghost var done: seq<Action> := [];
    match handler(round) {
      case Failure(e) =>
        store.Dispatch(SetInitialState);
        ReduceAllSnoc(s0, [], SetInitialState);
        result := SignInHelpers.RecoverOrRethrow(e);
      case Success(resp) =>
        store.Dispatch(SetActiveSignInSession(resp.session));
        ReduceAllSnoc(s0, done, SetActiveSignInSession(resp.session));
        done := done + [SetActiveSignInSession(resp.session)];
        store.Dispatch(SetActiveChallengeName(resp.challengeName));
        ReduceAllSnoc(s0, done, SetActiveChallengeName(resp.challengeName));
        done := done + [SetActiveChallengeName(resp.challengeName)];
        if resp.authenticationResult.Some? {
          store.Dispatch(SetInitialState);
          ReduceAllSnoc(s0, done, SetInitialState);
          done := done + [SetInitialState];
          result := Success(SignedIn);
        } else {
          var next := SignInHelpers.GetSignInResult(resp.challengeName, resp.challengeParameters, parseJson);
          match next {
            case Success(r) =>
              result := Success(r);
            case Failure(e) =>
              store.Dispatch(SetInitialState);
              ReduceAllSnoc(s0, done, SetInitialState);
              done := done + [SetInitialState];
              result := SignInHelpers.RecoverOrRethrow(e);
          }
        }
        assert done == o.actions;
    }
  }
}
