/** `signIn`: picks the sign-in flow from `options.serviceOptions.authFlowType`
    and hands it the request unchanged. `signInWithCustomAuth` is not part of
    this model; it is a parameter that says what that flow dispatches to the
    sign-in store, returns and sends. */
module SignIn {
  import opened Wrappers
  import opened AuthTypes
  import opened SignInStore
  import SignInHelpers
  import SignInWithSrp
  import SignInWithUserPassword
  import SignInWithCustomSrpAuth

  datatype Flow = Srp | UserPassword | CustomWithoutSrp | CustomWithSrp

  /** `signInRequest.options?.serviceOptions?.authFlowType` */
  function AuthFlowTypeOf(request: SignInRequest): Option<string> {
    var options := ServiceOptionsOf(request);
    if options.Some? then options.value.authFlowType else None
  }

  /** The flow-type name that selects each flow other than the default. */
  function FlowName(flow: Flow): string {
    match flow
    case Srp => "USER_SRP_AUTH"
    case UserPassword => "USER_PASSWORD_AUTH"
    case CustomWithoutSrp => "CUSTOM_WITHOUT_SRP"
    case CustomWithSrp => "CUSTOM_WITH_SRP"
  }

  /** The `switch`: each of the four names selects its flow; missing options or
      any other name fall back to SRP. */
  function Route(request: SignInRequest): (flow: Flow)
    ensures AuthFlowTypeOf(request) == Some("USER_SRP_AUTH") ==> flow == Srp
    ensures AuthFlowTypeOf(request) == Some("USER_PASSWORD_AUTH") ==> flow == UserPassword
    ensures AuthFlowTypeOf(request) == Some("CUSTOM_WITHOUT_SRP") ==> flow == CustomWithoutSrp
    ensures AuthFlowTypeOf(request) == Some("CUSTOM_WITH_SRP") ==> flow == CustomWithSrp
    ensures AuthFlowTypeOf(request).None? ==> flow == Srp
    ensures flow != Srp ==> AuthFlowTypeOf(request) == Some(FlowName(flow))
  {
    match AuthFlowTypeOf(request)
    case Some(name) =>
      if name == "USER_SRP_AUTH" then Srp
      else if name == "USER_PASSWORD_AUTH" then UserPassword
      else if name == "CUSTOM_WITHOUT_SRP" then CustomWithoutSrp
      else if name == "CUSTOM_WITH_SRP" then CustomWithSrp
      else Srp
    case None => Srp
  }

  /** Every flow other than SRP is selected by its own name and no other. */
  lemma RouteByName(request: SignInRequest, flow: Flow)
    requires flow != Srp
    ensures Route(request) == flow <==> AuthFlowTypeOf(request) == Some(FlowName(flow))
  {
    if AuthFlowTypeOf(request) == Some(FlowName(flow)) {
      match flow
      case UserPassword =>
      case CustomWithoutSrp =>
        assert FlowName(flow)[1] != "USER_SRP_AUTH"[1];
      case CustomWithSrp =>
        assert FlowName(flow)[1] != "USER_SRP_AUTH"[1];
        assert |FlowName(flow)| != |"CUSTOM_WITHOUT_SRP"|;
    }
  }

  /** The dispatches of a flow that is not part of this model, made in the order it lists them. */
  method DispatchAll(store: Store, actions: seq<Action>)
    modifies store
    ensures store.GetState() == ReduceAll(old(store.GetState()), actions)
  {
    ghost var s0 := store.GetState();
    for i := 0 to |actions|
      invariant store.GetState() == ReduceAll(s0, actions[..i])
    {
      ReduceAllSnoc(s0, actions[..i], actions[i]);
      assert actions[..i + 1] == actions[..i] + [actions[i]];
      store.Dispatch(actions[i]);
    }
    assert actions[..|actions|] == actions;
  }

  /** `signIn` on the library's sign-in store. The user-password flow and the
      custom flow without SRP write to it; the two SRP flows do not. The SRP
      route runs `SignInWithSrp.SignInWithSrp`, the corrected verifier call. */
  method SignIn(store: Store, request: SignInRequest, config: AmplifyConfig, srp: SrpContext,
                parseJson: SignInHelpers.JsonStringArray, service: Service,
                signInWithCustomAuth: SignInRequest -> Transition<Request>)
    returns (result: Result<SignInResult, AuthError>, sent: seq<Request>)
    modifies store
    ensures Route(request) == UserPassword ==>
      var o := SignInWithUserPassword.SignInWithUserPasswordSpec(request, config, parseJson, service);
      store.GetState() == ReduceAll(old(store.GetState()), o.actions) && result == o.result && sent == o.calls
    ensures Route(request) == CustomWithoutSrp ==>
      var o := signInWithCustomAuth(request);
      store.GetState() == ReduceAll(old(store.GetState()), o.actions) && result == o.result && sent == o.calls
    ensures Route(request) in {Srp, CustomWithSrp} ==> store.GetState() == old(store.GetState())
    ensures Route(request) == Srp ==>
      Run(result, sent) == SignInWithSrp.SignInWithSrp(request, config, srp, service)
    ensures Route(request) == CustomWithSrp ==>
      Run(result, sent) == SignInWithCustomSrpAuth.SignInWithCustomSrpAuth(request, config, srp, service)
  {
    match Route(request) {
      case Srp =>
        var run := SignInWithSrp.SignInWithSrp(request, config, srp, service);
        result, sent := run.result, run.sent;
      case UserPassword =>
        result, sent := SignInWithUserPassword.SignInWithUserPassword(store, request, config, parseJson, service);
      case CustomWithoutSrp =>
        var o := signInWithCustomAuth(request);
        DispatchAll(store, o.actions);
        result, sent := o.result, o.calls;
      case CustomWithSrp =>
        var run := SignInWithCustomSrpAuth.SignInWithCustomSrpAuth(request, config, srp, service);
        result, sent := run.result, run.sent;
    }
  }
}
