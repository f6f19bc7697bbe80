/** The sign-in session store (`signInStore`) that the sign-in flows read and
    dispatch to. Its reducer is not part of this model; the actions are taken
    to do what their names say: each SET_* action replaces its one field and
    SET_INITIAL_STATE empties all three. */
module SignInStore {
  import opened Wrappers
  import opened AuthTypes

  /** The sign-in session: who is signing in, the challenge they must answer
      next, and the service session token that ties the rounds together. */
  datatype SignInState = SignInState(
    username: Option<string>,
    activeChallengeName: Option<string>,
    activeSignInSession: Option<string>)

  const InitialState := SignInState(None, None, None)

  datatype Action =
    | SetActiveSignInSession(session: Option<string>)
    | SetUsername(name: Option<string>)
    | SetActiveChallengeName(challengeName: Option<string>)
    | SetInitialState

  /** The reducer as the action names describe it. */
  function Reduce(s: SignInState, a: Action): (t: SignInState)
    ensures a.SetActiveSignInSession? ==>
      t.activeSignInSession == a.session && t.username == s.username && t.activeChallengeName == s.activeChallengeName
    ensures a.SetUsername? ==>
      t.username == a.name && t.activeChallengeName == s.activeChallengeName && t.activeSignInSession == s.activeSignInSession
    ensures a.SetActiveChallengeName? ==>
      t.activeChallengeName == a.challengeName && t.username == s.username && t.activeSignInSession == s.activeSignInSession
    ensures a.SetInitialState? ==> t.username.None? && t.activeChallengeName.None? && t.activeSignInSession.None?
  {
    match a
    case SetActiveSignInSession(v) => s.(activeSignInSession := v)
    case SetUsername(v) => s.(username := v)
    case SetActiveChallengeName(v) => s.(activeChallengeName := v)
    case SetInitialState => InitialState
  }

  /** The state after dispatching a sequence of actions in order. */
  function ReduceAll(s: SignInState, actions: seq<Action>): SignInState
    decreases |actions|
  {
    if actions == [] then s else ReduceAll(Reduce(s, actions[0]), actions[1..])
  }

  /** Dispatching one more action acts on the state the earlier ones left. */
  lemma {:induction false} ReduceAllSnoc(s: SignInState, actions: seq<Action>, a: Action)
    ensures ReduceAll(s, actions + [a]) == Reduce(ReduceAll(s, actions), a)
    decreases |actions|
  {
    if actions != [] {
      assert (actions + [a])[1..] == actions[1..] + [a];
      ReduceAllSnoc(Reduce(s, actions[0]), actions[1..], a);
    }
  }

  /** What one call of a store-writing flow does: the actions it dispatches, in
      order, the result it returns or the error it throws, and the calls it makes
      to the service, in order. */
  datatype Transition<Call> = Transition(actions: seq<Action>, result: Result<SignInResult, AuthError>, calls: seq<Call>)

  /** Whatever came before, dispatching SET_INITIAL_STATE last leaves the initial state. */
  lemma {:induction false} ResetLast(s: SignInState, actions: seq<Action>)
    ensures ReduceAll(s, actions + [SetInitialState]) == InitialState
    decreases |actions|
  {
    if actions != [] {
      assert (actions + [SetInitialState])[1..] == actions[1..] + [SetInitialState];
      ResetLast(Reduce(s, actions[0]), actions[1..]);
    }
  }

  class Store {
    var username: Option<string>
    var activeChallengeName: Option<string>
    var activeSignInSession: Option<string>

    /** `signInStore.getState()` */
    function GetState(): SignInState
      reads this
    {
      SignInState(username, activeChallengeName, activeSignInSession)
    }

    constructor ()
      ensures GetState() == InitialState
    {
      username, activeChallengeName, activeSignInSession := None, None, None;
    }

    /** `signInStore.dispatch(action)` */
    method Dispatch(a: Action)
      modifies this
      ensures GetState() == Reduce(old(GetState()), a)
    {
      match a
      case SetActiveSignInSession(v) => activeSignInSession := v;
      case SetUsername(v) => username := v;
      case SetActiveChallengeName(v) => activeChallengeName := v;
      case SetInitialState =>
        username, activeChallengeName, activeSignInSession := None, None, None;
    }
  }
}
