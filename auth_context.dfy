/** `authReducer`: the two-action state machine behind the signed-in user. The `User`
    record is not part of this model, so the state is generic in it. */
module Auth {
  import opened Wrappers

  /** `AuthState`: the signed-in user (`null` when signed out) and the authenticated flag. */
  datatype AuthState<U> = AuthState(user: Option<U>, isAuthenticated: bool)

  /** `AuthAction`: `login` with a user, `logout`, or an action of any other `type`,
      which the reducer's `default` branch receives. `OtherAction`'s `actionType` stands for
      a type other than `"login"` and `"logout"`: those two are `Login` and `Logout`. */
  datatype AuthAction<U> = Login(user: U) | Logout | OtherAction(actionType: string)

  /** `initialState`: nobody signed in. */
  function InitialState<U>(): AuthState<U>
  {
    AuthState(None, false)
  }

  /** The flag says "authenticated" exactly when a user is present. */
  predicate Consistent<U>(s: AuthState<U>)
  {
    s.isAuthenticated <==> s.user.Some?
  }

  /** `authReducer(state, action)`. */
  function AuthReducer<U>(state: AuthState<U>, action: AuthAction<U>): (r: AuthState<U>)
    ensures action.OtherAction? ==> r == state
    ensures !action.OtherAction? ==> Consistent(r)
    ensures !action.OtherAction? ==> (r.user.Some? <==> action.Login?)
    ensures action.Login? ==> r.user == Some(action.user)
  {
    match action
    case Login(u) => AuthState(Some(u), true)
    case Logout => AuthState(None, false)
    case OtherAction(_) => state
  }

  /** The state after dispatching `actions` in order (what `useReducer` holds). */
  function Run<U>(s: AuthState<U>, actions: seq<AuthAction<U>>): AuthState<U>
    decreases |actions|
  {
    if actions == [] then s else Run(AuthReducer(s, actions[0]), actions[1..])
  }

  /** Every dispatch keeps "authenticated iff a user is present". */
  lemma {:induction false} RunKeepsConsistent<U>(s: AuthState<U>, actions: seq<AuthAction<U>>)
    requires Consistent(s)
    ensures Consistent(Run(s, actions))
    decreases |actions|
  {
    if actions != [] {
      RunKeepsConsistent(AuthReducer(s, actions[0]), actions[1..]);
    }
  }

  /** From the initial state (no user, not authenticated), after any sequence of actions,
      `isAuthenticated` is true exactly when `user` is non-null. */
  lemma ReachableStatesAreConsistent<U>(actions: seq<AuthAction<U>>)
    ensures InitialState<U>().user == None && !InitialState<U>().isAuthenticated
    ensures Consistent(Run(InitialState(), actions))
  {
    RunKeepsConsistent(InitialState(), actions);
  }

  /** `login` and `logout` ignore the previous state; a second `login` overrides the
      first; `logout` is idempotent; any other action changes nothing. */
  lemma ReducerLaws<U>(s: AuthState<U>, t: AuthState<U>, u: U, v: U, other: string)
    ensures AuthReducer(s, Login(u)) == AuthReducer(t, Login(u)) == AuthState(Some(u), true)
    ensures AuthReducer(s, Logout) == AuthReducer(t, Logout) == AuthState(None, false)
    ensures AuthReducer(AuthReducer(s, Login(u)), Login(v)) == AuthReducer(s, Login(v))
    ensures AuthReducer(AuthReducer(s, Logout), Logout) == AuthReducer(s, Logout)
    ensures AuthReducer(s, OtherAction(other)) == s
  {
  }

  /** The last `login` or `logout` decides the state; actions of other types after it do
      not matter. */
  lemma {:induction false} LastLoginOrLogoutDecides<U>(s: AuthState<U>, a: AuthAction<U>, rest: seq<AuthAction<U>>)
    requires !a.OtherAction?
    requires forall i :: 0 <= i < |rest| ==> rest[i].OtherAction?
    ensures Run(s, [a] + rest) == AuthReducer(s, a)
    decreases |rest|
  {
    assert ([a] + rest)[1..] == rest;
    OthersChangeNothing(AuthReducer(s, a), rest);
  }

  lemma {:induction false} OthersChangeNothing<U>(s: AuthState<U>, rest: seq<AuthAction<U>>)
    requires forall i :: 0 <= i < |rest| ==> rest[i].OtherAction?
    ensures Run(s, rest) == s
    decreases |rest|
  {
    if rest != [] {
      OthersChangeNothing(s, rest[1..]);
    }
  }
}
