/**
  The auth store (src/store/auth.store.ts): a session token and the signed-in
  user, both absent at first. `setAuth` sets both, `logout` clears both.
  `AuthState`, `Step` and `Run` describe the transitions on values; the class
  `AuthStore` holds the two fields and its methods assign them.
*/
module Auth {
  import opened Optional

  datatype User = User(id: string, email: string, businessName: string)

  datatype AuthState = AuthState(token: Option<string>, user: Option<User>)

  /** A call of one of the store's two actions. */
  datatype Action = SetAuthCall(token: string, user: User) | LogoutCall

  /** The state before any action. */
  const Initial: AuthState := AuthState(None, None)

  /** The token is absent exactly when the user is. */
  predicate Consistent(s: AuthState)
  {
    s.token.None? <==> s.user.None?
  }

  /** The state after one action, from any state. */
  function Step(s: AuthState, a: Action): (r: AuthState)
    ensures Consistent(r)
    ensures r.token.Some? <==> a.SetAuthCall?
    ensures a.SetAuthCall? ==> r.token.value == a.token && r.user.value == a.user
  {
    match a
    case SetAuthCall(token, user) => AuthState(Some(token), Some(user))
    case LogoutCall => AuthState(None, None)
  }

  /** The state after the actions, applied in order. */
  function Run(s: AuthState, actions: seq<Action>): AuthState
    decreases |actions|
  {
    if actions == [] then s else Run(Step(s, actions[0]), actions[1..])
  }

  /** Signing out twice leaves the same state as signing out once. */
  lemma LogoutIdempotent(s: AuthState)
    ensures Step(Step(s, LogoutCall), LogoutCall) == Step(s, LogoutCall) == Initial
  {
  }

  /** A second `setAuth` overwrites the first session completely. */
  lemma SetAuthOverwrites(s: AuthState, t1: string, u1: User, t2: string, u2: User)
    ensures Step(Step(s, SetAuthCall(t1, u1)), SetAuthCall(t2, u2)) == Step(s, SetAuthCall(t2, u2))
  {
  }

  /** Every state reached from a consistent state is consistent. */
  lemma {:induction false} RunConsistent(s: AuthState, actions: seq<Action>)
    requires Consistent(s)
    ensures Consistent(Run(s, actions))
    decreases |actions|
  {
    if actions != [] {
      RunConsistent(Step(s, actions[0]), actions[1..]);
    }
  }

  /** After at least one action, the state is decided by the last action alone. */
  lemma {:induction false} RunLastWins(s: AuthState, actions: seq<Action>)
    requires actions != []
    ensures Run(s, actions) == Step(Initial, actions[|actions| - 1])
    decreases |actions|
  {
    if |actions| > 1 {
      RunLastWins(Step(s, actions[0]), actions[1..]);
    }
  }

  /** The zustand auth store's two fields. */
  class AuthStore {
    var token: Option<string>
    var user: Option<User>

    function State(): AuthState
      reads this
    {
      AuthState(token, user)
    }

    ghost predicate Valid()
      reads this
    {
      Consistent(State())
    }

    /** Both fields start out absent. */
    constructor ()
      ensures Valid() && State() == Initial
      ensures token == None && user == None
    {
      token := None;
      user := None;
    }

    /** `setAuth(token, user)`. */
    method SetAuth(t: string, u: User)
      modifies this
      ensures Valid()
      ensures State() == Step(old(State()), SetAuthCall(t, u))
      ensures token == Some(t) && user == Some(u)
    {
      token := Some(t);
      user := Some(u);
    }

    /** `logout()`. */
    method Logout()
      modifies this
      ensures Valid()
      ensures State() == Step(old(State()), LogoutCall)
      ensures token == None && user == None
    {
      token := None;
      user := None;
    }
  }
}
