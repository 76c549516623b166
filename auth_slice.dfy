/**
  The `auth` slice of src/lib/store/features/authSlice.ts: a three-field state
  and three reducers, each assigning to fields of the state draft. `Reduce` is
  the specification of one dispatch; `AuthStore` holds the fields and applies it.
 */
module AuthSlice {
  import opened Wrappers

  /** The signed-in user as far as the slice is concerned (the auth service's `User` object). */
  datatype User = User(id: string, email: Option<string>)

  datatype AuthState = AuthState(user: Option<User>, isLoading: bool, error: Option<string>)

  /** The actions `setUser`, `setLoading` and `setError`, with their payloads. */
  datatype Action = SetUser(user: Option<User>) | SetLoading(loading: bool) | SetError(error: Option<string>)

  /** `initialState`: no user, not loading, no error. */
  const Initial := AuthState(None, false, None)

  /** The slice reducer: each action writes its own fields and leaves the others as they were. */
  function Reduce(s: AuthState, a: Action): (r: AuthState)
    ensures a.SetUser? ==> r.user == a.user && r.error == None && r.isLoading == s.isLoading
    ensures a.SetLoading? ==> r.isLoading == a.loading && r.user == s.user && r.error == s.error
    ensures a.SetError? ==> r.error == a.error && r.user == s.user && r.isLoading == s.isLoading
  {
    match a
    case SetUser(u) => s.(user := u, error := None)
    case SetLoading(b) => s.(isLoading := b)
    case SetError(e) => s.(error := e)
  }

  /** Dispatching the same action twice gives the state a single dispatch gives. */
  lemma ReduceIdempotent(s: AuthState, a: Action)
    ensures Reduce(Reduce(s, a), a) == Reduce(s, a)
  {
  }

  /** `setLoading` and `setError` write disjoint fields, so their order does not matter. */
  lemma LoadingAndErrorCommute(s: AuthState, b: bool, e: Option<string>)
    ensures Reduce(Reduce(s, SetLoading(b)), SetError(e)) == Reduce(Reduce(s, SetError(e)), SetLoading(b))
  {
  }

  /** The store's copy of the slice: the fields the reducers assign to. */
  class AuthStore {
    var user: Option<User>
    var isLoading: bool
    var error: Option<string>

    function State(): AuthState
      reads this
    {
      AuthState(user, isLoading, error)
    }

    constructor ()
      ensures State() == Initial
    {
      user, isLoading, error := None, false, None;
    }

    /** `setUser`: record the user and clear the error; `isLoading` is untouched. */
    method SetUser(u: Option<User>)
      modifies this`user, this`error
      ensures State() == Reduce(old(State()), Action.SetUser(u))
    {
      user := u;
      error := None;
    }

    /** `setLoading`: only `isLoading` changes. */
    method SetLoading(b: bool)
      modifies this`isLoading
      ensures State() == Reduce(old(State()), Action.SetLoading(b))
    {
      isLoading := b;
    }

    /** `setError`: only `error` changes. */
    method SetError(e: Option<string>)
      modifies this`error
      ensures State() == Reduce(old(State()), Action.SetError(e))
    {
      error := e;
    }
  }
}
