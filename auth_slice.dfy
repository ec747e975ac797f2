/** The `auth` slice of the store: whether somebody is signed in, who, and the
    loading and error flags of the sign-in. The secret-key lookup and the
    device storage are outside the model; their results arrive as inputs. */
module AuthSlice {
  import opened Common
  import opened Types

  const InvalidSecretKey: string := "Invalid secret key"
  /** The source's message, with its two spaces. */
  const ConnectionError: string := "Error connecting  server"

  /** What the lookup of a secret key gave: an answer, possibly empty, or a thrown error. */
  datatype Lookup = Answered(user: Option<Warehouseman>) | LookupFailed

  /** The body of the `login` thunk: no user for the key is rejected with
      "Invalid secret key"; a failed lookup, or a failure saving the user to the
      device (`saved` false), is rejected with the connection message; otherwise
      the user is the payload. */
  function LoginOutcome(lookup: Lookup, saved: bool): (r: Result<Warehouseman, string>)
    ensures r.Success? <==> lookup.Answered? && lookup.user.Some? && saved
    ensures r.Success? ==> r.value == lookup.user.value
    ensures r == Failure(InvalidSecretKey) <==> lookup.Answered? && lookup.user.None?
    ensures r == Failure(ConnectionError) <==> lookup.LookupFailed? || (lookup.user.Some? && !saved)
    ensures r.Failure? ==> r.error != ""
  {
    match lookup
    case LookupFailed => Failure(ConnectionError)
    case Answered(user) =>
      if user.None? then Failure(InvalidSecretKey)
      else if !saved then Failure(ConnectionError)
      else Success(user.value)
  }

  class AuthState {
    var isAuthenticated: bool
    var user: Option<Warehouseman>
    var loading: bool
    var error: Option<string>

    /** Signed in exactly when a user is held, and no error is shown while a sign-in is in flight. */
    ghost predicate Valid()
      reads this
    {
      && (isAuthenticated <==> user.Some?)
      && (loading ==> error.None?)
    }

    /** `initialState`. */
    constructor ()
      ensures !isAuthenticated && user.None? && !loading && error.None?
      ensures Valid()
    {
      isAuthenticated := false;
      user := None;
      loading := false;
      error := None;
    }

    /** `login.pending`. */
    method LoginPending()
      requires Valid()
      modifies this
      ensures loading && error.None?
      ensures isAuthenticated == old(isAuthenticated) && user == old(user)
      ensures Valid()
    {
      loading := true;
      error := None;
    }

    /** `login.fulfilled`: the payload becomes the signed-in user. */
    method LoginFulfilled(payload: Warehouseman)
      requires Valid()
      modifies this
      ensures !loading && isAuthenticated && user == Some(payload)
      ensures error == old(error)
      ensures Valid()
    {
      loading := false;
      isAuthenticated := true;
      user := Some(payload);
    }

    /** `login.rejected`: the rejection's payload becomes the error; who is signed in does not change. */
    method LoginRejected(payload: string)
      requires Valid()
      modifies this
      ensures !loading && error == Some(payload)
      ensures isAuthenticated == old(isAuthenticated) && user == old(user)
      ensures Valid()
    {
      loading := false;
      error := Some(payload);
    }

    /** `loadUser.fulfilled`: the stored user, if any, is restored; `!!payload`
        is true exactly for a user. */
    method LoadUserFulfilled(payload: Option<Warehouseman>)
      requires Valid()
      modifies this
      ensures user == payload && (isAuthenticated <==> payload.Some?)
      ensures loading == old(loading) && error == old(error)
      ensures Valid()
    {
      isAuthenticated := payload.Some?;
      user := payload;
    }

    /** `logout.fulfilled`: nobody is signed in and no error is shown; `loading` is left as it is. */
    method LogoutFulfilled()
      requires Valid()
      modifies this
      ensures !isAuthenticated && user.None? && error.None?
      ensures loading == old(loading)
      ensures Valid()
    {
      isAuthenticated := false;
      user := None;
      error := None;
    }

    /** One dispatch of `login`: `pending`, then `fulfilled` with the user or
        `rejected` with the thunk's message. */
    method Login(lookup: Lookup, saved: bool)
      requires Valid()
      modifies this
      ensures !loading && Valid()
      ensures LoginOutcome(lookup, saved).Success? ==>
                isAuthenticated && user == Some(LoginOutcome(lookup, saved).value) && error.None?
      ensures LoginOutcome(lookup, saved).Failure? ==>
                && error == Some(LoginOutcome(lookup, saved).error)
                && isAuthenticated == old(isAuthenticated) && user == old(user)
    {
      LoginPending();
      match LoginOutcome(lookup, saved)
      case Success(u) => LoginFulfilled(u);
      case Failure(message) => LoginRejected(message);
    }
  }
}
