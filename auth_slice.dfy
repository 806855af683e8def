/**
 * The client's authentication state and the reducer cases that move it
 * along as sign-up, sign-in, sign-out, profile loading and profile updates
 * start, succeed and fail.
 */
module AuthSlice {
  import opened Wrappers

  /** The signed-in user as the server describes it. */
  datatype User = User(id: string, name: string, email: string)

  /** The requests whose outcomes the slice reacts to. */
  datatype AuthRequest = Register | Login | LoadUser | UpdateDetails | UpdatePassword

  class AuthState {
    var user: Option<User>
    var token: Option<string>
    var isAuthenticated: bool
    var loading: bool
    var error: Option<string>

    /** Authenticated only with a user at hand. */
    ghost predicate Valid()
      reads this
    {
      isAuthenticated ==> user.Some?
    }

    /** The initial state: the user and token remembered by the browser,
        not yet authenticated, loading, no error. */
    constructor(storedUser: Option<User>, storedToken: Option<string>)
      ensures Valid()
      ensures user == storedUser && token == storedToken
      ensures !isAuthenticated && loading && error == None
    {
      user := storedUser;
      token := storedToken;
      isAuthenticated := false;
      loading := true;
      error := None;
    }

    /** Only the error is reset. */
    method ClearError()
      modifies this
      requires Valid()
      ensures Valid()
      ensures error == None
      ensures user == old(user) && token == old(token)
      ensures isAuthenticated == old(isAuthenticated) && loading == old(loading)
    {
      error := None;
    }

    /** A request starts: loading; signing up and signing in also clear the
        error. */
    method Pending(request: AuthRequest)
      modifies this
      requires Valid()
      ensures Valid()
      ensures loading
      ensures error == if request == Register || request == Login then None else old(error)
      ensures user == old(user) && token == old(token) && isAuthenticated == old(isAuthenticated)
    {
      loading := true;
      if request == Register || request == Login {
        error := None;
      }
    }

    /** Sign-up or sign-in succeeded: authenticated with the returned user
        and token; the error is left as it is. */
    method SignInFulfilled(u: User, t: string)
      modifies this
      requires Valid()
      ensures Valid()
      ensures !loading && isAuthenticated && user == Some(u) && token == Some(t)
      ensures error == old(error)
    {
      loading := false;
      isAuthenticated := true;
      user := Some(u);
      token := Some(t);
    }

    /** Sign-up or sign-in failed: not authenticated, with the message. */
    method SignInRejected(message: string)
      modifies this
      requires Valid()
      ensures Valid()
      ensures !loading && !isAuthenticated && error == Some(message)
      ensures user == old(user) && token == old(token)
    {
      loading := false;
      error := Some(message);
      isAuthenticated := false;
    }

    /** Signed out: no user, no token; the error is left as it is. */
    method LogoutFulfilled()
      modifies this
      requires Valid()
      ensures Valid()
      ensures user == None && token == None && !isAuthenticated && !loading
      ensures error == old(error)
    {
      user := None;
      token := None;
      isAuthenticated := false;
      loading := false;
    }

    /** The profile was loaded: authenticated with it; the token is kept. */
    method LoadUserFulfilled(u: User)
      modifies this
      requires Valid()
      ensures Valid()
      ensures !loading && isAuthenticated && user == Some(u)
      ensures token == old(token) && error == old(error)
    {
      loading := false;
      isAuthenticated := true;
      user := Some(u);
    }

    /** Loading the profile failed: no user and not authenticated, but the
        token stays in the state and no error is recorded. */
    method LoadUserRejected()
      modifies this
      requires Valid()
      ensures Valid()
      ensures !loading && !isAuthenticated && user == None
      ensures token == old(token) && error == old(error)
    {
      loading := false;
      isAuthenticated := false;
      user := None;
    }

    /** The details were saved: the returned user replaces the old one. */
    method UpdateDetailsFulfilled(u: User)
      modifies this
      requires Valid()
      ensures Valid()
      ensures !loading && user == Some(u)
      ensures token == old(token) && isAuthenticated == old(isAuthenticated) && error == old(error)
    {
      loading := false;
      user := Some(u);
    }

    /** The password was changed: only loading stops. */
    method UpdatePasswordFulfilled()
      modifies this
      requires Valid()
      ensures Valid()
      ensures !loading
      ensures user == old(user) && token == old(token)
      ensures isAuthenticated == old(isAuthenticated) && error == old(error)
    {
      loading := false;
    }

    /** Saving details or changing the password failed: the message is
        recorded and the session is kept. */
    method UpdateRejected(message: string)
      modifies this
      requires Valid()
      ensures Valid()
      ensures !loading && error == Some(message)
      ensures user == old(user) && token == old(token) && isAuthenticated == old(isAuthenticated)
    {
      loading := false;
      error := Some(message);
    }
  }
}
