/**
 * src/features/auth/authSlice.ts: the sign-in state machine. `isChecking`
 * is set until the stored session has been checked; a `checkAuth` that is
 * rejected has no case in the slice, so only `setAuthChecked` or a login
 * result clears the flag then.
 */
module AuthSlice {

  import opened Wrappers
  import opened Types
  import opened Text

  /** What login and checkAuth return on success. */
  datatype AuthResponse = AuthResponse(user: User, token: string)

  class AuthState {
    var isAuthenticated: bool
    var user: Option<User>
    var token: Option<string>
    var loading: bool
    var error: Option<string>
    var isChecking: bool

    /** Signed in exactly when a user and a token are held. */
    predicate Valid()
      reads this
    {
      (isAuthenticated <==> user.Some?) && (isAuthenticated <==> token.Some?)
    }

    /** initialState: signed out, not loading, and a session check outstanding. */
    constructor ()
      ensures !isAuthenticated && user.None? && token.None?
      ensures !loading && error.None? && isChecking
      ensures Valid()
    {
      isAuthenticated := false;
      user := None;
      token := None;
      loading := false;
      error := None;
      isChecking := true;
    }

    method ClearError()
      modifies this
      ensures error.None?
      ensures isAuthenticated == old(isAuthenticated) && user == old(user) && token == old(token)
      ensures loading == old(loading) && isChecking == old(isChecking)
    {
      error := None;
    }

    /** setAuthChecked: only the checking flag changes. */
    method SetAuthChecked()
      modifies this
      ensures !isChecking
      ensures isAuthenticated == old(isAuthenticated) && user == old(user) && token == old(token)
      ensures loading == old(loading) && error == old(error)
    {
      isChecking := false;
    }

    /** login.pending. */
    method LoginPending()
      modifies this
      ensures loading && error.None?
      ensures isAuthenticated == old(isAuthenticated) && user == old(user) && token == old(token)
      ensures isChecking == old(isChecking)
    {
      loading := true;
      error := None;
    }

    /** login.fulfilled: signed in with the returned user and token; loading and checking end. */
    method LoginFulfilled(response: AuthResponse)
      modifies this
      ensures isAuthenticated && user == Some(response.user) && token == Some(response.token)
      ensures !loading && !isChecking
      ensures error == old(error)
      ensures Valid()
    {
      loading := false;
      isAuthenticated := true;
      user := Some(response.user);
      token := Some(response.token);
      isChecking := false;
    }

    /** login.rejected: the message or 'Login failed'; the sign-in state is left as it was. */
    method LoginRejected(message: Option<string>)
      modifies this
      ensures !loading && !isChecking
      ensures error == Some(OrDefault(message, "Login failed"))
      ensures message.None? ==> error == Some("Login failed")
      ensures isAuthenticated == old(isAuthenticated) && user == old(user) && token == old(token)
      ensures old(Valid()) ==> Valid()
    {
      loading := false;
      error := Some(OrDefault(message, "Login failed"));
      isChecking := false;
    }

    /** logout.fulfilled: signed out, user and token dropped. */
    method LogoutFulfilled()
      modifies this
      ensures !isAuthenticated && user.None? && token.None?
      ensures loading == old(loading) && error == old(error) && isChecking == old(isChecking)
      ensures Valid()
    {
      isAuthenticated := false;
      user := None;
      token := None;
    }

    /** checkAuth.fulfilled: the check is over; a stored session (non-null payload) signs the user in. */
    method CheckAuthFulfilled(payload: Option<AuthResponse>)
      modifies this
      ensures !isChecking
      ensures payload.Some? ==>
        isAuthenticated && user == Some(payload.value.user) && token == Some(payload.value.token)
      ensures payload.None? ==>
        isAuthenticated == old(isAuthenticated) && user == old(user) && token == old(token)
      ensures loading == old(loading) && error == old(error)
      ensures old(Valid()) ==> Valid()
    {
      isChecking := false;
      if payload.Some? {
        isAuthenticated := true;
        user := Some(payload.value.user);
        token := Some(payload.value.token);
      }
    }
  }
}
