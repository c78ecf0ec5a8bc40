/**
 * The `auth` slice of frontend/src/store/authSlice.ts: whether the user is signed in and
 * who they are, changed by the `loginSuccess` and `logout` reducers and by the outcome of
 * `fetchUserData`. Browser storage is a parameter of the initial state.
 */
module AuthSlice {
  import opened Wrappers
  import opened Text

  /** The user record the server sends; the remaining optional fields are not modelled. */
  datatype User = User(email: Option<string>, firstName: Option<string>, lastName: Option<string>,
                       themeMode: Option<string>, isSuperuser: Option<bool>)

  /** Whether a rejection message names an authentication failure (`includes('401')` or `'403'`). */
  predicate AuthFailure(message: Option<string>) {
    message.Some? && (Contains(message.value, "401") || Contains(message.value, "403"))
  }

  class AuthState {
    var isAuthenticated: bool
    var user: Option<User>

    /** `initialState`: signed in exactly when an access token is stored; no user yet. */
    constructor (hasAccessToken: bool)
      ensures isAuthenticated == hasAccessToken && user.None?
    {
      isAuthenticated := hasAccessToken;
      user := None;
    }

    /** `loginSuccess`: signed in as the payload. */
    method LoginSuccess(payload: User)
      modifies this
      ensures isAuthenticated && user == Some(payload)
    {
      isAuthenticated := true;
      user := Some(payload);
    }

    /** `logout`: signed out with no user (the storage it clears is not modelled). */
    method Logout()
      modifies this
      ensures !isAuthenticated && user.None?
    {
      isAuthenticated := false;
      user := None;
    }

    /** `fetchUserData.fulfilled`: the fetched user, signed in. */
    method FetchFulfilled(payload: User)
      modifies this
      ensures isAuthenticated && user == Some(payload)
    {
      user := Some(payload);
      isAuthenticated := true;
    }

    /**
     * `fetchUserData.rejected`: the state is cleared only when the error message mentions
     * 401 or 403; any other failure leaves it as it was.
     */
    method FetchRejected(message: Option<string>)
      modifies this
      ensures AuthFailure(message) ==> !isAuthenticated && user.None?
      ensures !AuthFailure(message) ==> isAuthenticated == old(isAuthenticated) && user == old(user)
    {
      if message.Some? && (Contains(message.value, "401") || Contains(message.value, "403")) {
        isAuthenticated := false;
        user := None;
      }
    }
  }

  /**
   * Any message in which "401" or "403" occurs signs the user out, wherever it occurs:
   * the status line of a refused request, but also any other text holding those digits.
   */
  lemma {:induction false} CodeAnywhereSignsOut(before: string, after: string)
    ensures AuthFailure(Some(before + "401" + after)) && AuthFailure(Some(before + "403" + after))
  {
    Occurs(before, "401", after);
    Occurs(before, "403", after);
  }

  lemma Occurs(before: string, t: string, after: string)
    ensures OccursAt(before + t + after, t, |before|)
  {
    var s := before + t + after;
    assert s[|before|..|before| + |t|] == t;
  }

  /** A message without the digit 4 never signs the user out. */
  lemma {:induction false} NoFourKeepsState(message: string)
    requires forall i :: 0 <= i < |message| ==> message[i] != '4'
    ensures !AuthFailure(Some(message))
  {
    forall i | 0 <= i <= |message| ensures !OccursAt(message, "401", i) && !OccursAt(message, "403", i) {
      if i + 3 <= |message| {
        assert message[i..i + 3][0] == message[i];
      }
    }
  }

  /**
   * Examples of the rule: the bare codes sign out, and so does the status line axios
   * gives a refused request; no message, or a network error, does not.
   */
  lemma AuthFailureExamples()
    ensures AuthFailure(Some("401")) && AuthFailure(Some("403"))
    ensures AuthFailure(Some("Request failed with status code 401"))
    ensures !AuthFailure(None) && !AuthFailure(Some("Network Error"))
  {
    CodeAnywhereSignsOut("", "");
    assert "" + "401" + "" == "401" && "" + "403" + "" == "403";
    CodeAnywhereSignsOut("Request failed with status code ", "");
    assert "Request failed with status code " + "401" + "" == "Request failed with status code 401";
    NoFourKeepsState("Network Error");
  }
}
