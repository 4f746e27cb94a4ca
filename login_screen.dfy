/** The sign-in screen: the credential checks, the loading flag around the
    sign-in request, and the "continue without signing in" action. The
    authentication service's answer is a parameter. */
module LoginScreen {
  import opened Common
  import opened Credentials
  import opened AuthGate

  /** One sign-in request and the loading flag while it was in flight. */
  datatype SignInRequest = SignInRequest(email: string, password: string, loadingWhileSent: bool)

  /** What `handleLogin` ends with. `navigateTo` is the tab opened after a
      successful sign-in, when the screen sits inside a parent navigator. */
  datatype LoginOutcome = LoginRejected(reason: CredentialCheck) | SignedIn(navigateTo: Option<string>) | SignInFailed

  class Login {
    var email: string
    var password: string
    var loading: bool
    var requests: seq<SignInRequest>

    constructor ()
      ensures email == "" && password == "" && !loading && requests == []
    {
      email := "";
      password := "";
      loading := false;
      requests := [];
    }

    /** `handleLogin`: rejects before any request unless both checks pass;
        otherwise sends one request with `loading` set and clears `loading`
        whatever the answer. */
    method HandleLogin(succeeds: bool, hasParent: bool) returns (outcome: LoginOutcome)
      modifies this
      ensures CheckCredentials(email, password) != CredentialsOk ==>
        && outcome == LoginRejected(CheckCredentials(email, password))
        && requests == old(requests) && loading == old(loading)
      ensures CheckCredentials(email, password) == CredentialsOk ==>
        && requests == old(requests) + [SignInRequest(email, password, true)]
        && !loading
        && outcome == (if !succeeds then SignInFailed else if hasParent then SignedIn(Some("Profilim")) else SignedIn(None))
      ensures email == old(email) && password == old(password)
    {
      var check := CheckCredentials(email, password);
      if check != CredentialsOk {
        return LoginRejected(check);
      }
      loading := true;
      requests := requests + [SignInRequest(email, password, loading)];
      if succeeds {
        outcome := if hasParent then SignedIn(Some("Profilim")) else SignedIn(None);
      } else {
        outcome := SignInFailed;
      }
      loading := false;
    }

    /** The guest action: `setIsGuest && setIsGuest(true)`. Under the
        sign-in stack the root's setter is passed in; under the profile
        stack none is, and the action does nothing. */
    method ContinueAsGuest(gate: AppGate?)
      modifies gate
      ensures gate != null ==> gate.State() == Apply(old(gate.State()), GuestChosen)
      ensures gate != null ==> ScreenFor(gate.State()) != AuthStack
    {
      if gate != null {
        gate.ContinueAsGuest();
      }
    }
  }
}
