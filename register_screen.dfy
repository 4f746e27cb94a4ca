/** The registration screen: the same credential checks as signing in, and
    the loading flag around the account-creation request, whose answer is a
    parameter. */
module RegisterScreen {
  import opened Credentials

  /** One account-creation request and the loading flag while it was in
      flight. */
  datatype CreateUserRequest = CreateUserRequest(email: string, password: string, loadingWhileSent: bool)

  datatype RegisterOutcome = RegisterRejected(reason: CredentialCheck) | Registered | RegisterFailed

  class Register {
    var email: string
    var password: string
    var loading: bool
    var requests: seq<CreateUserRequest>

    constructor ()
      ensures email == "" && password == "" && !loading && requests == []
    {
      email := "";
      password := "";
      loading := false;
      requests := [];
    }

    /** `handleRegister`: rejects before any request unless both checks
        pass; otherwise sends one request with `loading` set and clears
        `loading` in either outcome. */
    method HandleRegister(succeeds: bool) returns (outcome: RegisterOutcome)
      modifies this
      ensures CheckCredentials(email, password) != CredentialsOk ==>
        && outcome == RegisterRejected(CheckCredentials(email, password))
        && requests == old(requests) && loading == old(loading)
      ensures CheckCredentials(email, password) == CredentialsOk ==>
        && requests == old(requests) + [CreateUserRequest(email, password, true)]
        && !loading
        && outcome == (if succeeds then Registered else RegisterFailed)
      ensures email == old(email) && password == old(password)
    {
      var check := CheckCredentials(email, password);
      if check != CredentialsOk {
        return RegisterRejected(check);
      }
      loading := true;
      requests := requests + [CreateUserRequest(email, password, loading)];
      outcome := if succeeds then Registered else RegisterFailed;
      loading := false;
    }
  }
}
