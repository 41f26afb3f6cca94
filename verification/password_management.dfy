/**
  The password page of `src/pages/PasswordManagement.tsx`: an administrator sets another
  user's password. The form is validated first, then the session is read, then one
  request goes to the `update-user-password` edge function; the inputs are cleared only
  after that request answered ok.
 */
module PasswordManagement {

  import opened Wrappers
  import Validations

  const UsernameRequired := "Username este obligatoriu"
  const PasswordTooShort := "Parola trebuie să aibă minim 6 caractere"

  /** `passwordSchema`: the issues, username first. */
  function PasswordIssues(username: string, newPassword: string): (r: seq<string>)
    ensures r == [] <==> |username| >= 1 && |newPassword| >= 6
    ensures |username| == 0 ==> r[0] == UsernameRequired
    ensures |username| >= 1 && |newPassword| < 6 ==> r[0] == PasswordTooShort
  {
    (if |username| < 1 then [UsernameRequired] else [])
    + (if |newPassword| < 6 then [PasswordTooShort] else [])
  }

  /** The password rule here is the lower bound of the sign-in schema's password rule:
      every password that schema accepts is accepted here. */
  lemma SignInPasswordsAccepted(username: string, password: string)
    requires Validations.AuthIssues(username, password) == []
    ensures PasswordIssues(username, password) == []
  {
  }

  /** A notification. */
  datatype Toast = Toast(title: string, description: string)

  /** The request to the edge function: the session's token and the validated fields. */
  datatype PasswordRequest = PasswordRequest(accessToken: string, username: string, newPassword: string)

  const NotAuthenticated := "Nu sunteți autentificat"
  const UpdateFailed := "Eroare la actualizarea parolei"

  function SuccessDescription(username: string): string {
    "Parola pentru utilizatorul '" + username + "' a fost actualizată"
  }

  /** `result.error || "Eroare la actualizarea parolei"`. */
  function FailureDescription(resultError: Option<string>): (r: string)
    ensures r != ""
    ensures resultError.GetOr("") != "" ==> r == resultError.value
  {
    if resultError.GetOr("") != "" then resultError.value else UpdateFailed
  }

  /** How the request to the edge function ends: an answer, with its `ok` flag and the
      `error` key of its JSON body, or an exception (a rejected `fetch` or a body that is not
      JSON) with its message. */
  datatype UpdateAnswer = Answered(ok: bool, error: Option<string>) | Threw(message: string)

  /** The page's form state and the requests it has sent. */
  class PasswordPage {
    var username: string
    var newPassword: string
    var loading: bool
    var requests: seq<PasswordRequest>

    constructor ()
      ensures username == "" && newPassword == "" && !loading && requests == []
    {
      username, newPassword, loading, requests := "", "", false, [];
    }

    /** `handleUpdatePassword`. `session` is the access token of the current session, if
        any; `answer` is how the request to the edge function ended. */
    method HandleUpdatePassword(session: Option<string>, answer: UpdateAnswer)
      returns (toast: Toast)
      modifies this
      ensures !loading
      // validation comes first: an invalid form sends nothing and shows the first issue
      ensures PasswordIssues(old(username), old(newPassword)) != [] ==>
        && toast == Toast("Eroare de validare", PasswordIssues(old(username), old(newPassword))[0])
        && requests == old(requests) && username == old(username) && newPassword == old(newPassword)
      ensures PasswordIssues(old(username), old(newPassword)) == [] && session.None? ==>
        && toast == Toast("Eroare", NotAuthenticated)
        && requests == old(requests) && username == old(username) && newPassword == old(newPassword)
      ensures PasswordIssues(old(username), old(newPassword)) == [] && session.Some? ==>
        && requests == old(requests) + [PasswordRequest(session.value, old(username), old(newPassword))]
        && (answer.Threw? ==>
              toast == Toast("Eroare", answer.message) && username == old(username) && newPassword == old(newPassword))
        && (answer.Answered? && answer.ok ==>
              toast == Toast("Succes", SuccessDescription(old(username))) && username == "" && newPassword == "")
        && (answer.Answered? && !answer.ok ==>
              toast == Toast("Eroare", FailureDescription(answer.error))
              && username == old(username) && newPassword == old(newPassword))
      // the inputs are cleared only after an ok answer to a sent request
      ensures username != old(username) || newPassword != old(newPassword) ==>
        |requests| == |old(requests)| + 1 && answer.Answered? && answer.ok
    {
      loading := true;
      var issues := PasswordIssues(username, newPassword);
      if issues != [] {
        toast := Toast("Eroare de validare", issues[0]);
      } else if session.None? {
        toast := Toast("Eroare", NotAuthenticated);
      } else {
        requests := requests + [PasswordRequest(session.value, username, newPassword)];
        match answer
        case Threw(message) =>
          toast := Toast("Eroare", message);
        case Answered(ok, error) =>
          if !ok {
            toast := Toast("Eroare", FailureDescription(error));
          } else {
            toast := Toast("Succes", SuccessDescription(username));
            username, newPassword := "", "";
          }
      }
      loading := false;
    }
  }
}
