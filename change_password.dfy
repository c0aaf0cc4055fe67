/**
 * The change-password page: the three guards of the submit handler, the
 * message shown when the server refuses the change, and the session being
 * cleared once a change is confirmed.
 */
module ChangePassword {
  import opened Wrappers

  /** Why the submit handler stops before sending anything. */
  datatype GuardError =
    | MissingField    // "Todos los campos son obligatorios."
    | TooShort        // "La nueva contraseña debe tener al menos 8 caracteres."
    | NoMatch         // "La nueva contraseña y la confirmación no coinciden."

  const MinLength: nat := 8

  /** The guards of `handleSubmit`, in order; the first that fails decides. */
  function Guard(current: string, newPassword: string, confirm: string): (r: Option<GuardError>)
    ensures r.None? <==> current != "" && newPassword != "" && confirm != ""
                         && |newPassword| >= MinLength && newPassword == confirm
    ensures r == Some(MissingField) <==> current == "" || newPassword == "" || confirm == ""
    ensures r == Some(TooShort) ==> current != "" && newPassword != "" && confirm != ""
    ensures r == Some(NoMatch) ==> |newPassword| >= MinLength && newPassword != confirm
  {
    if current == "" || newPassword == "" || confirm == "" then Some(MissingField)
    else if |newPassword| < MinLength then Some(TooShort)
    else if newPassword != confirm then Some(NoMatch)
    else None
  }

  /**
   * A short new password is reported as too short even when the
   * confirmation differs: the length is checked before the match.
   */
  lemma LengthBeforeMatch(current: string, newPassword: string, confirm: string)
    requires current != "" && confirm != "" && 0 < |newPassword| < MinLength
    ensures Guard(current, newPassword, confirm) == Some(TooShort)
  {
  }

  /** What the request's failure carries: an HTTP reply, or none at all (a network error). */
  datatype Failure =
    | NoResponse
    | Response(status: int, error: Option<string>)

  const GenericMessage: string := "Ocurrió un error al cambiar la contraseña."
  const WrongCurrent: string := "La contraseña actual es incorrecta."
  const ReusedPassword: string := "La nueva contraseña no puede ser una de las últimas tres contraseñas utilizadas."

  /**
   * The message shown for a failed request: the server's `error` text when
   * there is one, else the message for 400 or for 409, else the generic one.
   */
  function ErrorMessage(f: Failure): (r: string)
    ensures f.Response? && f.error.Some? && f.error.value != "" ==> r == f.error.value
    ensures (f.NoResponse? || f.error.None? || f.error.value == "") ==>
              r == (if f.Response? && f.status == 400 then WrongCurrent
                    else if f.Response? && f.status == 409 then ReusedPassword
                    else GenericMessage)
  {
    match f
    case NoResponse => GenericMessage
    case Response(status, error) =>
      if error.Some? && error.value != "" then error.value
      else if status == 400 then WrongCurrent
      else if status == 409 then ReusedPassword
      else GenericMessage
  }

  /** The server's own text always wins over the status, whatever the status is. */
  lemma ServerTextWins(status: int, text: string)
    requires text != ""
    ensures forall other :: ErrorMessage(Response(status, Some(text))) == ErrorMessage(Response(other, Some(text)))
  {
  }

  /** The session keys removed once the change is confirmed. */
  const SessionKeys: set<string> := {"access_token", "refresh_token", "user_email", "user_name", "user_rol"}

  /** What the request ends in. */
  datatype Reply =
    | Succeeded(status: int)    // a 2xx answer
    | Failed(failure: Failure)

  /** How a submission ends. */
  datatype SubmitOutcome =
    | Rejected(reason: GuardError)
    | Changed        // success dialog; on confirmation, back to the login
    | Silent         // a 2xx answer other than 200: nothing is shown
    | Refused(message: string)

  /** The request body. */
  datatype ChangeRequest = ChangeRequest(email: string, currentPassword: string, newPassword: string, confirmPassword: string)

  class ChangePasswordPage {
    var currentPassword: string
    var newPassword: string
    var confirmPassword: string
    var isLoading: bool
    var userEmail: string
    var session: map<string, string>

    constructor (session: map<string, string>)
      ensures currentPassword == "" && newPassword == "" && confirmPassword == ""
      ensures !isLoading && userEmail == "" && this.session == session
    {
      currentPassword := "";
      newPassword := "";
      confirmPassword := "";
      isLoading := false;
      userEmail := "";
      this.session := session;
    }

    /** The effect run on load: the signed-in e-mail, or `false` (back to the login) without one. */
    method Load() returns (signedIn: bool)
      modifies this
      ensures signedIn <==> "user_email" in session && session["user_email"] != ""
      ensures userEmail == (if signedIn then session["user_email"] else old(userEmail))
      ensures session == old(session)
      ensures currentPassword == old(currentPassword) && newPassword == old(newPassword)
      ensures confirmPassword == old(confirmPassword) && isLoading == old(isLoading)
    {
      if "user_email" in session && session["user_email"] != "" {
        userEmail := session["user_email"];
        return true;
      }
      return false;
    }

    /**
     * `handleSubmit`: the guards, then the request, whose reply the caller
     * supplies together with whether the success dialog is confirmed.
     */
    method Submit(reply: Reply, confirmed: bool) returns (outcome: SubmitOutcome, sent: Option<ChangeRequest>)
      modifies this
      ensures var guard := Guard(old(currentPassword), old(newPassword), old(confirmPassword));
              && (guard.Some? ==> outcome == Rejected(guard.value) && sent.None?
                                  && isLoading == old(isLoading) && session == old(session))
              && (guard.None? ==> && sent == Some(ChangeRequest(userEmail, currentPassword, newPassword, confirmPassword))
                                  && !isLoading
                                  && outcome == (match reply
                                                 case Succeeded(status) => if status == 200 then Changed else Silent
                                                 case Failed(f) => Refused(ErrorMessage(f)))
                                  && session == (if reply == Succeeded(200) && confirmed then old(session) - SessionKeys
                                                 else old(session)))
      ensures currentPassword == old(currentPassword) && newPassword == old(newPassword)
      ensures confirmPassword == old(confirmPassword) && userEmail == old(userEmail)
    {
      if currentPassword == "" || newPassword == "" || confirmPassword == "" {
        return Rejected(MissingField), None;
      }
      if |newPassword| < MinLength {
        return Rejected(TooShort), None;
      }
      if newPassword != confirmPassword {
        return Rejected(NoMatch), None;
      }
      isLoading := true;
      sent := Some(ChangeRequest(userEmail, currentPassword, newPassword, confirmPassword));
      match reply {
        case Succeeded(status) =>
          if status == 200 {
            outcome := Changed;
            if confirmed {
              session := session - SessionKeys;
            }
          } else {
            outcome := Silent;
          }
        case Failed(f) =>
          outcome := Refused(ErrorMessage(f));
      }
      isLoading := false;
    }
  }
}
