/**
 * Changing the password: the form's checks, run in order before anything
 * is sent, the request body they guard, and the route's own presence
 * check on that body.
 */
module Password {
  import opened Wrappers

  const FILL_ALL_MSG := "Please fill in all password fields."
  const TOO_SHORT_MSG := "New password must be at least 6 characters long."
  const MISMATCH_MSG := "New passwords do not match."
  const SAME_AS_OLD_MSG := "New password cannot be the same as the old password."
  const REQUIRED_MSG := "Old and new password are required"

  const MIN_PASSWORD_LENGTH := 6

  /** The first check that fails, or `None` when the request may be sent. */
  function ValidatePasswords(oldPassword: string, newPassword: string, confirmPassword: string): (r: Option<string>)
    ensures r.None? <==>
      oldPassword != "" && newPassword != "" && confirmPassword != ""
      && |newPassword| >= MIN_PASSWORD_LENGTH && newPassword == confirmPassword && oldPassword != newPassword
    ensures r.Some? ==> r.value in {FILL_ALL_MSG, TOO_SHORT_MSG, MISMATCH_MSG, SAME_AS_OLD_MSG}
  {
    if oldPassword == "" || newPassword == "" || confirmPassword == "" then Some(FILL_ALL_MSG)
    else if |newPassword| < MIN_PASSWORD_LENGTH then Some(TOO_SHORT_MSG)
    else if newPassword != confirmPassword then Some(MISMATCH_MSG)
    else if oldPassword == newPassword then Some(SAME_AS_OLD_MSG)
    else None
  }

  /** The request body: `old_password` and `new_password`. */
  datatype ChangeBody = ChangeBody(oldPassword: Option<string>, newPassword: Option<string>)

  /** The route's check before the service is called: both passwords present and not empty. */
  function CheckChangeBody(body: ChangeBody): (r: Option<Error>)
    ensures r.None? <==> body.oldPassword.Some? && body.oldPassword.value != "" && body.newPassword.Some? && body.newPassword.value != ""
    ensures r.Some? ==> r.value == Error(BAD_REQUEST, REQUIRED_MSG)
  {
    if body.oldPassword.None? || body.oldPassword.value == "" || body.newPassword.None? || body.newPassword.value == "" then
      Some(Error(BAD_REQUEST, REQUIRED_MSG))
    else None
  }

  /** How the awaited request ended: an answer carrying an error text or none, or an exception. */
  datatype ChangeOutcome = Answered(error: Option<string>) | Threw

  class PasswordForm {
    var oldPassword: string
    var newPassword: string
    var confirmPassword: string
    var isLoading: bool

    constructor ()
      ensures oldPassword == "" && newPassword == "" && confirmPassword == "" && !isLoading
    {
      oldPassword := "";
      newPassword := "";
      confirmPassword := "";
      isLoading := false;
    }

    /**
     * `handleSubmit`: a failed check sends nothing; otherwise the body is
     * sent, and the three fields are cleared only when the answer carries
     * no error text.
     */
    method HandleSubmit(outcome: ChangeOutcome) returns (sent: Option<ChangeBody>)
      modifies this
      ensures sent.Some? <==> ValidatePasswords(old(oldPassword), old(newPassword), old(confirmPassword)).None?
      ensures sent.Some? ==> sent.value == ChangeBody(Some(old(oldPassword)), Some(old(newPassword)))
      ensures var cleared := sent.Some? && outcome.Answered? && (outcome.error.None? || outcome.error.value == "");
        if cleared then oldPassword == "" && newPassword == "" && confirmPassword == ""
        else oldPassword == old(oldPassword) && newPassword == old(newPassword) && confirmPassword == old(confirmPassword)
      ensures isLoading == (sent.None? && old(isLoading))
    {
      if ValidatePasswords(oldPassword, newPassword, confirmPassword).Some? {
        return None;
      }
      isLoading := true;
      sent := Some(ChangeBody(Some(oldPassword), Some(newPassword)));
      if outcome.Answered? && (outcome.error.None? || outcome.error.value == "") {
        oldPassword := "";
        newPassword := "";
        confirmPassword := "";
      }
      isLoading := false;
    }
  }

  // ----------------------------------------------------------------- lemmas

  /** Every body the form sends passes the route's presence check. */
  lemma SentBodyPassesRoute(oldPassword: string, newPassword: string, confirmPassword: string)
    requires ValidatePasswords(oldPassword, newPassword, confirmPassword).None?
    ensures CheckChangeBody(ChangeBody(Some(oldPassword), Some(newPassword))).None?
  {
  }

  /** The checks run in order: an empty field is reported before a short or mismatched password. */
  lemma EmptyFieldReportedFirst(newPassword: string, confirmPassword: string)
    ensures ValidatePasswords("", newPassword, confirmPassword) == Some(FILL_ALL_MSG)
  {
  }

  /** A short new password is reported even when the confirmation differs. */
  lemma ShortReportedBeforeMismatch()
    ensures ValidatePasswords("secret1", "abc", "abd") == Some(TOO_SHORT_MSG)
  {
  }

  /** Reusing the old password is refused only once the new one is long enough and confirmed. */
  lemma ReuseRefused(p: string)
    requires |p| >= MIN_PASSWORD_LENGTH
    ensures ValidatePasswords(p, p, p) == Some(SAME_AS_OLD_MSG)
  {
  }
}
