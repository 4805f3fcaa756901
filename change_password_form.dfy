/** The submit handler of the change-password page. */
module ChangePasswordForm {

  import PasswordRules

  /** The failures in the order the handler checks them. */
  datatype Failure = MissingField | WeakPassword | PasswordMismatch | SameAsCurrent

  function Message(f: Failure): string
  {
    match f
    case MissingField => "Please fill in all fields"
    case WeakPassword => "New password does not meet requirements"
    case PasswordMismatch => "New passwords do not match"
    case SameAsCurrent => "New password must be different from current password"
  }

  /** Either an alert, or the JSON body sent to `POST /api/change-password`. */
  datatype Submission = Reject(failure: Failure) | Send(currentPassword: string, newPassword: string)

  /** No field is trimmed. The strength check comes before the match check,
      so a weak new password is reported as weak even if the confirmation differs. */
  function ValidateChange(currentPassword: string, newPassword: string, confirmPassword: string): (r: Submission)
    ensures var filled := currentPassword != "" && newPassword != "" && confirmPassword != "";
            var strong := PasswordRules.ValidatePasswordRequirements(newPassword);
            && (r == Reject(MissingField) <==> !filled)
            && (r == Reject(WeakPassword) <==> filled && !strong)
            && (r == Reject(PasswordMismatch) <==> filled && strong && newPassword != confirmPassword)
            && (r == Reject(SameAsCurrent) <==>
                  filled && strong && newPassword == confirmPassword && currentPassword == newPassword)
            && (r.Send? <==> filled && strong && newPassword == confirmPassword && currentPassword != newPassword)
            && (r.Send? ==> r == Send(currentPassword, newPassword))
  {
    if currentPassword == "" || newPassword == "" || confirmPassword == "" then Reject(MissingField)
    else if !PasswordRules.ValidatePasswordRequirements(newPassword) then Reject(WeakPassword)
    else if newPassword != confirmPassword then Reject(PasswordMismatch)
    else if currentPassword == newPassword then Reject(SameAsCurrent)
    else Send(currentPassword, newPassword)
  }
}
