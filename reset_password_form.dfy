/** The submit handler of the reset-password page. */
module ResetPasswordForm {

  import opened Text
  import PasswordRules

  const CodeLength := 6

  /** The failures in the order the handler checks them. */
  datatype Failure = MissingField | InvalidCode | WeakPassword | PasswordMismatch

  function Message(f: Failure): string
  {
    match f
    case MissingField => "Please fill in all fields"
    case InvalidCode => "Please enter a valid 6-digit code"
    case WeakPassword => "Password does not meet requirements"
    case PasswordMismatch => "Passwords do not match"
  }

  /** Either an alert, or the JSON body sent to `POST /api/reset-password`. */
  datatype Submission = Reject(failure: Failure) | Send(email: string, code: string, newPassword: string)

  function AllDigits(s: string): (b: bool)
    ensures b <==> forall k :: 0 <= k < |s| ==> '0' <= s[k] <= '9'
  {
    if s == [] then true
    else if !('0' <= s[0] <= '9') then false
    else
      var rest := AllDigits(s[1..]);
      assert forall k :: 1 <= k < |s| ==> s[k] == s[1..][k - 1];
      rest
  }

  /** `code.length !== 6 || !/^\d{6}$/.test(code)` rejects the code. The
      length counts UTF-16 code units, but digits take one each, so a code is
      accepted exactly when it is six ASCII digits. */
  function IsSixDigitCode(code: string): (ok: bool)
    ensures ok <==> CodeUnits(code) == CodeLength && forall k :: 0 <= k < |code| ==> '0' <= code[k] <= '9'
    ensures ok <==> |code| == CodeLength && forall k :: 0 <= k < |code| ==> '0' <= code[k] <= '9'
  {
    CodeUnits(code) == CodeLength && AllDigits(code)
  }

  /** Email and code are trimmed, the two passwords are taken as typed.
      Checks run fields, code, strength, match; the first failure wins. */
  function ValidateReset(emailInput: string, codeInput: string, newPassword: string, confirmPassword: string)
    : (r: Submission)
    ensures var e, c := Trim(emailInput), Trim(codeInput);
            var filled := e != "" && c != "" && newPassword != "" && confirmPassword != "";
            var strong := PasswordRules.ValidatePasswordRequirements(newPassword);
            && (r == Reject(MissingField) <==> !filled)
            && (r == Reject(InvalidCode) <==> filled && !IsSixDigitCode(c))
            && (r == Reject(WeakPassword) <==> filled && IsSixDigitCode(c) && !strong)
            && (r == Reject(PasswordMismatch) <==>
                  filled && IsSixDigitCode(c) && strong && newPassword != confirmPassword)
            && (r.Send? <==> filled && IsSixDigitCode(c) && strong && newPassword == confirmPassword)
            && (r.Send? ==> r == Send(e, c, newPassword))
  {
    var email := Trim(emailInput);
    var code := Trim(codeInput);
    if email == "" || code == "" || newPassword == "" || confirmPassword == "" then Reject(MissingField)
    else if !IsSixDigitCode(code) then Reject(InvalidCode)
    else if !PasswordRules.ValidatePasswordRequirements(newPassword) then Reject(WeakPassword)
    else if newPassword != confirmPassword then Reject(PasswordMismatch)
    else Send(email, code, newPassword)
  }

  /** "Please fill in all fields" is shown exactly when the email or the code
      is blank (empty or only whitespace) or a password field is empty. */
  lemma MissingFieldIffBlank(emailInput: string, codeInput: string, newPassword: string, confirmPassword: string)
    ensures ValidateReset(emailInput, codeInput, newPassword, confirmPassword) == Reject(MissingField) <==>
              AllWhitespace(emailInput) || AllWhitespace(codeInput) || newPassword == "" || confirmPassword == ""
  {
    TrimEmptyIff(emailInput);
    TrimEmptyIff(codeInput);
  }

  /** A request carries a six-digit code and a password meeting every requirement. */
  lemma SentRequestIsWellFormed(emailInput: string, codeInput: string, newPassword: string, confirmPassword: string)
    ensures var r := ValidateReset(emailInput, codeInput, newPassword, confirmPassword);
            r.Send? ==> IsSixDigitCode(r.code) && PasswordRules.ValidatePasswordRequirements(r.newPassword)
                        && r.email != "" && r.email == Trim(r.email)
  {
    var r := ValidateReset(emailInput, codeInput, newPassword, confirmPassword);
    if r.Send? {
      TrimIdempotent(emailInput);
    }
  }
}
