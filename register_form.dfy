/** The submit handler of the registration page: a chain of checks that
    stops at the first failure, and sends the request only when all pass. */
module RegisterForm {

  import opened Text
  import PasswordRules
  import Server

  const MinUsernameLength := 3

  /** The failures in the order the handler checks them. */
  datatype Failure =
    | MissingField
    | ShortUsername
    | InvalidEmail
    | PasswordMismatch
    | PasswordTooShort
    | NoLowercase
    | NoUppercase
    | NoNumber

  /** The text `showAlert` displays for each failure. */
  function Message(f: Failure): string
  {
    match f
    case MissingField => "Please fill in all fields"
    case ShortUsername => "Username must be at least 3 characters"
    case InvalidEmail => "Please enter a valid email address"
    case PasswordMismatch => "Passwords do not match"
    case PasswordTooShort => "Password must be at least 8 characters"
    case NoLowercase => "Password must contain at least one lowercase letter"
    case NoUppercase => "Password must contain at least one uppercase letter"
    case NoNumber => "Password must contain at least one number"
  }

  /** Either an alert, or the JSON body sent to `POST /api/register`. */
  datatype Submission = Reject(failure: Failure) | Send(username: string, email: string, password: string)

  predicate HasLowercase(s: string) { exists k :: 0 <= k < |s| && 'a' <= s[k] <= 'z' }
  predicate HasUppercase(s: string) { exists k :: 0 <= k < |s| && 'A' <= s[k] <= 'Z' }
  predicate HasNumber(s: string) { exists k :: 0 <= k < |s| && '0' <= s[k] <= '9' }

  /** Username and email are trimmed, the two passwords are taken as typed. */
  function ValidateRegistration(usernameInput: string, emailInput: string, password: string, confirmPassword: string)
    : (r: Submission)
    ensures var u, e := Trim(usernameInput), Trim(emailInput);
            var filled := u != "" && e != "" && password != "" && confirmPassword != "";
            && (r == Reject(MissingField) <==> !filled)
            && (r == Reject(ShortUsername) <==> filled && CodeUnits(u) < MinUsernameLength)
            && (r == Reject(InvalidEmail) <==> filled && CodeUnits(u) >= MinUsernameLength && '@' !in e)
            && (r == Reject(PasswordMismatch) <==>
                  filled && CodeUnits(u) >= MinUsernameLength && '@' in e && password != confirmPassword)
            && (r == Reject(PasswordTooShort) <==>
                  filled && CodeUnits(u) >= MinUsernameLength && '@' in e && password == confirmPassword
                  && CodeUnits(password) < PasswordRules.MinLength)
            && (r == Reject(NoLowercase) <==>
                  filled && CodeUnits(u) >= MinUsernameLength && '@' in e && password == confirmPassword
                  && CodeUnits(password) >= PasswordRules.MinLength && !HasLowercase(password))
            && (r == Reject(NoUppercase) <==>
                  filled && CodeUnits(u) >= MinUsernameLength && '@' in e && password == confirmPassword
                  && CodeUnits(password) >= PasswordRules.MinLength && HasLowercase(password) && !HasUppercase(password))
            && (r == Reject(NoNumber) <==>
                  filled && CodeUnits(u) >= MinUsernameLength && '@' in e && password == confirmPassword
                  && CodeUnits(password) >= PasswordRules.MinLength && HasLowercase(password) && HasUppercase(password)
                  && !HasNumber(password))
            && (r.Send? ==> r == Send(u, e, password))
  {
    var username := Trim(usernameInput);
    var email := Trim(emailInput);
    if username == "" || email == "" || password == "" || confirmPassword == "" then Reject(MissingField)
    else if CodeUnits(username) < MinUsernameLength then Reject(ShortUsername)
    else if '@' !in email then Reject(InvalidEmail)
    else if password != confirmPassword then Reject(PasswordMismatch)
    else if CodeUnits(password) < PasswordRules.MinLength then Reject(PasswordTooShort)
    else if !HasCharIn(password, 'a', 'z') then Reject(NoLowercase)
    else if !HasCharIn(password, 'A', 'Z') then Reject(NoUppercase)
    else if !HasCharIn(password, '0', '9') then Reject(NoNumber)
    else Send(username, email, password)
  }

  /** The registration page's inline strength checks accept exactly the
      passwords the other two pages' `validatePasswordRequirements` accepts. */
  lemma SendsExactlyStrongPasswords(usernameInput: string, emailInput: string, password: string, confirmPassword: string)
    ensures ValidateRegistration(usernameInput, emailInput, password, confirmPassword).Send? <==>
              var u, e := Trim(usernameInput), Trim(emailInput);
              u != "" && e != "" && CodeUnits(u) >= MinUsernameLength && '@' in e
              && password == confirmPassword && PasswordRules.ValidatePasswordRequirements(password)
  {
  }

  /** "Please fill in all fields" is shown exactly when the username or the
      email is blank (empty or only whitespace) or a password field is empty. */
  lemma MissingFieldIffBlank(usernameInput: string, emailInput: string, password: string, confirmPassword: string)
    ensures ValidateRegistration(usernameInput, emailInput, password, confirmPassword) == Reject(MissingField) <==>
              AllWhitespace(usernameInput) || AllWhitespace(emailInput) || password == "" || confirmPassword == ""
  {
    TrimEmptyIff(usernameInput);
    TrimEmptyIff(emailInput);
  }

  /** Whatever the page sends passes the server's own field and length checks. */
  lemma SentRequestPassesServerChecks(usernameInput: string, emailInput: string, password: string, confirmPassword: string)
    ensures var r := ValidateRegistration(usernameInput, emailInput, password, confirmPassword);
            r.Send? ==> Server.RegisterInputError(r.username, r.email, r.password).None?
  {
  }
}
