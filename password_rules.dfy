/** `validatePasswordRequirements` of the change-password and reset-password
    pages (the two copies are identical): four requirement flags, each
    computed on its own, and their conjunction. */
module PasswordRules {

  import opened Text

  const MinLength := 8

  /** The four flags the page shows next to the new-password field. */
  datatype Requirements = Requirements(hasLength: bool, hasLowercase: bool, hasUppercase: bool, hasNumber: bool)

  /** Each flag depends on its own requirement and on nothing else. */
  function CheckRequirements(password: string): (r: Requirements)
    ensures r.hasLength <==> CodeUnits(password) >= MinLength
    ensures r.hasLowercase <==> exists k :: 0 <= k < |password| && 'a' <= password[k] <= 'z'
    ensures r.hasUppercase <==> exists k :: 0 <= k < |password| && 'A' <= password[k] <= 'Z'
    ensures r.hasNumber <==> exists k :: 0 <= k < |password| && '0' <= password[k] <= '9'
  {
    Requirements(
      CodeUnits(password) >= MinLength,
      HasCharIn(password, 'a', 'z'),
      HasCharIn(password, 'A', 'Z'),
      HasCharIn(password, '0', '9'))
  }

  /** True exactly for a password of at least 8 characters holding an ASCII
      lowercase letter, an ASCII uppercase letter and an ASCII digit. */
  function ValidatePasswordRequirements(password: string): (ok: bool)
    ensures ok <==>
              CodeUnits(password) >= MinLength
              && (exists k :: 0 <= k < |password| && 'a' <= password[k] <= 'z')
              && (exists k :: 0 <= k < |password| && 'A' <= password[k] <= 'Z')
              && (exists k :: 0 <= k < |password| && '0' <= password[k] <= '9')
  {
    var r := CheckRequirements(password);
    r.hasLength && r.hasLowercase && r.hasUppercase && r.hasNumber
  }
}
