/** `showAlert`'s whitelist of alert types, shared by the register,
    change-password and reset-password pages. */
module Alerts {

  const ValidTypes: seq<string> := ["error", "success", "warning", "info"]

  /** The CSS class suffix used for an alert of the requested type. */
  function SafeType(requested: string): (r: string)
    ensures r in ValidTypes
    ensures requested in ValidTypes <==> r == requested
    ensures requested !in ValidTypes ==> r == "info"
  {
    if requested in ValidTypes then requested else "info"
  }
}
