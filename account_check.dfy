/** What the two account-settings hooks share: the mock back end's rule for which account ids
    exist, and the notices the hooks raise. */
module AccountCheck {
  import opened Wrappers
  import opened JsString

  /** A notice shown to the user: a title, a description, and whether it reports an error. */
  datatype Toast = Toast(title: string, description: string, destructive: bool)

  /** The notice raised when the id to check is blank. */
  const MissingIdToast: Toast := Toast("Error", "Please enter an Account ID", true)

  /** `parseInt(id.slice(-1))`: the value of the id's last character when that is a decimal
      digit, and `None` (JavaScript's NaN) otherwise, in particular for the empty id. */
  function LastDigit(id: string): (d: Option<nat>)
    ensures d.Some? <==> id != [] && IsDigit(id[|id| - 1])
    ensures d.Some? ==> d.value < 10 && d.value == id[|id| - 1] as int - '0' as int
  {
    if id != [] && IsDigit(id[|id| - 1]) then Some(id[|id| - 1] as int - '0' as int) else None
  }

  /** The mock back end's existence rule: the last character is a digit, and an even one. */
  predicate AccountExists(id: string)
    ensures AccountExists(id) ==> id != [] && IsDigit(id[|id| - 1])
  {
    match LastDigit(id)
    case Some(d) => d % 2 == 0
    case None => false
  }

  /** The rule in terms of characters: an account exists exactly when its id ends in one of
      0, 2, 4, 6 or 8. */
  lemma AccountExistsIffEvenLastChar(id: string)
    ensures AccountExists(id) <==> id != [] && id[|id| - 1] in "02468"
  {
    if id != [] {
      var c := id[|id| - 1];
      assert c in "02468" <==> c == '0' || c == '2' || c == '4' || c == '6' || c == '8';
    }
  }

  /** Only the last character matters. */
  lemma AccountExistsLastCharOnly(prefix: string, c: char)
    ensures AccountExists(prefix + [c]) == AccountExists([c])
  {
    assert (prefix + [c])[|prefix + [c]| - 1] == c;
  }

  /** The check is made on the id as typed while the guard in front of it trims the id: an id
      that is not all white space, followed by a white-space character, passes the guard (its
      trimmed form is not empty) but is never found. */
  lemma TrailingSpaceNeverFound(id: string, c: char)
    requires !AllSpace(id) && IsSpace(c)
    ensures Trim(id + [c]) != ""
    ensures !AccountExists(id + [c])
  {
    var i :| 0 <= i < |id| && !IsSpace(id[i]);
    assert (id + [c])[i] == id[i];
    assert (id + [c])[|id + [c]| - 1] == c;
  }

  /** JavaScript's rendering of a boolean in a template string. */
  function BoolText(b: bool): (s: string)
    ensures s == "true" || s == "false"
    ensures b <==> s == "true"
  {
    if b then "true" else "false"
  }

  /** The word the notices use for a new setting value. */
  function EnabledText(b: bool): (s: string)
    ensures b <==> s == "enabled"
  {
    if b then "enabled" else "disabled"
  }
}
