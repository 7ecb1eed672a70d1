/** `validate_message`: the field-set check for state-changing messages.

    As written it looks up the `client` field (defaulting to the string
    `"func"`), not `func`, and only checks when that field is `dir` or `file`.
    Since clients declare themselves `js` or `py`, ordinary messages are never
    checked. Its second assertion tests a key of the required set against that
    same set, so it can never fail and extra keys are never rejected.
 */
module Validator {
  import opened PyValues

  /** The eleven keys a checked message must carry. */
  const RequiredKeys: set<string> :=
    {"client", "func", "cwd", "cwdBody", "cwdEncoded", "filename",
     "fileBody", "fileCwd", "fileOpen", "fileEncoding", "fileEncoded"}

  /** True when the check applies: the `client` field says `dir` or `file`. */
  predicate IsChecked(msg: Message)
  {
    GetOr(msg, "client", Str("func")) in {Str("dir"), Str("file")}
  }

  /** `validate_message(message)`. */
  function ValidateMessage(msg: Message): (r: Outcome)
    ensures r.Raised? ==> r.error == AssertionError(RequiredKeys - msg.Keys)
                          && r.error.missing != {}
    ensures r.Done? <==> !IsChecked(msg) || RequiredKeys <= msg.Keys
  {
    if IsChecked(msg) && !(RequiredKeys <= msg.Keys) then
      var k :| k in RequiredKeys && k !in msg.Keys;
      assert k in RequiredKeys - msg.Keys;
      Raised(AssertionError(RequiredKeys - msg.Keys))
    else
      Done
  }

  /** A message whose `client` is `js` or `py` (every registered client's
      messages) passes, whatever keys it has or lacks. */
  lemma RoleMessagesAreNeverChecked(msg: Message)
    requires GetOr(msg, "client", Null) in {Str("js"), Str("py")}
    ensures ValidateMessage(msg) == Done
  {
  }

  /** A message without a `client` field passes: the default `"func"` is
      neither `dir` nor `file`. */
  lemma MissingClientIsNeverChecked(msg: Message)
    requires "client" !in msg
    ensures ValidateMessage(msg) == Done
  {
  }

  /** Adding a key outside the required set never changes the verdict. */
  lemma ExtraKeysAreNeverRejected(msg: Message, k: string, v: Value)
    requires k !in RequiredKeys
    ensures ValidateMessage(msg[k := v]) == ValidateMessage(msg)
  {
    assert GetOr(msg[k := v], "client", Str("func")) == GetOr(msg, "client", Str("func"));
    assert RequiredKeys - msg[k := v].Keys == RequiredKeys - msg.Keys;
  }
}
