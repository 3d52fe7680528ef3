/** `components/ApiKeyModal.tsx`: the key-entry modal of the dashboard app.
    Its two state hooks are the fields of `ApiKeyModalState`; submitting
    either rejects a blank key or hands the key, as typed, to the `onSave`
    callback, which is modelled as the method's result. */
module ApiKeyModal {
  import opened Common
  import opened Text

  const KEY_MISSING: string := "Please enter a valid API key"
  const KEY_SUSPICIOUS: string := "That doesn't look like a valid Gemini API key (starts with AIza)"
  const KEY_PREFIX: string := "AIza"

  /** The outcome of a submit: the error shown afterwards and the key given
      to `onSave`, if it is called. A key without the usual prefix is saved
      anyway, with a warning. */
  function Submit(inputKey: string, error: string): (r: (string, Option<string>))
    ensures IsBlank(inputKey) ==> r == (KEY_MISSING, None)
    ensures !IsBlank(inputKey) ==> r.1 == Some(inputKey)
    ensures !IsBlank(inputKey) && !StartsWith(inputKey, KEY_PREFIX) ==> r.0 == KEY_SUSPICIOUS
    ensures !IsBlank(inputKey) && StartsWith(inputKey, KEY_PREFIX) ==> r.0 == error
  {
    if IsBlank(inputKey) then (KEY_MISSING, None)
    else if !StartsWith(inputKey, KEY_PREFIX) then (KEY_SUSPICIOUS, Some(inputKey))
    else (error, Some(inputKey))
  }

  /** The callback runs exactly when the key is not white space alone, and
      never with an empty key. */
  lemma SavedIffNotBlank(inputKey: string, error: string)
    ensures Submit(inputKey, error).1.Some? <==> !AllWhitespace(inputKey)
    ensures Submit(inputKey, error).1.Some? ==> Submit(inputKey, error).1.value != ""
  {
    BlankIffAllWhitespace(inputKey);
  }

  /** The saved key is not trimmed, and a warning does not stop it:
      `" AIzaX"` is saved with its space and with the warning shown. */
  lemma PaddedKeyIsSavedWithWarning()
    ensures Submit(" AIzaX", "") == (KEY_SUSPICIOUS, Some(" AIzaX"))
  {
    var k := " AIzaX";
    WhitespaceIsNoLetter(k[1]);
    BlankIffAllWhitespace(k);
    assert k[..|KEY_PREFIX|][0] != KEY_PREFIX[0];
  }

  class ApiKeyModalState {
    var inputKey: string
    var error: string

    constructor ()
      ensures inputKey == "" && error == ""
    {
      inputKey, error := "", "";
    }

    /** The input's `onChange`: the new text, and the error cleared. */
    method Edit(text: string)
      modifies this
      ensures inputKey == text && error == ""
    {
      inputKey := text;
      error := "";
    }

    /** `handleSubmit`: the blank check returns early with its message; a
        key without the `AIza` prefix sets a warning and is then saved like
        any other key. The input is left as it is. */
    method HandleSubmit() returns (saved: Option<string>)
      modifies this
      ensures (error, saved) == Submit(old(inputKey), old(error))
      ensures inputKey == old(inputKey)
    {
      if IsBlank(inputKey) {
        error := KEY_MISSING;
        return None;
      }
      if !StartsWith(inputKey, KEY_PREFIX) {
        error := KEY_SUSPICIOUS;
      }
      saved := Some(inputKey);
    }
  }
}
