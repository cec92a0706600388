/** The input box under the transcript: typed text is sent with the button or Enter, file content on load. */
module InputArea {
  import opened Wrappers
  import opened Text

  /** The guard of a typed send: the trimmed text is non-empty and input is enabled. */
  function CanSend(text: string, disabled: bool): (r: bool)
    ensures r <==> !disabled && exists i :: 0 <= i < |text| && !IsWhitespace(text[i])
  {
    TrimEmptyIffBlank(text);
    Trim(text) != "" && !disabled
  }

  /** The send button is greyed out exactly when clicking it would forward nothing. */
  function SendButtonDisabled(text: string, disabled: bool): (r: bool)
    ensures r <==> !CanSend(text, disabled)
    ensures IsBlank(text) ==> r
  {
    TrimEmptyIffBlank(text);
    disabled || Trim(text) == ""
  }

  /** Enter submits; Shift+Enter (a line break) and every other key do not. */
  function IsSendKey(key: string, shiftKey: bool): (r: bool)
    ensures r ==> key == "Enter"
    ensures shiftKey ==> !r
    ensures key == "Enter" && !shiftKey ==> r
  {
    key == "Enter" && !shiftKey
  }

  /** What a completed file read forwards: the content when it is non-empty, whatever the input state. */
  function OnFileLoaded(content: string): (r: Option<string>)
    ensures r.Some? <==> content != ""
    ensures r.Some? ==> r.value == content
  {
    if content != "" then Some(content) else None
  }

  /** The text area's own state: the text typed so far. */
  class TextBox {
    var text: string

    constructor ()
      ensures text == ""
    {
      text := "";
    }

    /** The text area's change handler: the box holds what was typed. */
    method Change(value: string)
      modifies this
      ensures text == value
    {
      text := value;
    }

    /**
     * The send click: when the guard holds, the box content is forwarded untrimmed and
     * the box is emptied; otherwise nothing is forwarded and the box keeps its text.
     */
    method SendClick(disabled: bool) returns (sent: Option<string>)
      modifies this
      ensures sent.Some? <==> CanSend(old(text), disabled)
      ensures sent.Some? ==> sent.value == old(text) && text == ""
      ensures sent.None? ==> text == old(text)
    {
      if Trim(text) != "" && !disabled {
        sent := Some(text);
        text := "";
      } else {
        sent := None;
      }
    }

    /** A key press in the text area: a send key acts as the send click, any other key does nothing. */
    method KeyDown(key: string, shiftKey: bool, disabled: bool) returns (sent: Option<string>)
      modifies this
      ensures IsSendKey(key, shiftKey) ==> (sent.Some? <==> CanSend(old(text), disabled))
      ensures sent.Some? ==> sent.value == old(text) && text == ""
      ensures sent.None? ==> text == old(text)
      ensures !IsSendKey(key, shiftKey) ==> sent.None?
    {
      if key == "Enter" && !shiftKey {
        sent := SendClick(disabled);
      } else {
        sent := None;
      }
    }
  }
}
