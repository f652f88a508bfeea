/**
 * The chat panel: the prompt input with its submit guard, and the rendering of
 * the message list.
 */
module Chat {
  import opened Wrappers
  import opened Strings
  import opened Types

  /**
   * The send button is disabled while a request is loading or while the input
   * trims to nothing; the same two conditions make a submit a no-op.
   */
  function SendDisabled(isLoading: bool, input: string): (r: bool)
    ensures r <==> isLoading || AllSpace(input)
  {
    TrimEmptyIffAllSpace(input);
    isLoading || Trim(input) == ""
  }

  /** The panel's one piece of state: the text in the prompt input. */
  class ChatPanel {
    var input: string

    constructor ()
      ensures input == ""
    {
      input := "";
    }

    /** The input's `onChange`: the text typed so far replaces the state. */
    method Change(text: string)
      modifies this
      ensures input == text
    {
      input := text;
    }

    /**
     * Submitting the form: trim the input; if it is blank or a request is loading,
     * do nothing; otherwise hand the trimmed text to `onSendMessage` (returned
     * here as `sent`) exactly once and clear the input.
     */
    method HandleSubmit(isLoading: bool) returns (sent: Option<string>)
      modifies this
      ensures sent.None? <==> SendDisabled(isLoading, old(input))
      ensures sent.None? ==> input == old(input)
      ensures sent.Some? ==> sent.value == Trim(old(input)) && input == ""
      ensures sent.Some? ==> sent.value != "" && Trimmed(sent.value)
    {
      var trimmed := Trim(input);
      if trimmed == "" || isLoading {
        return None;
      }
      TrimIsCentralSlice(input);
      sent := Some(trimmed);
      input := "";
    }
  }

  // ---- the message list ---------------------------------------------------

  /** Which side of the list a message sits on. */
  datatype Alignment = JustifyStart | JustifyEnd

  /** The three bubble styles. */
  datatype Bubble = UserBubble | AssistantBubble | SystemBubble

  datatype MessageRow = MessageRow(
    key: string,
    content: string,
    alignment: Alignment,
    bubble: Bubble,
    botAvatar: bool,   // the bot icon, left of the bubble
    userAvatar: bool)  // the user icon, right of the bubble

  datatype ChatView = ChatView(
    emptyHint: bool,
    rows: seq<MessageRow>,
    loadingRow: bool,
    inputDisabled: bool,
    sendDisabled: bool)

  /** One message: user messages on the right with the user icon, the rest on the left with the bot icon. */
  function RenderMessage(m: ChatMessage): (row: MessageRow)
    ensures row.key == m.id && row.content == m.content
    ensures row.alignment == JustifyEnd <==> m.role == User
    ensures row.userAvatar <==> m.role == User
    ensures row.botAvatar <==> m.role != User
    ensures row.bubble == UserBubble <==> m.role == User
    ensures row.bubble == SystemBubble <==> m.role == System
  {
    var user := m.role == User;
    MessageRow(
      m.id,
      m.content,
      if user then JustifyEnd else JustifyStart,
      if user then UserBubble else if m.role == System then SystemBubble else AssistantBubble,
      !user,
      user)
  }

  /**
   * The panel as rendered: the empty-state hint iff there are no messages, one row
   * per message in list order, and the loading row iff a request is loading.
   */
  function Render(messages: seq<ChatMessage>, isLoading: bool, input: string): (v: ChatView)
    ensures v.emptyHint <==> messages == []
    ensures |v.rows| == |messages|
    ensures forall i :: 0 <= i < |messages| ==> v.rows[i] == RenderMessage(messages[i])
    ensures v.loadingRow <==> isLoading
    ensures v.inputDisabled <==> isLoading
    ensures v.sendDisabled <==> isLoading || AllSpace(input)
  {
    ChatView(
      |messages| == 0,
      seq(|messages|, i requires 0 <= i < |messages| => RenderMessage(messages[i])),
      isLoading,
      isLoading,
      SendDisabled(isLoading, input))
  }
}
