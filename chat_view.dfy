/** frontend/src/components/ConversationView.tsx: the draft and scroll state of
    the chat pane, the send guard, Enter-to-send, the manual-reply hand-off and
    the rules that decide what the pane shows. */
module ChatView {
  import opened Text
  import opened Choices
  import opened Chat

  /** The view counts as scrolled to the bottom within 10 pixels. */
  predicate AtBottom(scrollHeight: int, scrollTop: int, clientHeight: int) {
    Abs(scrollHeight - scrollTop - clientHeight) < 10
  }

  /** The jump-to-bottom button: scrolled away from the bottom of a long thread. */
  predicate ShowScrollButton(atBottom: bool, messageCount: nat) {
    !atBottom && messageCount > 5
  }

  /** The guard of handleSend: a non-blank draft and an OPEN conversation. */
  predicate CanSend(draft: string, conv: Option<Conversation>) {
    !Blank(draft) && conv.Some? && conv.value.state == Open
  }

  /** The input area is shown for an OPEN conversation; a CLOSED one shows a notice. */
  predicate ShowInput(conv: Conversation) {
    conv.state != Closed
  }

  /** The send button is disabled while the draft is blank. */
  predicate SendDisabled(draft: string) {
    Blank(draft)
  }

  /** The simulate-reply panel: an OPEN conversation whose last message was SENT,
      with a simulate callback. */
  predicate ShowSimulatePanel(conv: Option<Conversation>, hasCallback: bool) {
    && conv.Some? && conv.value.state == Open
    && |MessagesOf(conv.value)| > 0 && hasCallback
    && MessagesOf(conv.value)[|MessagesOf(conv.value)| - 1].direction == Sent
  }

  /** The guard lets a message through exactly when the input is on screen and
      the send button is enabled: the disabled button hides no reachable send. */
  lemma SendGuardMatchesButton(draft: string, conv: Conversation)
    ensures CanSend(draft, Some(conv)) <==> ShowInput(conv) && !SendDisabled(draft)
  {
  }

  /** A blank draft (all white space) is never sent. */
  lemma WhiteSpaceNeverSent(draft: string, conv: Option<Conversation>)
    requires AllSpace(draft)
    ensures !CanSend(draft, conv)
  {
    TrimEmptyIffAllSpace(draft);
  }

  /** The panel offers a reply only after an outgoing message: once the customer
      has answered (last message RECEIVED), it is hidden. */
  lemma PanelFollowsLastDirection(c: Conversation, m: Message)
    requires c.state == Open && c.messages.Some?
    ensures ShowSimulatePanel(Some(c.(messages := Some(c.messages.value + [m]))), true) <==> m.direction == Sent
  {
  }

  /** The chat pane's own state. */
  class View {
    var draft: string
    var scrolledUp: bool
    var showScrollButton: bool

    constructor ()
      ensures draft == "" && !scrolledUp && !showScrollButton
    {
      draft, scrolledUp, showScrollButton := "", false, false;
    }

    /** The textarea's onChange. */
    method Type(text: string)
      modifies this
      ensures draft == text
      ensures scrolledUp == old(scrolledUp) && showScrollButton == old(showScrollButton)
    {
      draft := text;
    }

    /** handleSend: forwards the untrimmed draft to onSendMessage, then clears it
        and returns to following the bottom; otherwise nothing happens. */
    method HandleSend(conv: Option<Conversation>) returns (sent: Option<string>)
      modifies this
      ensures CanSend(old(draft), conv) ==> sent == Some(old(draft)) && draft == "" && !scrolledUp
      ensures !CanSend(old(draft), conv) ==> sent == None && draft == old(draft) && scrolledUp == old(scrolledUp)
      ensures showScrollButton == old(showScrollButton)
    {
      if !Blank(draft) && conv.Some? && conv.value.state == Open {
        sent := Some(draft);
        draft := "";
        scrolledUp := false;
      } else {
        sent := None;
      }
    }

    /** handleKeyDown: Enter without Shift sends (and suppresses the newline);
        Shift+Enter and every other key are left to the textarea. */
    method HandleKeyDown(key: string, shift: bool, conv: Option<Conversation>)
      returns (prevented: bool, sent: Option<string>)
      modifies this
      ensures prevented <==> key == "Enter" && !shift
      ensures !prevented ==> sent == None && draft == old(draft) && scrolledUp == old(scrolledUp)
      ensures prevented ==> (sent.Some? <==> CanSend(old(draft), conv))
      ensures sent.Some? ==> sent.value == old(draft) && draft == ""
      ensures showScrollButton == old(showScrollButton)
    {
      prevented, sent := false, None;
      if key == "Enter" && !shift {
        prevented := true;
        sent := HandleSend(conv);
      }
    }

    /** The scroll listener. */
    method HandleScroll(scrollTop: int, scrollHeight: int, clientHeight: int, conv: Option<Conversation>)
      modifies this
      ensures scrolledUp == !AtBottom(scrollHeight, scrollTop, clientHeight)
      ensures showScrollButton ==
        ShowScrollButton(AtBottom(scrollHeight, scrollTop, clientHeight),
                         if conv.Some? then |MessagesOf(conv.value)| else 0)
      ensures draft == old(draft)
    {
      var isAtBottom := Abs(scrollHeight - scrollTop - clientHeight) < 10;
      scrolledUp := !isAtBottom;
      var count := if conv.Some? then |MessagesOf(conv.value)| else 0;
      showScrollButton := !isAtBottom && count > 5;
    }
  }

  /** handleManualResponse: with a conversation, a simulate callback and
      non-blank text, leaves the text in the shared slot and invokes the
      callback; otherwise does nothing. */
  method HandleManualResponse(conv: Option<Conversation>, hasCallback: bool, text: string, win: Window)
    returns (invoked: bool)
    modifies win
    ensures invoked <==> conv.Some? && hasCallback && !Blank(text)
    ensures invoked ==> win.tempSimulatedMessage == Some(text)
    ensures !invoked ==> win.tempSimulatedMessage == old(win.tempSimulatedMessage)
  {
    if conv.None? || !hasCallback || Blank(text) {
      return false;
    }
    win.tempSimulatedMessage := Some(text);
    invoked := true;
  }
}
