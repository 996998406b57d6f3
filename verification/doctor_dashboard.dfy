/** The doctor's messaging panel: the conversation list, the selected conversation, sending a
    message into it, and the message box that guards against blank input. */
module DoctorDashboard {
  import opened Common
  import opened JsText

  /** One conversation with a patient. */
  datatype Conversation = Conversation(
    id: int,
    name: string,
    lastMessage: string,
    unread: nat,
    online: bool,
    messages: seq<ChatMessage>)

  /** `selectedConversationId`: `null` until a conversation is clicked, then that conversation's id. */
  type Selection = Option<int>

  /** JavaScript truthiness of the selection: `null` and the id `0` are both falsy. */
  predicate IsTruthy(sel: Selection)
  {
    sel.Some? && sel.value != 0
  }

  /** `c.id === selectedConversationId`; a number never equals `null`. */
  predicate IsSelected(c: Conversation, sel: Selection)
  {
    sel == Some(c.id)
  }

  /** The message `sendMessage` appends for the doctor. */
  function DoctorMessage(text: string): ChatMessage
  {
    ChatMessage("doctor", text, "Now")
  }

  /** Index of the first selected conversation at or after `from` (`Array.prototype.find`). */
  function FindFrom(convs: seq<Conversation>, sel: Selection, from: nat): (r: Option<nat>)
    requires from <= |convs|
    ensures r.Some? ==> from <= r.value < |convs| && IsSelected(convs[r.value], sel)
                        && forall j :: from <= j < r.value ==> !IsSelected(convs[j], sel)
    ensures r.None? ==> forall j :: from <= j < |convs| ==> !IsSelected(convs[j], sel)
    decreases |convs| - from
  {
    if from == |convs| then None
    else if IsSelected(convs[from], sel) then Some(from)
    else FindFrom(convs, sel, from + 1)
  }

  /** `selectedConversation`: the first conversation whose id is the selection, if any. */
  function SelectedConversation(convs: seq<Conversation>, sel: Selection): (r: Option<Conversation>)
    ensures r.None? <==> forall j :: 0 <= j < |convs| ==> !IsSelected(convs[j], sel)
    ensures r.Some? ==> (exists i :: && 0 <= i < |convs| && convs[i] == r.value && IsSelected(r.value, sel)
                                     && forall j :: 0 <= j < i ==> !IsSelected(convs[j], sel))
  {
    match FindFrom(convs, sel, 0)
    case None => None
    case Some(i) => Some(convs[i])
  }

  /** The selected conversation after the doctor sends `text` into it. */
  function Deliver(c: Conversation, text: string): Conversation
  {
    c.(messages := c.messages + [DoctorMessage(text)], lastMessage := text, unread := 0)
  }

  /** `sendMessage(text)`: a no-op without a (truthy) selection; otherwise every conversation
      with the selected id gets the message, and all others stay as they were. */
  function SendMessage(convs: seq<Conversation>, sel: Selection, text: string): (r: seq<Conversation>)
    ensures !IsTruthy(sel) ==> r == convs
    ensures |r| == |convs|
    ensures forall i :: 0 <= i < |convs| && !IsSelected(convs[i], sel) ==> r[i] == convs[i]
    ensures forall i :: 0 <= i < |convs| && IsTruthy(sel) && IsSelected(convs[i], sel) ==>
              && r[i].id == convs[i].id && r[i].name == convs[i].name && r[i].online == convs[i].online
              && r[i].messages == convs[i].messages + [ChatMessage("doctor", text, "Now")]
              && r[i].lastMessage == text && r[i].unread == 0
  {
    if !IsTruthy(sel) then convs
    else seq(|convs|, i requires 0 <= i < |convs| =>
           if IsSelected(convs[i], sel) then Deliver(convs[i], text) else convs[i])
  }

  /** Sending keeps the ids in place, so the same conversation stays selected. */
  lemma SendKeepsIds(convs: seq<Conversation>, sel: Selection, text: string)
    ensures forall i :: 0 <= i < |convs| ==> SendMessage(convs, sel, text)[i].id == convs[i].id
  {
  }

  /** After a send to an existing conversation, the selected conversation shows the message
      last, as its last message, with nothing unread; earlier messages are untouched. */
  lemma SendThenSelected(convs: seq<Conversation>, sel: Selection, text: string)
    requires IsTruthy(sel)
    requires SelectedConversation(convs, sel).Some?
    ensures var before := SelectedConversation(convs, sel).value;
            var after := SelectedConversation(SendMessage(convs, sel, text), sel);
            && after.Some?
            && after.value.messages == before.messages + [DoctorMessage(text)]
            && after.value.lastMessage == text
            && after.value.unread == 0
            && after.value.id == before.id && after.value.name == before.name
  {
    var r := SendMessage(convs, sel, text);
    var i :| 0 <= i < |convs| && convs[i] == SelectedConversation(convs, sel).value
             && IsSelected(convs[i], sel) && forall j :: 0 <= j < i ==> !IsSelected(convs[j], sel);
    assert IsSelected(r[i], sel);
    var k :| 0 <= k < |r| && r[k] == SelectedConversation(r, sel).value
             && IsSelected(r[k], sel) && forall j :: 0 <= j < k ==> !IsSelected(r[j], sel);
    assert forall j :: 0 <= j < |r| ==> (IsSelected(r[j], sel) <==> IsSelected(convs[j], sel));
    assert k == i;
  }

  /** Sending to an id no conversation carries changes nothing. */
  lemma SendToMissingIsNoOp(convs: seq<Conversation>, sel: Selection, text: string)
    requires SelectedConversation(convs, sel).None?
    ensures SendMessage(convs, sel, text) == convs
  {
  }

  /** The message box after a click on send: its new text, and what it handed to `onSend`. */
  datatype InputStep = InputStep(text: string, sent: Option<string>)

  /** `MessageInput.handleSend`: forwards the untrimmed text and clears the box only when the
      trimmed text is non-empty. */
  function HandleSend(text: string): (r: InputStep)
    ensures r.sent.Some? <==> !IsBlank(text)
    ensures r.sent.Some? ==> r.sent.value == text && r.text == ""
    ensures r.sent.None? ==> r.text == text
  {
    TrimEmptyIffBlank(text);
    if Trim(text) != "" then InputStep("", Some(text)) else InputStep(text, None)
  }

  /** The messaging panel's state: the conversations, the selection and the message box. */
  datatype Panel = Panel(convs: seq<Conversation>, sel: Selection, input: string)

  /** A click on send: the message box decides, then `sendMessage` runs on what it forwarded. */
  function ClickSend(p: Panel): (r: Panel)
    ensures IsBlank(p.input) ==> r == p
    ensures !IsBlank(p.input) ==> r.input == "" && r.sel == p.sel
                                  && r.convs == SendMessage(p.convs, p.sel, p.input)
  {
    var step := HandleSend(p.input);
    match step.sent
    case None => p.(input := step.text)
    case Some(text) => Panel(SendMessage(p.convs, p.sel, text), p.sel, step.text)
  }

  /** The conversations the dashboard starts with. */
  function InitialConversations(): seq<Conversation>
  {
    [ Conversation(1, "John Doe", "Doctor, I'm feeling better today.", 2, true,
        [ ChatMessage("patient", "Doctor, I'm feeling better today.", "10:00 AM"),
          ChatMessage("doctor", "That's great to hear! Keep resting.", "10:05 AM") ]),
      Conversation(2, "Jane Roe", "Should I adjust my dosage?", 1, false,
        [ ChatMessage("patient", "Should I adjust my dosage?", "9:45 AM") ]) ]
  }

  /** With the initial data and no selection, the chat window is empty and sending does nothing;
      once conversation 2 is selected, a send reaches only it. */
  lemma InitialPanelScenario()
    ensures SelectedConversation(InitialConversations(), None).None?
    ensures SendMessage(InitialConversations(), None, "Hello") == InitialConversations()
    ensures var r := SendMessage(InitialConversations(), Some(2), "Hello");
            r[0] == InitialConversations()[0] && r[1].lastMessage == "Hello" && r[1].unread == 0
            && |r[1].messages| == 2
  {
  }
}
