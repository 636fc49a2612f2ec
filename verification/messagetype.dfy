/** The kind of a message. */
module MessageTypes {
  import opened Strings

  type MessageType = string

  const Message: MessageType := "message"
  const StateUpdate: MessageType := "stateUpdate"
  const Delta: MessageType := "delta"
  const ToolResponse: MessageType := "toolResponse"
  const AnthropicToolUse: MessageType := "tool_use"

  function String(mtype: MessageType): string {
    mtype
  }

  /** Case-insensitive comparison of the kind's text with a string. */
  predicate Equals(mtype: MessageType, compare: string) {
    EqualFold(String(mtype), compare)
  }

  /** Exact comparison of two kinds. */
  predicate EqualsRole(mtype: MessageType, compare: MessageType) {
    mtype == compare
  }

  /** Every kind equals its own text; exact equality implies the case-insensitive
      one, and not the other way round. */
  lemma EqualsAndEqualsRole(mtype: MessageType, other: MessageType)
    ensures Equals(mtype, String(mtype))
    ensures EqualsRole(mtype, other) ==> Equals(mtype, other)
    ensures Equals(StateUpdate, "stateupdate") && !EqualsRole(StateUpdate, "stateupdate")
  {
    assert Lower("stateupdate") == "stateupdate";
    assert Lower(StateUpdate) == "stateupdate";
  }

  /** The kind the `Set` switch computes: only "state-update" gives a state
      update, everything else a plain message. */
  function SetMapping(value: string): (r: MessageType)
    ensures r == StateUpdate <==> Lower(value) == "state-update"
    ensures r != StateUpdate ==> r == Message
  {
    var v := Lower(value);
    if v == "message" then Message
    else if v == "state-update" then StateUpdate
    else Message
  }

  /** `Set` has a value receiver; the result pairs the caller's kind afterwards
      with the value the method's copy received. */
  function Set(mtype: MessageType, value: string): (r: (MessageType, MessageType))
    ensures r.1 == SetMapping(value)
    ensures r.0 == mtype
  {
    (mtype, SetMapping(value))
  }

  /** The caller's kind never changes, and the spelling "stateUpdate" of the
      constant itself is not recognised by the switch. */
  lemma SetIsNoOp(mtype: MessageType, value: string)
    ensures Set(mtype, value).0 == mtype
    ensures Set(Message, "State-Update") == (Message, StateUpdate)
    ensures Set(Delta, StateUpdate).1 == Message
  {
    assert Lower("State-Update") == "state-update";
    assert Lower(StateUpdate) == "stateupdate";
  }
}
