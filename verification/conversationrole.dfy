/** The role of a message's sender in a conversation. */
module ConversationRoles {
  import opened Strings

  /** A Go string type: any string is a role, the constants are the named ones. */
  type ConversationRole = string

  const Unknown: ConversationRole := "unknown"
  const User: ConversationRole := "user"
  const System: ConversationRole := "system"
  const Assistant: ConversationRole := "assistant"
  /** Another name for the assistant role. */
  const AIgent: ConversationRole := "assistant"

  function String(role: ConversationRole): string {
    role
  }

  /** Case-insensitive comparison of the role's text with a string. */
  predicate Equals(role: ConversationRole, compare: string) {
    EqualFold(String(role), compare)
  }

  /** Exact comparison of two roles. */
  predicate EqualsRole(role: ConversationRole, compare: ConversationRole) {
    role == compare
  }

  /** Every role equals its own text; exact equality implies the case-insensitive
      one, and not the other way round. */
  lemma EqualsAndEqualsRole(role: ConversationRole, other: ConversationRole)
    ensures Equals(role, String(role))
    ensures EqualsRole(role, other) ==> Equals(role, other)
    ensures Equals(Assistant, "Assistant") && !EqualsRole(Assistant, "Assistant")
  {
    assert Lower("Assistant") == "assistant";
    assert Lower(Assistant) == "assistant";
  }

  /** The role the `Set` switch computes from a string; note that "system"
      is mapped to the assistant role. */
  function SetMapping(value: string): (r: ConversationRole)
    ensures r in {User, Assistant, Unknown}
  {
    var v := Lower(value);
    if v == "user" then User
    else if v == "aigent" then AIgent
    else if v == "system" then Assistant
    else if v == "assistant" then Assistant
    else Unknown
  }

  /** `Set` has a value receiver: the switch assigns to the method's own copy.
      The result pairs the caller's role afterwards with that copy's value. */
  function Set(role: ConversationRole, value: string): (r: (ConversationRole, ConversationRole))
    ensures r.1 == SetMapping(value)
    ensures r.0 == role
  {
    (role, SetMapping(value))
  }

  /** Setting never changes the caller's role, even where the copy changes;
      and "system" is not mapped to the system role. */
  lemma SetIsNoOp(role: ConversationRole, value: string)
    ensures Set(role, value).0 == role
    ensures Set(User, "System") == (User, Assistant)
    ensures Set(System, "system").1 != System
  {
    assert Lower("System") == "system";
    assert Lower("system") == "system";
    assert Lower("System") != "user";
  }
}
