/** Agents: an AI model configured with system messages, files and tools,
    and the field rules an agent must satisfy. */
module Agents {
  import opened Wrappers
  import opened Strings
  import Adapters

  const AgentIdPrefix: string := "agent"
  const AgentIdLength: nat := 16

  /** The length is counted in UTF-8 bytes, as Go's `len` counts it. */
  predicate IsAgentID(id: string) {
    Utf8Length(id) == AgentIdLength + |AgentIdPrefix| + 1 && HasPrefix(id, AgentIdPrefix)
  }

  /** Agent ids are 22 bytes starting "agent"; for ASCII ids, 22 characters. */
  lemma AgentIdShape(id: string)
    ensures IsAgentID(id) <==> Utf8Length(id) == 22 && |id| >= 5 && id[..5] == "agent"
    ensures IsAscii(id) ==> (IsAgentID(id) <==> |id| == 22 && id[..5] == "agent")
    ensures IsAgentID(id) ==> 6 <= |id| <= 22
  {
    Utf8LengthBounds(id);
  }

  /** Where a model is hosted ("usa", "europe", ...). */
  type HostingLocation = string

  datatype Agent = Agent(
    id: string,
    name: string,
    description: string,
    modelId: string,
    avatarUrl: string,
    systemMessages: Slice<string>,
    initialUserMessages: Slice<string>,
    attachedFileIds: Slice<string>,
    assignedTools: Slice<string>,
    modelHostLocation: HostingLocation,
    isPublic: bool,
    metaData: map<string, Adapters.Value>,
    ownerId: string,
    ownerOrganizationId: string,
    createdAt: int,
    updatedBy: string,
    updatedAt: int)

  /** `NewAgent`: the generated id and the clock reading are parameters; every
      other field keeps its zero value except the (empty, non-nil) metadata. */
  function NewAgent(id: string, now: int): (a: Agent)
    ensures a.id == id && a.createdAt == now && a.updatedAt == now && a.metaData == map[]
    ensures a.name == "" && a.modelId == "" && a.ownerId == "" && a.ownerOrganizationId == ""
    ensures a.systemMessages.Nil? && a.initialUserMessages.Nil? && a.attachedFileIds.Nil? && a.assignedTools.Nil?
    ensures !a.isPublic
  {
    Agent(id, "", "", "", "", Nil, Nil, Nil, Nil, "", false, map[], "", "", now, "", now)
  }

  const InvalidAgent: string := "invalid agent data"

  /** A required string of bounded length (`required,min=1,max=n`). */
  predicate RequiredWithin(s: string, n: nat) {
    1 <= |s| <= n
  }

  /** An optional string (`omitempty,...`): empty, or passing the rule. */
  predicate EmptyOr(s: string, rule: bool) {
    s == "" || rule
  }

  predicate Distinct(xs: seq<string>) {
    forall i, j :: 0 <= i < j < |xs| ==> xs[i] != xs[j]
  }

  /** A list with distinct entries each of length `1..n` (`unique,dive,min=1,max=n`);
      a nil list passes. */
  predicate UniqueWithin(xs: Slice<string>, n: nat) {
    Distinct(xs.Elements()) && forall i :: 0 <= i < |xs.Elements()| ==> RequiredWithin(xs.Elements()[i], n)
  }

  /** The agent's field rules; lengths count characters. `isUrl` is the
      validator's URL syntax check. */
  predicate AgentRules(a: Agent, isUrl: string -> bool) {
    RequiredWithin(a.id, 64) &&
    RequiredWithin(a.name, 255) &&
    EmptyOr(a.description, |a.description| <= 1024) &&
    RequiredWithin(a.modelId, 64) &&
    EmptyOr(a.avatarUrl, isUrl(a.avatarUrl)) &&
    UniqueWithin(a.systemMessages, 1024) &&
    UniqueWithin(a.initialUserMessages, 1024) &&
    UniqueWithin(a.attachedFileIds, 64) &&
    UniqueWithin(a.assignedTools, 64) &&
    RequiredWithin(a.ownerId, 64) &&
    RequiredWithin(a.ownerOrganizationId, 64) &&
    EmptyOr(a.updatedBy, RequiredWithin(a.updatedBy, 64))
  }

  /** `ValidateAgent`: nil when every rule holds, otherwise the one generic error. */
  function ValidateAgent(a: Agent, isUrl: string -> bool): (r: Option<string>)
    ensures r.None? <==> AgentRules(a, isUrl)
    ensures r.Some? ==> r.value == InvalidAgent
  {
    if AgentRules(a, isUrl) then None else Some(InvalidAgent)
  }

  /** A fresh agent is not yet valid: it has no name, model or owner. */
  lemma NewAgentIsInvalid(id: string, now: int, isUrl: string -> bool)
    ensures ValidateAgent(NewAgent(id, now), isUrl) == Some(InvalidAgent)
  {
  }

  /** Validity depends on no field outside the rules: visibility, host
      location, metadata and timestamps can change freely. */
  lemma ValidationIgnoresUntaggedFields(a: Agent, isUrl: string -> bool,
                                        isPublic: bool, loc: HostingLocation,
                                        meta: map<string, Adapters.Value>, createdAt: int, updatedAt: int)
    ensures ValidateAgent(a.(isPublic := isPublic, modelHostLocation := loc, metaData := meta,
                             createdAt := createdAt, updatedAt := updatedAt), isUrl) == ValidateAgent(a, isUrl)
  {
  }

  /** A repeated system message makes the agent invalid. */
  lemma RepeatedSystemMessageIsInvalid(a: Agent, isUrl: string -> bool, i: nat, j: nat)
    requires i < j < |a.systemMessages.Elements()|
    requires a.systemMessages.Elements()[i] == a.systemMessages.Elements()[j]
    ensures ValidateAgent(a, isUrl).Some?
  {
  }

  /** The system messages, one per line. */
  function GetSystemMessagesAsString(a: Agent): (r: string)
    ensures a.systemMessages.Elements() == [] ==> r == ""
    ensures |a.systemMessages.Elements()| == 1 ==> r == a.systemMessages.Elements()[0]
  {
    Join(a.systemMessages.Elements(), "\n")
  }

  /** When no system message holds a line break, splitting the text at line
      breaks gives the messages back. */
  lemma SystemMessagesRoundTrip(a: Agent)
    requires |a.systemMessages.Elements()| >= 1
    requires forall k :: 0 <= k < |a.systemMessages.Elements()| ==> '\n' !in a.systemMessages.Elements()[k]
    ensures Split(GetSystemMessagesAsString(a), '\n') == a.systemMessages.Elements()
  {
    assert "\n" == ['\n'];
    SplitJoin(a.systemMessages.Elements(), '\n');
  }
}
