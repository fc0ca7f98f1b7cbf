/**
 * Agent registration records: the seven domains, the four runtime statuses,
 * capabilities, and the field validators that gate every registration.
 */
module Agents {
  import opened Common
  import opened Json

  /** Operational domain of an agent; `DomainValue` gives the enum's string value. */
  datatype Domain = Cmdb | Discovery | Asset | Csa | Audit | Documentation | Orchestration

  const ALL_DOMAINS: seq<Domain> := [Cmdb, Discovery, Asset, Csa, Audit, Documentation, Orchestration]

  function DomainValue(d: Domain): string {
    match d
    case Cmdb => "cmdb"
    case Discovery => "discovery"
    case Asset => "asset"
    case Csa => "csa"
    case Audit => "audit"
    case Documentation => "documentation"
    case Orchestration => "orchestration"
  }

  /** Runtime status of an agent. */
  datatype AgentStatus = Online | Offline | Degraded | Maintenance

  const ALL_STATUSES: seq<AgentStatus> := [Online, Offline, Degraded, Maintenance]

  /** There are exactly seven domains and four statuses, each listed once, with distinct string values. */
  lemma EnumerationsComplete()
    ensures |ALL_DOMAINS| == 7 && forall d: Domain :: d in ALL_DOMAINS
    ensures forall i, j :: 0 <= i < j < |ALL_DOMAINS| ==> DomainValue(ALL_DOMAINS[i]) != DomainValue(ALL_DOMAINS[j])
    ensures |ALL_STATUSES| == 4 && forall s: AgentStatus :: s in ALL_STATUSES
    ensures forall i, j :: 0 <= i < j < |ALL_STATUSES| ==> ALL_STATUSES[i] != ALL_STATUSES[j]
  {
    forall d: Domain ensures d in ALL_DOMAINS {
      match d
      case Cmdb => assert ALL_DOMAINS[0] == d;
      case Discovery => assert ALL_DOMAINS[1] == d;
      case Asset => assert ALL_DOMAINS[2] == d;
      case Csa => assert ALL_DOMAINS[3] == d;
      case Audit => assert ALL_DOMAINS[4] == d;
      case Documentation => assert ALL_DOMAINS[5] == d;
      case Orchestration => assert ALL_DOMAINS[6] == d;
    }
    forall s: AgentStatus ensures s in ALL_STATUSES {
      match s
      case Online => assert ALL_STATUSES[0] == s;
      case Offline => assert ALL_STATUSES[1] == s;
      case Degraded => assert ALL_STATUSES[2] == s;
      case Maintenance => assert ALL_STATUSES[3] == s;
    }
  }

  /** A capability an agent offers; the optional JSON schemas are not modelled. */
  datatype Capability = Capability(name: string, domain: Domain, description: string)

  /** Constructing an `AgentCapability`: name and description are stripped and must not be empty. */
  function NewCapability(name: string, domain: Domain, description: string): (r: Result<Capability, seq<string>>)
    ensures r.Ok? <==> !IsBlank(name) && !IsBlank(description)
    ensures r.Ok? ==> (r.value.domain == domain
      && r.value.name == Strip(name) && r.value.name != []
      && r.value.description == Strip(description) && r.value.description != [])
    ensures r.Err? ==> |r.error| == (if IsBlank(name) then 1 else 0) + (if IsBlank(description) then 1 else 0)
  {
    var n := StripNonBlank(name);
    var d := StripNonBlank(description);
    if n.Some? && d.Some? then
      Ok(Capability(n.value, domain, d.value))
    else
      Err((if IsBlank(name) then ["Capability name must not be empty"] else []) +
          (if IsBlank(description) then ["Capability description must not be empty"] else []))
  }

  /** `[a-z]` */
  predicate IsLowerLetter(c: char) { 'a' <= c <= 'z' }

  /** `[a-z0-9-]` */
  predicate IsIdChar(c: char) { 'a' <= c <= 'z' || '0' <= c <= '9' || c == '-' }

  /**
   * The agent_id grammar `^[a-z][a-z0-9-]*$`, read as Python's `re.match` reads
   * it: one trailing newline is admitted by `$`.
   */
  predicate AgentIdGrammar(v: string) {
    DollarMatch(v, IsLowerLetter, IsIdChar)
  }

  /** The pattern text the invalid-id message quotes. */
  const AGENT_ID_PATTERN: string := "^[a-z][a-z0-9-]*$"

  /** The registration record of one agent. */
  datatype Agent = Agent(
    agentId: string,
    name: string,
    description: string,
    domain: Domain,
    capabilities: seq<Capability>,
    mcpServerUrl: Option<string>,
    status: AgentStatus,
    registeredAt: int,
    lastHealthCheck: Option<int>,
    metadata: Object)

  /** `status` defaults to OFFLINE. */
  const DEFAULT_AGENT_STATUS: AgentStatus := Offline

  /** The agent_id validator: the message it raises, or None when the id is accepted. */
  function AgentIdError(v: string): (r: Option<string>)
    ensures r.None? <==> AgentIdGrammar(v)
  {
    ScanMatchCorrect(v, IsLowerLetter, IsIdChar);
    if v == [] then Some("agent_id must not be empty")
    else if !ScanMatch(v, IsLowerLetter, IsIdChar) then
      Some("agent_id '" + v + "' is invalid. Must be lowercase alphanumeric with "
           + "hyphens, starting with a letter (pattern: " + AGENT_ID_PATTERN + ")")
    else None
  }

  /**
   * Constructing an `AgentRegistration`: agent_id must follow the grammar and
   * is kept as given; name and description are stripped and must not be empty.
   */
  function NewAgent(agentId: string, name: string, description: string, domain: Domain,
                    capabilities: seq<Capability>, mcpServerUrl: Option<string>, status: AgentStatus,
                    registeredAt: int, lastHealthCheck: Option<int>, metadata: Object)
    : (r: Result<Agent, seq<string>>)
    ensures r.Ok? <==> AgentIdGrammar(agentId) && !IsBlank(name) && !IsBlank(description)
    ensures r.Ok? ==> (r.value.agentId == agentId
      && r.value.name == Strip(name) && r.value.name != []
      && r.value.description == Strip(description) && r.value.description != []
      && r.value.domain == domain && r.value.capabilities == capabilities
      && r.value.mcpServerUrl == mcpServerUrl && r.value.status == status
      && r.value.metadata == metadata)
    ensures r.Ok? ==> r.value == Agent(agentId, Strip(name), Strip(description), domain, capabilities,
                                       mcpServerUrl, status, registeredAt, lastHealthCheck, metadata)
  {
    var idError := AgentIdError(agentId);
    var n := StripNonBlank(name);
    var d := StripNonBlank(description);
    if idError.None? && n.Some? && d.Some? then
      Ok(Agent(agentId, n.value, d.value, domain, capabilities, mcpServerUrl,
               status, registeredAt, lastHealthCheck, metadata))
    else
      Err((if idError.Some? then [idError.value] else []) +
          (if IsBlank(name) then ["Agent name must not be empty"] else []) +
          (if IsBlank(description) then ["Agent description must not be empty"] else []))
  }

  /** Which ids the grammar admits: "cmdb-agent" and, through `$`, "cmdb-agent\n"; not "Cmdb", "1abc", "a_b" or "". */
  lemma AgentIdGrammarExamples()
    ensures AgentIdGrammar("cmdb-agent") && AgentIdGrammar("a") && AgentIdGrammar("cmdb-agent\n")
    ensures !AgentIdGrammar("Cmdb") && !AgentIdGrammar("1abc") && !AgentIdGrammar("a_b") && !AgentIdGrammar("")
    ensures !AgentIdGrammar("a\n\n")
  {
    assert !IsLowerLetter('C');
    assert !IsIdChar('_') && "a_b"[1] == '_';
    var s := "a\n\n";
    assert !IsIdChar('\n') && s[1] == '\n';
    assert s[..|s| - 1][1] == '\n';
  }
}
