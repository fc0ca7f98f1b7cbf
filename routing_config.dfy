/**
 * The externalised routing-rule configuration: the rule and file
 * validators, the consistency check over a loaded configuration, and the
 * clarification templates offered when two domains compete for a request.
 */
module RoutingConfiguration {
  import opened Common
  import opened Json
  import opened Agents

  /** `RoutingRuleConfig` */
  datatype RuleConfig = RuleConfig(
    ruleId: string,
    name: string,
    priority: int,
    domain: Option<Domain>,
    keywords: seq<string>,
    targetAgent: Option<string>,
    capability: Option<string>,
    enabled: bool)

  /** `RoutingConfig` */
  datatype RoutingConfig = RoutingConfig(
    version: string,
    rules: seq<RuleConfig>,
    defaultDomain: Option<Domain>,
    metadata: Object)

  const DEFAULT_PRIORITY: int := 100
  const DEFAULT_VERSION: string := "1.0.0"

  /**
   * `RoutingRuleConfig(...)`: rule_id and name must not be blank and the
   * priority must not be negative (0 is allowed); the field validators report
   * together and every value is stored as given.
   */
  function NewRuleConfig(ruleId: string, name: string, priority: int, domain: Option<Domain>,
                         keywords: seq<string>, targetAgent: Option<string>, capability: Option<string>,
                         enabled: bool): (r: Result<RuleConfig, seq<string>>)
    ensures r.Ok? <==> !IsBlank(ruleId) && !IsBlank(name) && priority >= 0
    ensures r.Ok? ==> r.value == RuleConfig(ruleId, name, priority, domain, keywords, targetAgent, capability, enabled)
    ensures r.Err? ==> 1 <= |r.error| <= 3
  {
    var errors :=
      (if IsBlank(ruleId) then ["rule_id must not be empty"] else []) +
      (if IsBlank(name) then ["name must not be empty"] else []) +
      (if priority < 0 then ["priority must be >= 0"] else []);
    if errors == [] then Ok(RuleConfig(ruleId, name, priority, domain, keywords, targetAgent, capability, enabled))
    else Err(errors)
  }

  /** `RoutingConfig(...)`: only a blank version is refused. */
  function NewRoutingConfig(version: string, rules: seq<RuleConfig>, defaultDomain: Option<Domain>,
                            metadata: Object): (r: Result<RoutingConfig, seq<string>>)
    ensures r.Ok? <==> !IsBlank(version)
    ensures r.Ok? ==> r.value == RoutingConfig(version, rules, defaultDomain, metadata)
  {
    if IsBlank(version) then Err(["version must not be empty"])
    else Ok(RoutingConfig(version, rules, defaultDomain, metadata))
  }

  /** The defaults of a rule: priority 100, no criteria, enabled. */
  lemma RuleDefaults(ruleId: string, name: string)
    ensures NewRuleConfig(ruleId, name, DEFAULT_PRIORITY, None, [], None, None, true).Ok?
      <==> !IsBlank(ruleId) && !IsBlank(name)
    ensures NewRoutingConfig(DEFAULT_VERSION, [], None, map[]).Ok?
  {
    assert !IsSpace(DEFAULT_VERSION[0]);
  }

  // ------------------------------------------------------------------
  // validate_routing_config
  // ------------------------------------------------------------------

  /** One finding of `validate_routing_config`; `FindingText` gives its message. */
  datatype Finding =
    | DuplicateRuleId(ruleId: string)
    | NoCriteria(ruleId: string)
    | AllRulesDisabled

  function FindingText(f: Finding): string {
    match f
    case DuplicateRuleId(id) => "Duplicate rule_id: '" + id + "'"
    case NoCriteria(id) => "Rule '" + id + "' has no matching criteria (no domain, keywords, capability, or target_agent)"
    case AllRulesDisabled => "All routing rules are disabled"
  }

  /** A string field is truthy when it is present and not empty. */
  predicate Given(s: Option<string>) {
    s.Some? && s.value != []
  }

  /** `rule.domain or rule.keywords or rule.capability or rule.target_agent` */
  predicate HasCriterion(r: RuleConfig) {
    r.domain.Some? || r.keywords != [] || Given(r.capability) || Given(r.targetAgent)
  }

  function RuleIds(rules: seq<RuleConfig>): (r: seq<string>)
    ensures |r| == |rules| && forall i :: 0 <= i < |rules| ==> r[i] == rules[i].ruleId
  {
    seq(|rules|, i requires 0 <= i < |rules| => rules[i].ruleId)
  }

  /** The first loop: one finding per rule whose id was already seen. */
  function DuplicateFindings(rules: seq<RuleConfig>): (r: seq<Finding>)
    ensures forall f :: f in r <==> f.DuplicateRuleId? && Repeats(RuleIds(rules), f.ruleId)
  {
    var d := Repeated(RuleIds(rules));
    RepeatedIff(RuleIds(rules));
    var r := seq(|d|, i requires 0 <= i < |d| => DuplicateRuleId(d[i]));
    forall f: Finding | f.DuplicateRuleId? && Repeats(RuleIds(rules), f.ruleId) ensures f in r {
      var i :| 0 <= i < |d| && d[i] == f.ruleId;
      assert r[i] == f;
    }
    r
  }

  /** The second loop: one finding per rule without a criterion, in order. */
  function CriteriaFindings(rules: seq<RuleConfig>): (r: seq<Finding>)
    ensures forall f :: f in r <==> f.NoCriteria? && exists i :: 0 <= i < |rules| && rules[i].ruleId == f.ruleId && !HasCriterion(rules[i])
    decreases |rules|
  {
    if rules == [] then []
    else
      var rest := CriteriaFindings(rules[1..]);
      assert forall i :: 1 <= i < |rules| ==> rules[i] == rules[1..][i - 1];
      (if HasCriterion(rules[0]) then [] else [NoCriteria(rules[0].ruleId)]) + rest
  }

  /** `sum(1 for r in rules if r.enabled)` */
  function EnabledCount(rules: seq<RuleConfig>): (n: nat)
    ensures n <= |rules|
    ensures n == 0 <==> forall i :: 0 <= i < |rules| ==> !rules[i].enabled
    decreases |rules|
  {
    if rules == [] then 0
    else
      assert forall i :: 1 <= i < |rules| ==> rules[i] == rules[1..][i - 1];
      (if rules[0].enabled then 1 else 0) + EnabledCount(rules[1..])
  }

  /** `validate_routing_config(config)` */
  function ValidateRoutingConfig(config: RoutingConfig): (r: seq<Finding>)
    ensures AllRulesDisabled in r <==> config.rules != [] && forall i :: 0 <= i < |config.rules| ==> !config.rules[i].enabled
  {
    var rules := config.rules;
    DuplicateFindings(rules) + CriteriaFindings(rules) +
      (if rules != [] && EnabledCount(rules) == 0 then [AllRulesDisabled] else [])
  }

  /** No duplicate finding exactly when rule ids are distinct. */
  lemma DuplicateFindingsEmpty(rules: seq<RuleConfig>)
    ensures DuplicateFindings(rules) == [] <==>
      forall i, j :: 0 <= j < i < |rules| ==> rules[i].ruleId != rules[j].ruleId
  {
    RepeatedIff(RuleIds(rules));
    var d := DuplicateFindings(rules);
    if d != [] { assert d[0] in d; }
    if exists i, j :: 0 <= j < i < |rules| && rules[i].ruleId == rules[j].ruleId {
      var i, j :| 0 <= j < i < |rules| && rules[i].ruleId == rules[j].ruleId;
      assert RuleIds(rules)[i] == RuleIds(rules)[j];
      assert Repeats(RuleIds(rules), rules[i].ruleId);
      assert DuplicateRuleId(rules[i].ruleId) in d;
    }
  }

  /** No criteria finding exactly when every rule has a criterion. */
  lemma CriteriaFindingsEmpty(rules: seq<RuleConfig>)
    ensures CriteriaFindings(rules) == [] <==> forall i :: 0 <= i < |rules| ==> HasCriterion(rules[i])
  {
    var c := CriteriaFindings(rules);
    if c != [] { assert c[0] in c; }
    if exists i :: 0 <= i < |rules| && !HasCriterion(rules[i]) {
      var i :| 0 <= i < |rules| && !HasCriterion(rules[i]);
      assert NoCriteria(rules[i].ruleId) in c;
    }
  }

  /**
   * A configuration passes exactly when rule ids are distinct, every rule
   * has a criterion, and, if there are rules at all, one of them is enabled.
   */
  lemma ValidateRoutingConfigIff(config: RoutingConfig)
    ensures ValidateRoutingConfig(config) == [] <==>
      (forall i, j :: 0 <= j < i < |config.rules| ==> config.rules[i].ruleId != config.rules[j].ruleId) &&
      (forall i :: 0 <= i < |config.rules| ==> HasCriterion(config.rules[i])) &&
      (config.rules == [] || exists i :: 0 <= i < |config.rules| && config.rules[i].enabled)
  {
    DuplicateFindingsEmpty(config.rules);
    CriteriaFindingsEmpty(config.rules);
  }

  /** An empty configuration yields no findings. */
  lemma EmptyConfigValid(version: string, defaultDomain: Option<Domain>, metadata: Object)
    ensures ValidateRoutingConfig(RoutingConfig(version, [], defaultDomain, metadata)) == []
  {
    ValidateRoutingConfigIff(RoutingConfig(version, [], defaultDomain, metadata));
  }

  // ------------------------------------------------------------------
  // Clarification templates
  // ------------------------------------------------------------------

  /** A clarifying question and the answers offered with it. */
  datatype Clarification = Clarification(question: string, options: seq<string>)

  /**
   * `CLARIFICATION_TEMPLATES`: keyed by the pair of competing domains (the
   * frozenset of their values); the None key is the fallback for any other pair.
   */
  const CLARIFICATION_TEMPLATES: map<Option<set<Domain>>, Clarification> := map[
    Some({Cmdb, Csa}) := Clarification(
      "Are you looking to query the CMDB, or create a service request?",
      ["Search/manage CMDB CIs", "Create a service request"]),
    Some({Cmdb, Asset}) := Clarification(
      "Are you asking about CMDB configuration items, or hardware/software assets?",
      ["Configuration items (CMDB)", "Hardware/software assets"]),
    Some({Cmdb, Discovery}) := Clarification(
      "Would you like to query CMDB records, or check discovery scan status?",
      ["Query CMDB records", "Check discovery status"]),
    Some({Cmdb, Audit}) := Clarification(
      "Are you looking for CMDB data quality details (duplicates, stale CIs, health metrics), or a governance compliance audit report?",
      ["CMDB health metrics / data quality (CMDB agent)", "Compliance audit report (Auditor)"]),
    Some({Csa, Audit}) := Clarification(
      "Are you creating a service request, or running an audit/compliance check?",
      ["Create service request", "Run audit or compliance check"]),
    Some({Csa, Documentation}) := Clarification(
      "Are you creating a service request, or looking for documentation/runbooks?",
      ["Create service request", "Find documentation or runbook"]),
    Some({Audit, Documentation}) := Clarification(
      "Are you running a compliance audit, or generating documentation?",
      ["Run compliance audit", "Generate documentation"]),
    None := Clarification(
      "I can help with several ITOM domains. Which area are you asking about?",
      ["CMDB / Configuration Items", "Discovery", "Assets", "Service Requests", "Audit / Compliance"])
  ]

  /** A template offers a question and at least two answers. */
  predicate WellFormed(c: Clarification) {
    c.question != [] && |c.options| >= 2
  }

  /** The fallback template exists. */
  lemma ClarificationFallback()
    ensures None in CLARIFICATION_TEMPLATES && WellFormed(CLARIFICATION_TEMPLATES[None])
  {
  }

  /** Every template asks a question and offers at least two options. */
  lemma ClarificationTemplatesWellFormed()
    ensures forall k :: k in CLARIFICATION_TEMPLATES ==> WellFormed(CLARIFICATION_TEMPLATES[k])
  {
  }

  /** Every key but the fallback is a pair of two different domains. */
  lemma ClarificationKeysArePairs()
    ensures forall k :: k in CLARIFICATION_TEMPLATES && k.Some? ==> |k.value| == 2
  {
  }
}
