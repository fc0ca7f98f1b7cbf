/**
 * Workflow templates: reusable blueprints, kept in a registry, that are
 * instantiated into concrete workflow definitions with caller parameters.
 */
module Templates {
  import opened Common
  import opened Json
  import opened Agents
  import opened Workflows

  datatype Template = Template(
    templateId: string,
    name: string,
    description: string,
    domain: Domain,
    steps: seq<Step>,
    tags: seq<string>,
    metadata: Object)

  /** Constructing a `WorkflowTemplate`: template_id and name must not be blank (stored unstripped). */
  function NewTemplate(templateId: string, name: string, description: string, domain: Domain,
                       steps: seq<Step>, tags: seq<string>, metadata: Object)
    : (r: Result<Template, seq<string>>)
    ensures r.Ok? <==> !IsBlank(templateId) && !IsBlank(name)
    ensures r.Ok? ==> r.value == Template(templateId, name, description, domain, steps, tags, metadata)
    ensures r.Err? ==> |r.error| == (if IsBlank(templateId) then 1 else 0) + (if IsBlank(name) then 1 else 0)
  {
    var errors :=
      (if IsBlank(templateId) then ["template_id must not be empty"] else []) +
      (if IsBlank(name) then ["name must not be empty"] else []);
    if errors == [] then Ok(Template(templateId, name, description, domain, steps, tags, metadata))
    else Err(errors)
  }

  /** The version a definition gets when none is given. */
  const DEFAULT_DEFINITION_VERSION: string := "1.0.0"

  /** `{**step.parameters, **params}` applied to every step, in order. */
  function WithParameters(steps: seq<Step>, params: Object): (r: seq<Step>)
    ensures |r| == |steps|
    ensures forall i :: 0 <= i < |steps| ==> r[i] == steps[i].(parameters := Merge(steps[i].parameters, params))
  {
    seq(|steps|, i requires 0 <= i < |steps| => steps[i].(parameters := Merge(steps[i].parameters, params)))
  }

  /** Substituting parameters leaves ids and dependencies, hence every structural check, as they were. */
  lemma WithParametersKeepsStructure(steps: seq<Step>, params: Object)
    ensures StepIds(WithParameters(steps, params)) == StepIds(steps)
    ensures UniqueStepIds(WithParameters(steps, params)) == UniqueStepIds(steps)
    ensures DependenciesKnown(WithParameters(steps, params)) == DependenciesKnown(steps)
    ensures NoSelfDependency(WithParameters(steps, params)) == NoSelfDependency(steps)
  {
    var r := WithParameters(steps, params);
    assert StepIds(r) == StepIds(steps);
    assert forall i :: 0 <= i < |steps| ==> r[i].dependsOn == steps[i].dependsOn;
  }

  /** The metadata an instantiated definition records. */
  function InstanceMetadata(t: Template, params: Object): Object {
    map["template_id" := Str(t.templateId), "parameters" := Dict(params),
        "domain" := Str(DomainValue(t.domain)), "tags" := List(seq(|t.tags|, i requires 0 <= i < |t.tags| => Str(t.tags[i])))]
  }

  /** The metadata records the template id, the parameters given and the template's domain. */
  lemma InstanceMetadataRecords(t: Template, params: Object)
    ensures var m := InstanceMetadata(t, params);
      && m.Keys == {"template_id", "parameters", "domain", "tags"}
      && m["template_id"] == Str(t.templateId)
      && m["parameters"] == Dict(params)
      && m["domain"] == Str(DomainValue(t.domain))
  {
    assert |"template_id"| == 11 && |"parameters"| == 10 && |"domain"| == 6 && |"tags"| == 4;
  }

  /**
   * Building the definition for `instantiate`: the workflow id is the
   * template id, a dash and the first eight hex digits of a fresh uuid
   * (`suffix`). The definition's own validation still applies, so a
   * template with no steps or broken references fails here.
   */
  function Instance(t: Template, parameters: Option<Object>, suffix: string, createdAt: int)
    : (r: Result<Definition, seq<string>>)
    ensures r.Ok? <==> (|t.steps| > 0 && UniqueStepIds(t.steps) && DependenciesKnown(t.steps)
      && NoSelfDependency(t.steps))
  {
    var params := if parameters.Some? then parameters.value else map[];
    WithParametersKeepsStructure(t.steps, params);
    var workflowId := t.templateId + "-" + suffix;
    BlankIffAllSpace(workflowId);
    assert workflowId[|t.templateId|] == '-';
    NewDefinition(workflowId, t.name, t.description, DEFAULT_DEFINITION_VERSION,
                  WithParameters(t.steps, params), createdAt, InstanceMetadata(t, params))
  }

  /** A successful instance is the definition built from the template and the merged parameters. */
  lemma InstanceValue(t: Template, parameters: Option<Object>, suffix: string, createdAt: int)
    requires Instance(t, parameters, suffix, createdAt).Ok?
    ensures var params := if parameters.Some? then parameters.value else map[];
      Instance(t, parameters, suffix, createdAt).value ==
        Definition(t.templateId + "-" + suffix, t.name, t.description, DEFAULT_DEFINITION_VERSION,
                   WithParameters(t.steps, params), createdAt, InstanceMetadata(t, params))
  {
  }

  /**
   * A successful instance is named after its template, keeps the template's
   * name and description, takes the default version and records where it
   * came from.
   */
  lemma InstanceShape(t: Template, parameters: Option<Object>, suffix: string, createdAt: int)
    requires Instance(t, parameters, suffix, createdAt).Ok?
    ensures var d := Instance(t, parameters, suffix, createdAt).value;
      var params := if parameters.Some? then parameters.value else map[];
      && d.workflowId == t.templateId + "-" + suffix
      && StartsWith(d.workflowId, t.templateId + "-")
      && d.name == t.name && d.description == t.description && d.version == "1.0.0"
      && d.metadata == InstanceMetadata(t, params)
  {
    InstanceValue(t, parameters, suffix, createdAt);
    var id := t.templateId + "-" + suffix;
    assert id[..|t.templateId + "-"|] == t.templateId + "-";
  }

  /**
   * A successful instance has the template's steps in the template's order,
   * each with the caller's parameters laid over its own.
   */
  lemma InstanceSteps(t: Template, parameters: Option<Object>, suffix: string, createdAt: int)
    requires Instance(t, parameters, suffix, createdAt).Ok?
    ensures var d := Instance(t, parameters, suffix, createdAt).value;
      var params := if parameters.Some? then parameters.value else map[];
      && |d.steps| == |t.steps| && StepIds(d.steps) == StepIds(t.steps)
      && (forall i :: 0 <= i < |d.steps| ==>
            d.steps[i].dependsOn == t.steps[i].dependsOn
            && (forall k :: k in params ==> d.steps[i].parameters[k] == params[k])
            && (forall k :: k in t.steps[i].parameters && k !in params ==>
                  d.steps[i].parameters[k] == t.steps[i].parameters[k]))
  {
    InstanceValue(t, parameters, suffix, createdAt);
    var params := if parameters.Some? then parameters.value else map[];
    var steps := WithParameters(t.steps, params);
    WithParametersKeepsStructure(t.steps, params);
    forall i | 0 <= i < |steps|
      ensures steps[i].dependsOn == t.steps[i].dependsOn
      ensures forall k :: k in params ==> steps[i].parameters[k] == params[k]
      ensures forall k :: k in t.steps[i].parameters && k !in params ==> steps[i].parameters[k] == t.steps[i].parameters[k]
    {
      assert steps[i] == t.steps[i].(parameters := Merge(t.steps[i].parameters, params));
    }
  }

  function TemplateIds(ts: seq<Template>): (r: seq<string>)
    ensures |r| == |ts| && forall i :: 0 <= i < |ts| ==> r[i] == ts[i].templateId
  {
    seq(|ts|, i requires 0 <= i < |ts| => ts[i].templateId)
  }

  /** The ids of the templates of `domain`, or of all templates when none is given. */
  function OfDomain(m: map<string, Template>, domain: Option<Domain>): (r: set<string>)
    ensures forall id :: id in r <==> id in m && (domain.None? || m[id].domain == domain.value)
  {
    set id | id in m && (domain.None? || m[id].domain == domain.value)
  }

  /** Looking up the ascending ids of one domain lists exactly that domain's templates, ascending by id. */
  lemma LookupSorted(m: map<string, Template>, domain: Option<Domain>, ids: seq<string>)
    requires forall id :: id in m ==> m[id].templateId == id
    requires StrictlySorted(ids) && forall k :: k in ids <==> k in OfDomain(m, domain)
    ensures var r := ValuesAt(m, ids);
      StrictlySorted(TemplateIds(r))
      && (forall i :: 0 <= i < |r| ==> r[i].templateId in m && m[r[i].templateId] == r[i])
      && (forall i :: 0 <= i < |r| ==> (domain.Some? ==> r[i].domain == domain.value))
      && (forall id :: id in m && (domain.None? || m[id].domain == domain.value) ==> id in TemplateIds(r))
  {
    assert forall i :: 0 <= i < |ids| ==> ids[i] in ids;
    var r := ValuesAt(m, ids);
    assert TemplateIds(r) == ids;
  }

  class TemplateRegistry {
    /** `_templates`: template id to template. */
    var templates: map<string, Template>

    /** Every template is filed under its own id. */
    ghost predicate Valid()
      reads this
    {
      forall id :: id in templates ==> templates[id].templateId == id
    }

    constructor()
      ensures templates == map[] && Valid()
    {
      templates := map[];
    }

    /** `register(template)`: a duplicate id raises ValueError and changes nothing. */
    method Register(t: Template) returns (r: Result<(), string>)
      requires Valid()
      modifies this
      ensures Valid()
      ensures t.templateId in old(templates) ==>
        (r == Err("Template '" + t.templateId + "' is already registered") && templates == old(templates))
      ensures t.templateId !in old(templates) ==> (r.Ok? && templates == old(templates)[t.templateId := t])
    {
      if t.templateId in templates {
        return Err("Template '" + t.templateId + "' is already registered");
      }
      templates := templates[t.templateId := t];
      r := Ok(());
    }

    /** `get(template_id)`: KeyError for an unknown id. */
    function Get(templateId: string): (r: Result<Template, string>)
      reads this
      ensures r.Ok? <==> templateId in templates
      ensures r.Ok? ==> r.value == templates[templateId]
      ensures r.Err? ==> r.error == "Template '" + templateId + "' not found"
    {
      if templateId !in templates then Err("Template '" + templateId + "' not found")
      else Ok(templates[templateId])
    }

    /** `template_count` */
    function Count(): (r: nat)
      reads this
      ensures r == |templates.Keys|
    {
      |templates|
    }

    /**
     * `list_templates(domain)`: every registered template (of the given
     * domain, when one is given), ascending by template id.
     */
    method ListTemplates(domain: Option<Domain>) returns (r: seq<Template>)
      requires Valid()
      ensures StrictlySorted(TemplateIds(r))
      ensures forall i :: 0 <= i < |r| ==> r[i].templateId in templates && templates[r[i].templateId] == r[i]
      ensures forall i :: 0 <= i < |r| ==> (domain.Some? ==> r[i].domain == domain.value)
      ensures forall id :: id in templates && (domain.None? || templates[id].domain == domain.value) ==>
        id in TemplateIds(r)
    {
      var m := templates;
      var ids := SortedKeys(OfDomain(m, domain));
      assert forall i :: 0 <= i < |ids| ==> ids[i] in ids;
      r := ValuesAt(m, ids);
      LookupSorted(m, domain, ids);
    }

    /**
     * `instantiate(template_id, parameters)`: KeyError for an unknown id,
     * otherwise the template's instance. Templates are values, so the
     * instance shares nothing with the stored template.
     */
    function Instantiate(templateId: string, parameters: Option<Object>, suffix: string, createdAt: int)
      : (r: Result<Definition, seq<string>>)
      reads this
      ensures templateId !in templates ==> r == Err(["Template '" + templateId + "' not found"])
      ensures templateId in templates ==> r == Instance(templates[templateId], parameters, suffix, createdAt)
    {
      match Get(templateId)
      case Err(msg) => Err([msg])
      case Ok(t) => Instance(t, parameters, suffix, createdAt)
    }
  }

  // ------------------------------------------------------------------
  // The pre-built templates
  // ------------------------------------------------------------------

  /** A task step of a default template: every field but these is defaulted. */
  function TaskStepOf(stepId: string, name: string, domain: Domain, parameters: Object, dependsOn: seq<string>): Step {
    Step(stepId, name, TaskStep, Some(domain), None, parameters, dependsOn,
         DEFAULT_STEP_TIMEOUT, DEFAULT_ON_FAILURE, DEFAULT_STEP_MAX_RETRIES)
  }

  function Action(name: string): Object { map["action" := Str(name)] }

  function Report(kind: string): Object {
    map["action" := Str("generate_documentation"), "report_type" := Str(kind)]
  }

  /** The "cmdb-health-check" template. */
  const CMDB_HEALTH_CHECK: Template :=
    Template("cmdb-health-check", "CMDB Health Check Workflow",
      "CMDB CI health check with discovery scan verification and report generation.", Cmdb,
      [ TaskStepOf("scan-cis", "Scan Configuration Items", Cmdb, Action("cmdb_health_audit"), []),
        TaskStepOf("verify-discovery", "Verify Discovery Data", Discovery, Action("get_discovery_status"), ["scan-cis"]),
        TaskStepOf("generate-report", "Generate Health Report", Documentation, Report("health"), ["verify-discovery"]) ],
      ["cmdb", "health", "audit"], map[])

  /** The "incident-response" template. */
  const INCIDENT_RESPONSE: Template :=
    Template("incident-response", "Incident Response Workflow",
      "Detect incident, assess impact via CMDB, route to the appropriate agent, and create a remediation ticket.", Csa,
      [ TaskStepOf("assess-impact", "Assess Incident Impact", Cmdb, Action("map_relationships"), []),
        TaskStepOf("route-to-agent", "Route to Responsible Agent", Csa, Action("fulfill_requests"), ["assess-impact"]),
        TaskStepOf("create-ticket", "Create Remediation Ticket", Csa, Action("run_remediation"), ["route-to-agent"]) ],
      ["incident", "response", "remediation"], map[])

  /** The "discovery-audit" template. */
  const DISCOVERY_AUDIT: Template :=
    Template("discovery-audit", "Discovery Audit Workflow",
      "Run a discovery scan, audit the results for compliance, and generate an audit report.", Discovery,
      [ TaskStepOf("run-scan", "Run Discovery Scan", Discovery, Action("run_discovery_scan"), []),
        TaskStepOf("audit-results", "Audit Discovery Results", Audit, Action("run_compliance_audit"), ["run-scan"]),
        TaskStepOf("generate-report", "Generate Audit Report", Documentation, Report("audit"), ["audit-results"]) ],
      ["discovery", "audit", "compliance"], map[])

  /** The "asset-lifecycle" template. */
  const ASSET_LIFECYCLE: Template :=
    Template("asset-lifecycle", "Asset Lifecycle Workflow",
      "Scan IT assets, check compliance against policies, and generate lifecycle documentation.", Asset,
      [ TaskStepOf("scan-assets", "Scan IT Assets", Asset, Action("query_assets"), []),
        TaskStepOf("check-compliance", "Check Asset Compliance", Asset, Action("license_compliance_check"), ["scan-assets"]),
        TaskStepOf("generate-docs", "Generate Lifecycle Documentation", Documentation, Report("lifecycle"), ["check-compliance"]) ],
      ["asset", "lifecycle", "compliance"], map[])

  /** `_build_default_templates()` */
  function DefaultTemplates(): seq<Template> {
    [CMDB_HEALTH_CHECK, INCIDENT_RESPONSE, DISCOVERY_AUDIT, ASSET_LIFECYCLE]
  }

  /** Three steps, each depending on exactly the one before it. */
  predicate LinearChain(steps: seq<Step>) {
    |steps| == 3 && steps[0].dependsOn == []
    && forall i :: 1 <= i < |steps| ==> steps[i].dependsOn == [steps[i - 1].stepId]
  }

  /** A linear chain of three distinct ids passes every structural check of a definition. */
  lemma ChainIsValid(steps: seq<Step>)
    requires LinearChain(steps) && steps[0].stepId != steps[1].stepId
    requires steps[1].stepId != steps[2].stepId && steps[0].stepId != steps[2].stepId
    ensures UniqueStepIds(steps) && DependenciesKnown(steps) && NoSelfDependency(steps)
  {
    assert StepIds(steps) == [steps[0].stepId, steps[1].stepId, steps[2].stepId];
  }

  /** A template whose steps form a chain of three distinct ids instantiates with any parameters. */
  lemma ChainInstantiates(t: Template)
    requires LinearChain(t.steps) && t.steps[0].stepId != t.steps[1].stepId
    requires t.steps[1].stepId != t.steps[2].stepId && t.steps[0].stepId != t.steps[2].stepId
    ensures forall p, s, c :: Instance(t, p, s, c).Ok?
  {
    ChainIsValid(t.steps);
  }

  lemma CmdbHealthCheckChain()
    ensures var t := CMDB_HEALTH_CHECK; LinearChain(t.steps) && forall p, s, c :: Instance(t, p, s, c).Ok?
  {
    var t := CMDB_HEALTH_CHECK;
    assert t.steps[0].stepId[0] == 's' && t.steps[1].stepId[0] == 'v' && t.steps[2].stepId[0] == 'g';
    ChainInstantiates(t);
  }

  lemma IncidentResponseChain()
    ensures var t := INCIDENT_RESPONSE; LinearChain(t.steps) && forall p, s, c :: Instance(t, p, s, c).Ok?
  {
    var t := INCIDENT_RESPONSE;
    assert t.steps[0].stepId[0] == 'a' && t.steps[1].stepId[0] == 'r' && t.steps[2].stepId[0] == 'c';
    ChainInstantiates(t);
  }

  lemma DiscoveryAuditChain()
    ensures var t := DISCOVERY_AUDIT; LinearChain(t.steps) && forall p, s, c :: Instance(t, p, s, c).Ok?
  {
    var t := DISCOVERY_AUDIT;
    assert t.steps[0].stepId[0] == 'r' && t.steps[1].stepId[0] == 'a' && t.steps[2].stepId[0] == 'g';
    ChainInstantiates(t);
  }

  lemma AssetLifecycleChain()
    ensures var t := ASSET_LIFECYCLE; LinearChain(t.steps) && forall p, s, c :: Instance(t, p, s, c).Ok?
  {
    var t := ASSET_LIFECYCLE;
    assert t.steps[0].stepId[0] == 's' && t.steps[1].stepId[0] == 'c' && t.steps[2].stepId[0] == 'g';
    ChainInstantiates(t);
  }

  /** The ids of the default templates, which are distinct. */
  lemma DefaultTemplateIds()
    ensures TemplateIds(DefaultTemplates()) ==
      ["cmdb-health-check", "incident-response", "discovery-audit", "asset-lifecycle"]
    ensures Distinct(TemplateIds(DefaultTemplates()))
  {
    var ids := TemplateIds(DefaultTemplates());
    assert ids[0][0] == 'c' && ids[1][0] == 'i' && ids[2][0] == 'd' && ids[3][0] == 'a';
  }

  /**
   * There are four default templates with distinct ids; each is a linear
   * three-step chain and therefore instantiates successfully.
   */
  lemma DefaultTemplatesWellFormed()
    ensures |DefaultTemplates()| == 4 && Distinct(TemplateIds(DefaultTemplates()))
    ensures forall i :: 0 <= i < 4 ==> LinearChain(DefaultTemplates()[i].steps)
    ensures forall i, p, s, c :: 0 <= i < 4 ==> Instance(DefaultTemplates()[i], p, s, c).Ok?
  {
    DefaultTemplateIds();
    CmdbHealthCheckChain();
    IncidentResponseChain();
    DiscoveryAuditChain();
    AssetLifecycleChain();
  }

  /** Registers each template in turn; with distinct ids none is refused. */
  method RegisterAll(registry: TemplateRegistry, ts: seq<Template>)
    requires registry.Valid() && registry.templates == map[]
    requires Distinct(TemplateIds(ts))
    modifies registry
    ensures registry.Valid()
    ensures forall k :: k in registry.templates <==> k in TemplateIds(ts)
    ensures forall i :: 0 <= i < |ts| ==> registry.templates[ts[i].templateId] == ts[i]
  {
    ghost var ids := TemplateIds(ts);
    for i := 0 to |ts|
      invariant registry.Valid()
      invariant forall k :: k in registry.templates <==> k in ids[..i]
      invariant forall j :: 0 <= j < i ==> registry.templates[ts[j].templateId] == ts[j]
    {
      assert ids[i] !in ids[..i];
      assert forall j :: 0 <= j < i ==> ts[j].templateId != ts[i].templateId by {
        assert forall j :: 0 <= j < i ==> ids[..i][j] == ts[j].templateId;
      }
      var _ := registry.Register(ts[i]);
      assert ids[..i + 1] == ids[..i] + [ids[i]];
    }
    assert ids[..|ts|] == ids;
  }

  /**
   * `get_default_registry()`: a registry holding the four default templates,
   * each under its own id and each a three-step linear chain.
   */
  method DefaultRegistry() returns (registry: TemplateRegistry)
    ensures fresh(registry) && registry.Valid()
    ensures registry.templates.Keys ==
      {"cmdb-health-check", "incident-response", "discovery-audit", "asset-lifecycle"}
    ensures forall i :: 0 <= i < |DefaultTemplates()| ==>
      registry.templates[DefaultTemplates()[i].templateId] == DefaultTemplates()[i]
    ensures |registry.templates| == 4
    ensures forall k :: k in registry.templates ==> LinearChain(registry.templates[k].steps)
  {
    registry := new TemplateRegistry();
    DefaultTemplateIds();
    DefaultTemplatesWellFormed();
    RegisterAll(registry, DefaultTemplates());
    FourFiled(registry.templates, DefaultTemplates());
  }

  /** A map filed from four chains under the four default ids holds exactly those four chains. */
  lemma FourFiled(m: map<string, Template>, ts: seq<Template>)
    requires TemplateIds(ts) == ["cmdb-health-check", "incident-response", "discovery-audit", "asset-lifecycle"]
    requires forall k :: k in m <==> k in TemplateIds(ts)
    requires forall i :: 0 <= i < |ts| ==> m[ts[i].templateId] == ts[i]
    requires forall i :: 0 <= i < 4 ==> LinearChain(ts[i].steps)
    ensures m.Keys == {"cmdb-health-check", "incident-response", "discovery-audit", "asset-lifecycle"}
    ensures |m| == 4
    ensures forall k :: k in m ==> LinearChain(m[k].steps)
  {
    var ids := TemplateIds(ts);
    assert m.Keys == {ids[0], ids[1], ids[2], ids[3]};
    assert |m.Keys| == 4;
    ChainsFiled(m, ts);
  }

  /** Every template filed from a list of chains is a chain. */
  lemma ChainsFiled(m: map<string, Template>, ts: seq<Template>)
    requires forall k :: k in m <==> k in TemplateIds(ts)
    requires forall i :: 0 <= i < |ts| ==> m[ts[i].templateId] == ts[i] && LinearChain(ts[i].steps)
    ensures forall k :: k in m ==> LinearChain(m[k].steps)
  {
    forall k | k in m
      ensures LinearChain(m[k].steps)
    {
      var ids := TemplateIds(ts);
      var i :| 0 <= i < |ids| && ids[i] == k;
      assert m[ts[i].templateId] == ts[i];
    }
  }
}
