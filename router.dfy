/**
 * The task router: explicit target first, then the routing rules in
 * priority order, then the task's domain, then a required capability.
 * Candidates come from the registry's id-sorted listings, so among several
 * the smallest agent id wins; with `require_available` only ONLINE and
 * DEGRADED agents are eligible.
 */
module Router {
  import opened Common
  import opened Json
  import opened Agents
  import opened Tasks
  import opened Registry

  /** A routing rule; the first matching rule that yields an agent decides. */
  datatype Rule = Rule(
    name: string,
    priority: int,
    domain: Option<Domain>,
    keywords: seq<string>,
    targetAgent: Option<string>,
    capability: Option<string>)

  /** `priority` defaults to 100: lower numbers are evaluated first. */
  const DEFAULT_RULE_PRIORITY: int := 100

  /** Python truthiness of an optional string: present and not empty. */
  predicate Truthy(o: Option<string>) {
    o.Some? && o.value != []
  }

  /** The text keywords are searched in: `f"{title} {description}".lower()`. */
  function MatchText(task: Task): string {
    Lower(task.title + " " + task.description)
  }

  /** The keyword loop: is some lowercased keyword a substring of `text`? */
  predicate AnyKeyword(text: string, keywords: seq<string>)
    decreases |keywords|
  {
    keywords != [] && (Contains(text, Lower(keywords[0])) || AnyKeyword(text, keywords[1..]))
  }

  /** `RoutingRule.matches`: the same domain as the task, or a keyword in its text. */
  predicate Matches(rule: Rule, task: Task) {
    (rule.domain.Some? && task.domain.Some? && task.domain == rule.domain)
    || (rule.keywords != [] && AnyKeyword(MatchText(task), rule.keywords))
  }

  lemma {:induction false} AnyKeywordIff(text: string, keywords: seq<string>)
    ensures AnyKeyword(text, keywords) <==> exists k :: 0 <= k < |keywords| && Contains(text, Lower(keywords[k]))
    decreases |keywords|
  {
    if keywords != [] {
      AnyKeywordIff(text, keywords[1..]);
      if exists k :: 0 <= k < |keywords| && Contains(text, Lower(keywords[k])) {
        var k :| 0 <= k < |keywords| && Contains(text, Lower(keywords[k]));
        if k > 0 {
          assert keywords[1..][k - 1] == keywords[k];
        }
      }
    }
  }

  /**
   * A rule matches exactly when its domain is the task's, or one of its
   * keywords, lowercased, occurs in the lowercased "title description". A rule
   * with neither a domain nor keywords never matches.
   */
  lemma MatchesIff(rule: Rule, task: Task)
    ensures Matches(rule, task) <==>
      (rule.domain.Some? && task.domain == rule.domain)
      || exists k :: 0 <= k < |rule.keywords| && Contains(MatchText(task), Lower(rule.keywords[k]))
    ensures rule.domain.None? && rule.keywords == [] ==> !Matches(rule, task)
  {
    AnyKeywordIff(MatchText(task), rule.keywords);
  }

  /** Rule with only a domain and keywords, at priority 10: the shape of every default rule. */
  function DomainRule(name: string, domain: Domain, keywords: seq<string>): Rule {
    Rule(name, 10, Some(domain), keywords, None, None)
  }

  /** `_build_default_routing_rules()`: one rule per operational domain. */
  const DEFAULT_RULES: seq<Rule> := [
    DomainRule("cmdb-domain", Cmdb, ["cmdb", "configuration item", "ci ", "relationship"]),
    DomainRule("discovery-domain", Discovery, ["discovery", "scan", "discover", "ip range"]),
    DomainRule("asset-domain", Asset, ["asset", "inventory", "license", "hardware", "software asset"]),
    DomainRule("csa-domain", Csa, ["catalog", "workflow", "request", "remediation", "service catalog"]),
    DomainRule("audit-domain", Audit, ["audit", "compliance", "drift", "policy"]),
    DomainRule("documentation-domain", Documentation, ["document", "runbook", "knowledge base", "architecture diagram"])
  ]

  // ------------------------------------------------------------------
  // Keeping the rules sorted by priority
  // ------------------------------------------------------------------

  predicate SortedByPriority(rules: seq<Rule>) {
    forall i, j :: 0 <= i < j < |rules| ==> rules[i].priority <= rules[j].priority
  }

  /** Puts `x` after every rule of `t` whose priority is not greater than its own. */
  function Insert(x: Rule, t: seq<Rule>): (r: seq<Rule>)
    ensures |r| == |t| + 1
    ensures forall y :: y in r <==> y == x || y in t
    decreases |t|
  {
    if t == [] then [x]
    else if x.priority < t[0].priority then [x] + t
    else
      assert t == [t[0]] + t[1..];
      [t[0]] + Insert(x, t[1..])
  }

  /** Insertion keeps a list sorted by priority. */
  lemma {:induction false} InsertSorted(x: Rule, t: seq<Rule>)
    requires SortedByPriority(t)
    ensures SortedByPriority(Insert(x, t))
    decreases |t|
  {
    if t != [] && x.priority >= t[0].priority {
      InsertSorted(x, t[1..]);
      var rest := Insert(x, t[1..]);
      forall k | 0 <= k < |rest| ensures t[0].priority <= rest[k].priority {
        assert rest[k] in rest;
      }
    }
  }

  /** Insertion adds exactly `x`. */
  lemma {:induction false} InsertPermutes(x: Rule, t: seq<Rule>)
    ensures multiset(Insert(x, t)) == multiset(t) + multiset{x}
    decreases |t|
  {
    if t != [] && x.priority >= t[0].priority {
      InsertPermutes(x, t[1..]);
      assert t == [t[0]] + t[1..];
    }
  }

  /** `sorted(rules, key=priority)`: Python's stable sort, as insertion of each rule in turn. */
  function SortRules(rules: seq<Rule>): (r: seq<Rule>)
    ensures SortedByPriority(r)
    ensures |r| == |rules|
    decreases |rules|
  {
    if rules == [] then []
    else
      assert rules == rules[..|rules| - 1] + [rules[|rules| - 1]];
      InsertSorted(rules[|rules| - 1], SortRules(rules[..|rules| - 1]));
      Insert(rules[|rules| - 1], SortRules(rules[..|rules| - 1]))
  }

  /** Sorting reorders the rules, adding and losing none. */
  lemma {:induction false} SortRulesPermutes(rules: seq<Rule>)
    ensures multiset(SortRules(rules)) == multiset(rules)
    decreases |rules|
  {
    if rules != [] {
      var init, x := rules[..|rules| - 1], rules[|rules| - 1];
      SortRulesPermutes(init);
      InsertPermutes(x, SortRules(init));
      assert rules == init + [x];
    }
  }

  /** The rules of priority `p`, in order. */
  function WithPriority(rules: seq<Rule>, p: int): seq<Rule> {
    if rules == [] then []
    else (if rules[0].priority == p then [rules[0]] else []) + WithPriority(rules[1..], p)
  }

  lemma {:induction false} WithPriorityAppend(s: seq<Rule>, t: seq<Rule>, p: int)
    ensures WithPriority(s + t, p) == WithPriority(s, p) + WithPriority(t, p)
    decreases |s|
  {
    if s == [] {
      assert s + t == t;
    } else {
      var head := if s[0].priority == p then [s[0]] else [];
      WithPriorityAppend(s[1..], t, p);
      assert WithPriority(s + t, p) == head + WithPriority(s[1..] + t, p) by {
        assert s + t == [s[0]] + (s[1..] + t);
        WithPriorityCons(s[0], s[1..] + t, p);
      }
      assert WithPriority(s, p) == head + WithPriority(s[1..], p) by {
        assert s == [s[0]] + s[1..];
        WithPriorityCons(s[0], s[1..], p);
      }
      assert head + (WithPriority(s[1..], p) + WithPriority(t, p))
        == (head + WithPriority(s[1..], p)) + WithPriority(t, p);
    }
  }

  lemma {:induction false} WithPriorityAbove(t: seq<Rule>, p: int)
    requires SortedByPriority(t) && (t != [] ==> t[0].priority > p)
    ensures WithPriority(t, p) == []
    decreases |t|
  {
    if t != [] {
      WithPriorityAbove(t[1..], p);
    }
  }

  lemma WithPriorityCons(x: Rule, t: seq<Rule>, p: int)
    ensures WithPriority([x] + t, p) == (if x.priority == p then [x] else []) + WithPriority(t, p)
  {
    assert ([x] + t)[1..] == t;
  }

  /** Inserting into a sorted list puts the rule after every earlier rule of its priority. */
  lemma {:induction false} InsertKeepsOrder(x: Rule, t: seq<Rule>, p: int)
    requires SortedByPriority(t)
    ensures WithPriority(Insert(x, t), p) == WithPriority(t, p) + (if x.priority == p then [x] else [])
    decreases |t|
  {
    if t == [] {
      WithPriorityCons(x, [], p);
    } else if x.priority < t[0].priority {
      InsertFrontKeepsOrder(x, t, p);
    } else {
      InsertKeepsOrder(x, t[1..], p);
      InsertPastHead(x, t, p);
    }
  }

  /** A rule placed before all of a sorted list lands after none of its own priority. */
  lemma InsertFrontKeepsOrder(x: Rule, t: seq<Rule>, p: int)
    requires SortedByPriority(t) && t != [] && x.priority < t[0].priority
    ensures WithPriority([x] + t, p) == WithPriority(t, p) + (if x.priority == p then [x] else [])
  {
    WithPriorityCons(x, t, p);
    if x.priority == p {
      WithPriorityAbove(t, p);
    }
  }

  /** Inserting past the head of `t`: the head keeps its place before the insertion into the rest. */
  lemma InsertPastHead(x: Rule, t: seq<Rule>, p: int)
    requires t != [] && x.priority >= t[0].priority
    requires WithPriority(Insert(x, t[1..]), p) == WithPriority(t[1..], p) + (if x.priority == p then [x] else [])
    ensures WithPriority(Insert(x, t), p) == WithPriority(t, p) + (if x.priority == p then [x] else [])
  {
    var tail := if x.priority == p then [x] else [];
    var head := if t[0].priority == p then [t[0]] else [];
    WithPriorityCons(t[0], Insert(x, t[1..]), p);
    assert WithPriority(t, p) == head + WithPriority(t[1..], p) by {
      WithPriorityCons(t[0], t[1..], p);
      assert t == [t[0]] + t[1..];
    }
    assert head + (WithPriority(t[1..], p) + tail) == (head + WithPriority(t[1..], p)) + tail;
  }

  /**
   * The sort is stable: rules of equal priority keep their relative order,
   * which with sortedness and the multiset equality pins the result down.
   */
  lemma {:induction false} SortRulesStable(rules: seq<Rule>, p: int)
    ensures WithPriority(SortRules(rules), p) == WithPriority(rules, p)
    decreases |rules|
  {
    if rules != [] {
      var init, x := rules[..|rules| - 1], rules[|rules| - 1];
      SortRulesStable(init, p);
      InsertKeepsOrder(x, SortRules(init), p);
      assert rules == init + [x];
      WithPriorityAppend(init, [x], p);
    }
  }

  /** A rule inserted into a sorted list with nothing of higher priority goes last. */
  lemma {:induction false} InsertAtEnd(x: Rule, t: seq<Rule>)
    requires forall k :: 0 <= k < |t| ==> t[k].priority <= x.priority
    ensures Insert(x, t) == t + [x]
    decreases |t|
  {
    if t != [] {
      InsertAtEnd(x, t[1..]);
      assert t == [t[0]] + t[1..];
    }
  }

  /** Sorting an already sorted list changes nothing. */
  lemma {:induction false} SortRulesSorted(rules: seq<Rule>)
    requires SortedByPriority(rules)
    ensures SortRules(rules) == rules
    decreases |rules|
  {
    if rules != [] {
      var init, x := rules[..|rules| - 1], rules[|rules| - 1];
      SortRulesSorted(init);
      InsertAtEnd(x, init);
      assert rules == init + [x];
    }
  }

  /** `[r for r in rules if r.name != name]` */
  function WithoutName(rules: seq<Rule>, name: string): (r: seq<Rule>)
    ensures forall x :: x in r <==> x in rules && x.name != name
    decreases |rules|
  {
    if rules == [] then []
    else
      var rest := WithoutName(rules[1..], name);
      assert forall x :: x in rules <==> x == rules[0] || x in rules[1..];
      (if rules[0].name != name then [rules[0]] else []) + rest
  }

  /** Removal keeps the order of the remaining rules, so it keeps them sorted. */
  lemma {:induction false} WithoutNameSorted(rules: seq<Rule>, name: string)
    requires SortedByPriority(rules)
    ensures SortedByPriority(WithoutName(rules, name))
    decreases |rules|
  {
    if rules != [] {
      var rest := WithoutName(rules[1..], name);
      WithoutNameSorted(rules[1..], name);
      forall j | 0 <= j < |rest| ensures rules[0].priority <= rest[j].priority {
        assert rest[j] in rules[1..];
      }
    }
  }

  /** The list shrinks exactly when some rule has the name. */
  lemma {:induction false} WithoutNameShrinks(rules: seq<Rule>, name: string)
    ensures |WithoutName(rules, name)| <= |rules|
    ensures |WithoutName(rules, name)| < |rules| <==> exists k :: 0 <= k < |rules| && rules[k].name == name
    decreases |rules|
  {
    if rules != [] {
      WithoutNameShrinks(rules[1..], name);
      var tail := rules[1..];
      assert forall k :: 0 <= k < |tail| ==> tail[k] == rules[k + 1];
      if rules[0].name != name {
        if exists k :: 0 <= k < |rules| && rules[k].name == name {
          var k :| 0 <= k < |rules| && rules[k].name == name;
          assert tail[k - 1].name == name;
        }
      }
    }
  }

  // ------------------------------------------------------------------
  // Routing decisions
  // ------------------------------------------------------------------

  /** `RoutingDecision.method` */
  datatype RouteMethod = Explicit | ByRule | ByDomain | ByCapability

  /** `RoutingDecision.reason`, kept as its parts rather than formatted text. */
  datatype Reason =
    | ExplicitTarget(agentId: string)
    | RuleTarget(rule: string, agentId: string)
    | RuleDomain(rule: string, domain: Domain, agentId: string, available: nat)
    | RuleCapability(rule: string, capability: string, agentId: string)
    | DomainMatch(domain: Domain, agentId: string, available: nat)
    | CapabilityMatch(capability: string, agentId: string)

  datatype Decision = Decision(agent: Agent, reason: Reason, via: RouteMethod, candidatesEvaluated: nat)

  datatype NoRouteCause =
    | TargetNotFound(target: string)  // the explicitly targeted agent is not registered
    | NothingMatched                  // no rule, domain or capability yielded an agent

  datatype RouteError =
    | NoRouteFound(taskId: string, cause: NoRouteCause)      // NoRouteFoundError
    | AgentUnavailable(agentId: string, status: AgentStatus)  // AgentUnavailableError

  /** One entry of the routing history. */
  datatype RoutingRecord = RoutingRecord(taskId: string, agentId: string, via: RouteMethod, reason: Reason, timestamp: int)

  /** `_filter_available(candidates)`: identity unless availability is required. */
  function FilterAvailable(candidates: seq<Agent>, requireAvailable: bool): seq<Agent> {
    if requireAvailable then Filter(candidates, Available) else candidates
  }

  /** The criterion routing applies: `c`, and availability when it is required. */
  function Gate(c: Criterion, requireAvailable: bool): Criterion {
    if requireAvailable then Both(c, Available) else c
  }

  /** The agents `c` lets through that routing may pick, by id. */
  ghost function Usable(agents: map<string, Agent>, c: Criterion, requireAvailable: bool): (r: seq<Agent>)
    requires Keyed(agents)
    ensures r == FilterAvailable(Selection(agents, c), requireAvailable)
  {
    FilterSelection(agents, c, Available);
    Selection(agents, Gate(c, requireAvailable))
  }

  /** The usable agents for `c` and `require_available`, written out. */
  predicate Eligible(agents: map<string, Agent>, c: Criterion, requireAvailable: bool, id: string) {
    id in agents && Satisfies(agents[id], c) && (requireAvailable ==> IsAvailable(agents[id]))
  }

  lemma EligibleMatching(agents: map<string, Agent>, c: Criterion, requireAvailable: bool)
    ensures forall id :: Eligible(agents, c, requireAvailable, id) <==> id in Matching(agents, Gate(c, requireAvailable))
  {
    forall id ensures Eligible(agents, c, requireAvailable, id) <==> id in Matching(agents, Gate(c, requireAvailable)) {
      if id in agents {
        var a := agents[id];
        assert Satisfies(a, Both(c, Available)) <==> Satisfies(a, c) && IsAvailable(a);
      }
    }
  }

  /** A listing is non-empty exactly when something matches, and then starts with the least id. */
  lemma SelectionHead(agents: map<string, Agent>, c: Criterion)
    requires Keyed(agents)
    ensures var u := Selection(agents, c);
      (u != [] <==> Matching(agents, c) != {})
      && (u != [] ==> (u[0].agentId in Matching(agents, c)
          && forall id :: id in Matching(agents, c) && id != u[0].agentId ==> Lt(u[0].agentId, id)))
  {
    SelectionSize(agents, c);
    if Selection(agents, c) != [] {
      SelectionFirst(agents, c);
    }
  }

  /**
   * Every usable agent is a registered, eligible record; there is one exactly
   * when some agent is eligible; and the first has the least id of them all.
   */
  lemma UsableFacts(agents: map<string, Agent>, c: Criterion, requireAvailable: bool)
    requires Keyed(agents)
    ensures var u := Usable(agents, c, requireAvailable);
      (forall i :: 0 <= i < |u| ==> agents[u[i].agentId] == u[i] && Eligible(agents, c, requireAvailable, u[i].agentId))
      && (u != [] <==> exists id :: Eligible(agents, c, requireAvailable, id))
      && (u != [] ==> forall id :: Eligible(agents, c, requireAvailable, id) && id != u[0].agentId ==> Lt(u[0].agentId, id))
  {
    var g := Gate(c, requireAvailable);
    var u := Selection(agents, g);
    EligibleMatching(agents, c, requireAvailable);
    SelectionHead(agents, g);
    assert forall i :: 0 <= i < |u| ==> u[i].agentId in Matching(agents, g);
    if u != [] {
      assert Eligible(agents, c, requireAvailable, u[0].agentId);
    }
  }

  /** The agent `rule` picks for `task`, if any, or None to try the next rule. */
  ghost function TryRule(agents: map<string, Agent>, rule: Rule, requireAvailable: bool, task: Task): Option<Decision>
    requires Keyed(agents)
  {
    if !Matches(rule, task) then None
    else if Truthy(rule.targetAgent) then
      var t := rule.targetAgent.value;
      if t in agents && (!requireAvailable || IsAvailable(agents[t])) then
        Some(Decision(agents[t], RuleTarget(rule.name, t), ByRule, 1))
      else None
    else
      var byDomain := if rule.domain.Some? then Usable(agents, InDomain(rule.domain.value), requireAvailable) else [];
      if byDomain != [] then
        Some(Decision(byDomain[0], RuleDomain(rule.name, rule.domain.value, byDomain[0].agentId, |byDomain|),
                      ByRule, |Selection(agents, InDomain(rule.domain.value))|))
      else
        var byCapability := if Truthy(rule.capability) then Usable(agents, WithCapability(rule.capability.value), requireAvailable) else [];
        if byCapability != [] then
          Some(Decision(byCapability[0], RuleCapability(rule.name, rule.capability.value, byCapability[0].agentId),
                        ByRule, |Selection(agents, WithCapability(rule.capability.value))|))
        else None
  }

  /** `_route_by_rules`: the first rule, in order, that picks an agent. */
  ghost function RouteByRules(agents: map<string, Agent>, rules: seq<Rule>, requireAvailable: bool, task: Task)
    : Option<Decision>
    requires Keyed(agents)
    decreases |rules|
  {
    if rules == [] then None
    else
      var d := TryRule(agents, rules[0], requireAvailable, task);
      if d.Some? then d else RouteByRules(agents, rules[1..], requireAvailable, task)
  }

  /** `_route_by_domain`: the first usable agent of the domain. */
  ghost function RouteByDomain(agents: map<string, Agent>, domain: Domain, requireAvailable: bool): Option<Decision>
    requires Keyed(agents)
  {
    var candidates := Selection(agents, InDomain(domain));
    var available := Usable(agents, InDomain(domain), requireAvailable);
    if candidates == [] || available == [] then None
    else Some(Decision(available[0], DomainMatch(domain, available[0].agentId, |available|), ByDomain, |candidates|))
  }

  /** `_route_by_capability`: the first usable agent declaring the capability. */
  ghost function RouteByCapability(agents: map<string, Agent>, capability: string, requireAvailable: bool): Option<Decision>
    requires Keyed(agents)
  {
    var candidates := Selection(agents, WithCapability(capability));
    var available := Usable(agents, WithCapability(capability), requireAvailable);
    if candidates == [] || available == [] then None
    else Some(Decision(available[0], CapabilityMatch(capability, available[0].agentId), ByCapability, |candidates|))
  }

  /**
   * `task.parameters.get("required_capability")` when truthy and able to
   * equal a capability name: a non-empty string. A truthy value of another
   * type equals no name, so routing by it finds no candidate.
   */
  function RequiredCapability(parameters: Object): (r: Option<string>)
    ensures r.Some? <==> "required_capability" in parameters && parameters["required_capability"].Str?
                         && parameters["required_capability"].s != []
    ensures r.Some? ==> parameters["required_capability"] == Str(r.value)
  {
    if "required_capability" in parameters && parameters["required_capability"].Str?
       && parameters["required_capability"].s != []
    then Some(parameters["required_capability"].s)
    else None
  }

  /** `route(task)` as a specification over the registry's records. */
  ghost function Decide(agents: map<string, Agent>, rules: seq<Rule>, requireAvailable: bool, task: Task)
    : Result<Decision, RouteError>
    requires Keyed(agents)
  {
    if Truthy(task.targetAgent) then
      var t := task.targetAgent.value;
      if t !in agents then Err(NoRouteFound(task.taskId, TargetNotFound(t)))
      else if requireAvailable && !IsAvailable(agents[t]) then Err(AgentUnavailable(t, agents[t].status))
      else Ok(Decision(agents[t], ExplicitTarget(t), Explicit, 1))
    else
      var byRules := RouteByRules(agents, rules, requireAvailable, task);
      if byRules.Some? then Ok(byRules.value)
      else
        var byDomain := if task.domain.Some? then RouteByDomain(agents, task.domain.value, requireAvailable) else None;
        if byDomain.Some? then Ok(byDomain.value)
        else
          var required := RequiredCapability(task.parameters);
          var byCapability := if required.Some? then RouteByCapability(agents, required.value, requireAvailable) else None;
          if byCapability.Some? then Ok(byCapability.value)
          else Err(NoRouteFound(task.taskId, NothingMatched))
  }

  class TaskRouter {
    const registry: AgentRegistry
    const requireAvailable: bool
    var rules: seq<Rule>
    var history: seq<RoutingRecord>

    ghost predicate Valid()
      reads this
    {
      SortedByPriority(rules)
    }

    /**
     * `TaskRouter(registry, rules, require_available)`: the given rules, or the
     * defaults when none are given (`rules or defaults`, so an empty list too),
     * stably sorted by priority.
     */
    constructor(registry: AgentRegistry, rules: seq<Rule>, requireAvailable: bool)
      ensures Valid()
      ensures this.registry == registry && this.requireAvailable == requireAvailable
      ensures this.rules == SortRules(if rules == [] then DEFAULT_RULES else rules)
      ensures history == []
    {
      this.registry := registry;
      this.requireAvailable := requireAvailable;
      this.rules := SortRules(if rules == [] then DEFAULT_RULES else rules);
      history := [];
    }

    /** `_route_explicit`: the targeted agent, which must exist and, if required, be available. */
    method RouteExplicit(task: Task) returns (r: Result<Decision, RouteError>)
      requires registry.Valid() && Truthy(task.targetAgent)
      ensures r == Decide(registry.agents, rules, requireAvailable, task)
    {
      var target := task.targetAgent.value;
      var found := registry.Get(target);
      if found.Err? {
        return Err(NoRouteFound(task.taskId, TargetNotFound(target)));
      }
      var agent := found.value;
      if requireAvailable && !IsAvailable(agent) {
        return Err(AgentUnavailable(target, agent.status));
      }
      r := Ok(Decision(agent, ExplicitTarget(target), Explicit, 1));
    }

    /** One turn of the rule loop of `_route_by_rules`. */
    method ApplyRule(rule: Rule, task: Task) returns (r: Option<Decision>)
      requires registry.Valid()
      ensures r == TryRule(registry.agents, rule, requireAvailable, task)
    {
      if !Matches(rule, task) {
        return None;
      }
      if Truthy(rule.targetAgent) {
        var found := registry.Get(rule.targetAgent.value);
        if found.Ok? && (!requireAvailable || IsAvailable(found.value)) {
          return Some(Decision(found.value, RuleTarget(rule.name, rule.targetAgent.value), ByRule, 1));
        }
        return None;
      }
      if rule.domain.Some? {
        var candidates := registry.SearchByDomain(rule.domain.value);
        var available := FilterAvailable(candidates, requireAvailable);
        if available != [] {
          return Some(Decision(available[0], RuleDomain(rule.name, rule.domain.value, available[0].agentId, |available|),
                               ByRule, |candidates|));
        }
      }
      if Truthy(rule.capability) {
        var candidates := registry.SearchByCapability(rule.capability.value);
        var available := FilterAvailable(candidates, requireAvailable);
        if available != [] {
          return Some(Decision(available[0], RuleCapability(rule.name, rule.capability.value, available[0].agentId),
                               ByRule, |candidates|));
        }
      }
      r := None;
    }

    /** `_route_by_rules(task)`: rules in priority order until one picks an agent. */
    method RouteRules(task: Task) returns (r: Option<Decision>)
      requires registry.Valid()
      ensures r == RouteByRules(registry.agents, rules, requireAvailable, task)
    {
      var i := 0;
      while i < |rules|
        invariant 0 <= i <= |rules|
        invariant RouteByRules(registry.agents, rules[i..], requireAvailable, task)
               == RouteByRules(registry.agents, rules, requireAvailable, task)
      {
        assert rules[i..][1..] == rules[i + 1..];
        var d := ApplyRule(rules[i], task);
        if d.Some? {
          return d;
        }
        i := i + 1;
      }
      r := None;
    }

    /** `_route_by_domain(task)` */
    method RouteDomain(domain: Domain) returns (r: Option<Decision>)
      requires registry.Valid()
      ensures r == RouteByDomain(registry.agents, domain, requireAvailable)
    {
      var candidates := registry.SearchByDomain(domain);
      if candidates == [] {
        return None;
      }
      var available := FilterAvailable(candidates, requireAvailable);
      if available == [] {
        return None;
      }
      r := Some(Decision(available[0], DomainMatch(domain, available[0].agentId, |available|), ByDomain, |candidates|));
    }

    /** `_route_by_capability(task, capability)` */
    method RouteCapability(capability: string) returns (r: Option<Decision>)
      requires registry.Valid()
      ensures r == RouteByCapability(registry.agents, capability, requireAvailable)
    {
      var candidates := registry.SearchByCapability(capability);
      if candidates == [] {
        return None;
      }
      var available := FilterAvailable(candidates, requireAvailable);
      if available == [] {
        return None;
      }
      r := Some(Decision(available[0], CapabilityMatch(capability, available[0].agentId), ByCapability, |candidates|));
    }

    /**
     * `route(task)`: explicit target, rules, domain, then required capability;
     * each successful decision is appended to the history, stamped `now`.
     */
    method Route(task: Task, now: int) returns (r: Result<Decision, RouteError>)
      requires registry.Valid()
      modifies this
      ensures rules == old(rules)
      ensures r == Decide(registry.agents, rules, requireAvailable, task)
      ensures history == old(history) +
        (if r.Ok? then [RoutingRecord(task.taskId, r.value.agent.agentId, r.value.via, r.value.reason, now)] else [])
    {
      if Truthy(task.targetAgent) {
        r := RouteExplicit(task);
      } else {
        var byRules := RouteRules(task);
        if byRules.Some? {
          r := Ok(byRules.value);
        } else {
          var byDomain := None;
          if task.domain.Some? {
            byDomain := RouteDomain(task.domain.value);
          }
          if byDomain.Some? {
            r := Ok(byDomain.value);
          } else {
            var required := RequiredCapability(task.parameters);
            var byCapability := None;
            if required.Some? {
              byCapability := RouteCapability(required.value);
            }
            if byCapability.Some? {
              r := Ok(byCapability.value);
            } else {
              r := Err(NoRouteFound(task.taskId, NothingMatched));
            }
          }
        }
      }
      if r.Ok? {
        history := history + [RoutingRecord(task.taskId, r.value.agent.agentId, r.value.via, r.value.reason, now)];
      }
    }

    /** `add_rule(rule)`: append, then stable sort by priority. */
    method AddRule(rule: Rule)
      requires Valid()
      modifies this
      ensures Valid()
      ensures rules == SortRules(old(rules) + [rule])
      ensures rules == Insert(rule, old(rules))
      ensures history == old(history)
    {
      SortRulesSorted(rules);
      assert (rules + [rule])[..|rules|] == rules;
      rules := SortRules(rules + [rule]);
    }

    /** `remove_rule(name)`: drops every rule of that name; true when any was there. */
    method RemoveRule(name: string) returns (removed: bool)
      requires Valid()
      modifies this
      ensures Valid()
      ensures rules == WithoutName(old(rules), name)
      ensures removed <==> exists k :: 0 <= k < |old(rules)| && old(rules)[k].name == name
      ensures history == old(history)
    {
      WithoutNameShrinks(rules, name);
      WithoutNameSorted(rules, name);
      var before := |rules|;
      rules := WithoutName(rules, name);
      removed := |rules| < before;
    }

    /** `get_rules()`: the rules in evaluation order. */
    function GetRules(): (r: seq<Rule>)
      requires Valid()
      reads this
      ensures SortedByPriority(r) && r == rules
    {
      rules
    }

    /** `rule_count` */
    function RuleCount(): (r: nat)
      reads this
      ensures r == |rules|
    {
      |rules|
    }

    /** `get_routing_history(limit)`: the newest `limit` records, newest first. */
    function GetRoutingHistory(limit: int): (r: seq<RoutingRecord>)
      reads this
      ensures |r| == SliceLength(|history|, limit)
      ensures forall i :: 0 <= i < |r| ==> r[i] == history[|history| - 1 - i]
    {
      NewestFirstSpec(history, limit);
      NewestFirst(history, limit)
    }
  }

  // ------------------------------------------------------------------
  // What routing guarantees
  // ------------------------------------------------------------------

  /** A rule's pick is a registered record, available when availability is required. */
  lemma TryRuleSound(agents: map<string, Agent>, rule: Rule, requireAvailable: bool, task: Task)
    requires Keyed(agents)
    ensures var d := TryRule(agents, rule, requireAvailable, task);
      d.Some? ==> (d.value.agent.agentId in agents && agents[d.value.agent.agentId] == d.value.agent
        && d.value.via == ByRule && (requireAvailable ==> IsAvailable(d.value.agent)))
  {
    if Matches(rule, task) && !Truthy(rule.targetAgent) {
      var byDomain := if rule.domain.Some? then Usable(agents, InDomain(rule.domain.value), requireAvailable) else [];
      if byDomain != [] {
        UsableFacts(agents, InDomain(rule.domain.value), requireAvailable);
        assert Eligible(agents, InDomain(rule.domain.value), requireAvailable, byDomain[0].agentId);
      } else if Truthy(rule.capability) {
        var byCapability := Usable(agents, WithCapability(rule.capability.value), requireAvailable);
        if byCapability != [] {
          UsableFacts(agents, WithCapability(rule.capability.value), requireAvailable);
          assert Eligible(agents, WithCapability(rule.capability.value), requireAvailable, byCapability[0].agentId);
        }
      }
    }
  }

  lemma {:induction false} RulesSound(agents: map<string, Agent>, rules: seq<Rule>, requireAvailable: bool, task: Task)
    requires Keyed(agents)
    ensures var d := RouteByRules(agents, rules, requireAvailable, task);
      d.Some? ==> (d.value.agent.agentId in agents && agents[d.value.agent.agentId] == d.value.agent
        && d.value.via == ByRule && (requireAvailable ==> IsAvailable(d.value.agent)))
    decreases |rules|
  {
    if rules != [] {
      TryRuleSound(agents, rules[0], requireAvailable, task);
      RulesSound(agents, rules[1..], requireAvailable, task);
    }
  }

  /**
   * A decision by domain picks, of all usable agents in the domain, the one
   * whose id is least, and counts every agent of the domain as a candidate;
   * it exists exactly when some agent of the domain is usable.
   */
  lemma RouteByDomainSmallestId(agents: map<string, Agent>, domain: Domain, requireAvailable: bool)
    requires Keyed(agents)
    ensures var r := RouteByDomain(agents, domain, requireAvailable);
      (r.Some? <==> exists id :: Eligible(agents, InDomain(domain), requireAvailable, id))
      && (r.Some? ==> (
        var a := r.value.agent;
        a.agentId in agents && agents[a.agentId] == a && a.domain == domain
        && (requireAvailable ==> IsAvailable(a))
        && r.value.candidatesEvaluated == |Matching(agents, InDomain(domain))|
        && forall id :: (Eligible(agents, InDomain(domain), requireAvailable, id) && id != a.agentId) ==> Lt(a.agentId, id)))
  {
    UsableFacts(agents, InDomain(domain), requireAvailable);
    SelectionSize(agents, InDomain(domain));
    var u := Usable(agents, InDomain(domain), requireAvailable);
    if u != [] {
      assert Eligible(agents, InDomain(domain), requireAvailable, u[0].agentId);
      assert u[0].agentId in Matching(agents, InDomain(domain));
    }
  }

  /** The same for a required capability: the least usable id among the agents declaring it. */
  lemma RouteByCapabilitySmallestId(agents: map<string, Agent>, capability: string, requireAvailable: bool)
    requires Keyed(agents)
    ensures var r := RouteByCapability(agents, capability, requireAvailable);
      (r.Some? <==> exists id :: Eligible(agents, WithCapability(capability), requireAvailable, id))
      && (r.Some? ==> (
        var a := r.value.agent;
        a.agentId in agents && agents[a.agentId] == a && HasCapability(a, capability)
        && (requireAvailable ==> IsAvailable(a))
        && r.value.candidatesEvaluated == |Matching(agents, WithCapability(capability))|
        && forall id :: (Eligible(agents, WithCapability(capability), requireAvailable, id) && id != a.agentId) ==> Lt(a.agentId, id)))
  {
    UsableFacts(agents, WithCapability(capability), requireAvailable);
    SelectionSize(agents, WithCapability(capability));
    var u := Usable(agents, WithCapability(capability), requireAvailable);
    if u != [] {
      assert Eligible(agents, WithCapability(capability), requireAvailable, u[0].agentId);
      assert u[0].agentId in Matching(agents, WithCapability(capability));
    }
  }

  /**
   * A decision always names a registered agent, as stored; with
   * `require_available` that agent is ONLINE or DEGRADED.
   */
  lemma RouteSound(agents: map<string, Agent>, rules: seq<Rule>, requireAvailable: bool, task: Task)
    requires Keyed(agents)
    ensures var r := Decide(agents, rules, requireAvailable, task);
      r.Ok? ==> (r.value.agent.agentId in agents && agents[r.value.agent.agentId] == r.value.agent
        && (requireAvailable ==> IsAvailable(r.value.agent)))
  {
    RulesSound(agents, rules, requireAvailable, task);
    if task.domain.Some? {
      RouteByDomainSmallestId(agents, task.domain.value, requireAvailable);
    }
    var required := RequiredCapability(task.parameters);
    if required.Some? {
      RouteByCapabilitySmallestId(agents, required.value, requireAvailable);
    }
  }

  /**
   * An explicit target decides alone: routing fails with NoRouteFound when it
   * is not registered, with AgentUnavailable when availability is required and
   * it is neither ONLINE nor DEGRADED, and otherwise picks it.
   */
  lemma RouteExplicitTarget(agents: map<string, Agent>, rules: seq<Rule>, requireAvailable: bool, task: Task)
    requires Keyed(agents) && Truthy(task.targetAgent)
    ensures var t := task.targetAgent.value;
      var r := Decide(agents, rules, requireAvailable, task);
      (r.Ok? <==> t in agents && (!requireAvailable || IsAvailable(agents[t])))
      && (r.Ok? ==> r.value.agent.agentId == t && r.value.via == Explicit && r.value.candidatesEvaluated == 1)
      && (t !in agents ==> r == Err(NoRouteFound(task.taskId, TargetNotFound(t))))
      && (r.Err? && t in agents ==> requireAvailable && r == Err(AgentUnavailable(t, agents[t].status)))
  {
  }

  /**
   * Without an explicit target, a task whose domain has a usable agent is
   * always routed: the domain step cannot come back empty-handed.
   */
  lemma RouteDomainComplete(agents: map<string, Agent>, rules: seq<Rule>, requireAvailable: bool, task: Task, id: string)
    requires Keyed(agents) && !Truthy(task.targetAgent) && task.domain.Some?
    requires Eligible(agents, InDomain(task.domain.value), requireAvailable, id)
    ensures Decide(agents, rules, requireAvailable, task).Ok?
  {
    RouteByDomainSmallestId(agents, task.domain.value, requireAvailable);
  }

  /**
   * A matching rule whose target agent is unregistered, or unavailable when
   * availability is required, is skipped as a whole: its domain and
   * capability are not tried.
   */
  lemma RuleWithBadTargetSkipped(agents: map<string, Agent>, rule: Rule, rest: seq<Rule>, requireAvailable: bool, task: Task)
    requires Keyed(agents) && Truthy(rule.targetAgent)
    requires var t := rule.targetAgent.value; t !in agents || (requireAvailable && !IsAvailable(agents[t]))
    ensures RouteByRules(agents, [rule] + rest, requireAvailable, task) == RouteByRules(agents, rest, requireAvailable, task)
  {
    assert ([rule] + rest)[1..] == rest;
  }

  /** Rules are tried in order: a rule that does not match is passed over. */
  lemma NonMatchingRuleSkipped(agents: map<string, Agent>, rule: Rule, rest: seq<Rule>, requireAvailable: bool, task: Task)
    requires Keyed(agents) && !Matches(rule, task)
    ensures RouteByRules(agents, [rule] + rest, requireAvailable, task) == RouteByRules(agents, rest, requireAvailable, task)
  {
    assert ([rule] + rest)[1..] == rest;
  }

  /** The six default rules: priority 10, one per domain but orchestration, no target or capability. */
  lemma DefaultRulesFacts()
    ensures |DEFAULT_RULES| == 6 && SortedByPriority(DEFAULT_RULES)
    ensures forall i :: 0 <= i < 6 ==> (DEFAULT_RULES[i].priority == 10 && DEFAULT_RULES[i].domain.Some?
      && DEFAULT_RULES[i].domain != Some(Orchestration) && DEFAULT_RULES[i].targetAgent.None?
      && DEFAULT_RULES[i].capability.None? && DEFAULT_RULES[i].keywords != [])
    ensures SortRules(DEFAULT_RULES) == DEFAULT_RULES
  {
    SortRulesSorted(DEFAULT_RULES);
  }
}
