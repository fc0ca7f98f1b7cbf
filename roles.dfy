/**
 * Role-based access control: a policy per role lists the domains and
 * action patterns it may use, and the enforcer decides each request from
 * the role's policy alone; the configuration check reports repeated role ids
 * and empty policies.
 */
module Roles {
  import opened Common
  import opened Agents

  /** `Permission` */
  datatype Permission = Read | Write | Execute | Admin

  /** `RolePolicy` */
  datatype RolePolicy = RolePolicy(
    roleId: string,
    name: string,
    description: string,
    allowedDomains: seq<Domain>,
    allowedActions: seq<string>,
    permissions: seq<Permission>)

  /**
   * `RolePolicy(...)`: role_id and name must not be blank; the two field
   * validators report together, and both values are stored as given.
   */
  function NewRolePolicy(roleId: string, name: string, description: string, domains: seq<Domain>,
                         actions: seq<string>, permissions: seq<Permission>): (r: Result<RolePolicy, seq<string>>)
    ensures r.Ok? <==> !IsBlank(roleId) && !IsBlank(name)
    ensures r.Ok? ==> r.value == RolePolicy(roleId, name, description, domains, actions, permissions)
    ensures r.Err? ==> |r.error| == (if IsBlank(roleId) then 1 else 0) + (if IsBlank(name) then 1 else 0)
  {
    var errors :=
      (if IsBlank(roleId) then ["role_id must not be empty"] else []) +
      (if IsBlank(name) then ["name must not be empty"] else []);
    if errors == [] then Ok(RolePolicy(roleId, name, description, domains, actions, permissions))
    else Err(errors)
  }

  /** `_build_default_policies()` */
  function DefaultPolicies(): seq<RolePolicy> {
    [ RolePolicy("orchestrator", "Orchestrator", "Full admin access on all domains.",
        ALL_DOMAINS, ["*"], [Read, Write, Execute, Admin]),
      RolePolicy("cmdb-agent", "CMDB Agent", "Read, write, and execute on CMDB domain only.",
        [Cmdb], ["cmdb.query", "cmdb.update", "cmdb.create", "cmdb.delete",
                 "cmdb.health_audit", "cmdb.bulk_operations", "cmdb.map_relationships"],
        [Read, Write, Execute]),
      RolePolicy("discovery-agent", "Discovery Agent", "Read, write, and execute on DISCOVERY domain only.",
        [Discovery], ["discovery.scan", "discovery.status", "discovery.reconcile", "discovery.schedule"],
        [Read, Write, Execute]),
      RolePolicy("asset-agent", "Asset Agent", "Read, write, and execute on ASSET domain only.",
        [Asset], ["asset.query", "asset.lifecycle", "asset.reconcile", "asset.license_check"],
        [Read, Write, Execute]),
      RolePolicy("itom-auditor", "ITOM Auditor", "Read and execute on all domains (read-only audit).",
        ALL_DOMAINS, ["audit.compliance", "audit.drift", "audit.report", "audit.policy"],
        [Read, Execute]),
      RolePolicy("itom-documentator", "ITOM Documentator", "Read on all domains, write on DOCUMENTATION.",
        ALL_DOMAINS, ["documentation.generate", "documentation.runbook",
                      "documentation.knowledge_base", "documentation.diagram"],
        [Read, Write]) ]
  }

  // ------------------------------------------------------------------
  // The permission decision
  // ------------------------------------------------------------------

  /** `s.split(".")[0]`: everything before the first dot. */
  function FirstSegment(s: string): (r: string)
    ensures |r| <= |s| && r == s[..|r|] && '.' !in r
    ensures |r| < |s| ==> s[|r|] == '.'
  {
    if s == [] || s[0] == '.' then [] else [s[0]] + FirstSegment(s[1..])
  }

  /** `action.split(".")[0] + ".*" if "." in action else ""` */
  function ActionPrefix(action: string): (r: string)
    ensures r == [] <==> '.' !in action
  {
    if '.' in action then FirstSegment(action) + ".*" else ""
  }

  /** The decision of `check_permission` for a known role's policy. */
  function Permits(p: RolePolicy, action: string, domain: Option<Domain>): bool {
    if "*" in p.allowedActions then true
    else if domain.Some? && p.allowedDomains != [] && domain.value !in p.allowedDomains then false
    else if action in p.allowedActions then true
    else
      var prefix := ActionPrefix(action);
      prefix != [] && prefix in p.allowedActions
  }

  /** `check_permission(role_id, action, domain)` over a role→policy map. */
  function CheckPermission(policies: map<string, RolePolicy>, roleId: string, action: string, domain: Option<Domain>): bool {
    roleId in policies && Permits(policies[roleId], action, domain)
  }

  /**
   * A request is granted exactly when the role is known and either its
   * actions include "*", or the domain passes (no domain given, no domain
   * restriction, or a listed domain) and the action is listed or its
   * "<prefix>.*" is.
   */
  lemma CheckPermissionIff(policies: map<string, RolePolicy>, roleId: string, action: string, domain: Option<Domain>)
    ensures CheckPermission(policies, roleId, action, domain) <==>
      roleId in policies &&
      ("*" in policies[roleId].allowedActions ||
       ((domain.None? || policies[roleId].allowedDomains == [] || domain.value in policies[roleId].allowedDomains) &&
        (action in policies[roleId].allowedActions ||
         ('.' in action && FirstSegment(action) + ".*" in policies[roleId].allowedActions))))
  {
  }

  /** An unknown role is refused everything. */
  lemma UnknownRoleDenied(policies: map<string, RolePolicy>, roleId: string, action: string, domain: Option<Domain>)
    requires roleId !in policies
    ensures !CheckPermission(policies, roleId, action, domain)
  {
  }

  /** The permission levels of a policy never enter the decision. */
  lemma PermissionsIgnored(p: RolePolicy, levels: seq<Permission>, action: string, domain: Option<Domain>)
    ensures Permits(p.(permissions := levels), action, domain) == Permits(p, action, domain)
  {
  }

  /** The first segment of "<category>.<rest>" is the category. */
  lemma {:induction false} FirstSegmentOf(category: string, rest: string)
    requires '.' !in category
    ensures FirstSegment(category + "." + rest) == category
    decreases |category|
  {
    if category != [] {
      FirstSegmentOf(category[1..], rest);
      assert (category + "." + rest)[1..] == category[1..] + "." + rest;
    }
  }

  /** A wildcard prefix grants every action under it, on an allowed domain. */
  lemma PrefixGrants(p: RolePolicy, category: string, rest: string, domain: Option<Domain>)
    requires '.' !in category && category + ".*" in p.allowedActions
    requires domain.None? || p.allowedDomains == [] || domain.value in p.allowedDomains
    ensures Permits(p, category + "." + rest, domain)
  {
    var action := category + "." + rest;
    assert action[|category|] == '.';
    FirstSegmentOf(category, rest);
  }

  // ------------------------------------------------------------------
  // The enforcer
  // ------------------------------------------------------------------

  /** `for policy in policies: d[policy.role_id] = policy`, as a specification. */
  function FromList(ps: seq<RolePolicy>): map<string, RolePolicy>
    decreases |ps|
  {
    if ps == [] then map[]
    else FromList(ps[..|ps| - 1])[ps[|ps| - 1].roleId := ps[|ps| - 1]]
  }

  /** Exactly the listed roles are in the map, each under its own id. */
  lemma {:induction false} FromListKeys(ps: seq<RolePolicy>)
    ensures forall k :: k in FromList(ps) <==> exists i :: 0 <= i < |ps| && ps[i].roleId == k
    ensures forall k :: k in FromList(ps) ==> FromList(ps)[k].roleId == k
    decreases |ps|
  {
    if ps != [] {
      var init := ps[..|ps| - 1];
      FromListKeys(init);
      assert forall i :: 0 <= i < |init| ==> init[i] == ps[i];
    }
  }

  /** A role holds the last policy listed for it: a later policy with the same id replaces an earlier one. */
  lemma {:induction false} FromListLast(ps: seq<RolePolicy>, i: int)
    requires 0 <= i < |ps| && forall j :: i < j < |ps| ==> ps[j].roleId != ps[i].roleId
    ensures ps[i].roleId in FromList(ps) && FromList(ps)[ps[i].roleId] == ps[i]
    decreases |ps|
  {
    if i < |ps| - 1 {
      var init := ps[..|ps| - 1];
      assert init[i] == ps[i];
      FromListLast(init, i);
    }
  }

  class RoleEnforcer {
    var policies: map<string, RolePolicy>

    /** Every policy sits under its own role id. */
    ghost predicate Valid()
      reads this
    {
      forall k :: k in policies ==> policies[k].roleId == k
    }

    /** `RoleEnforcer(policies)`: the given policies, or the defaults when none are given. */
    constructor(given: Option<seq<RolePolicy>>)
      ensures Valid()
      ensures policies == FromList(if given.Some? then given.value else DefaultPolicies())
    {
      var effective := if given.Some? then given.value else DefaultPolicies();
      var m: map<string, RolePolicy> := map[];
      for i := 0 to |effective|
        invariant m == FromList(effective[..i])
      {
        assert effective[..i + 1][..i] == effective[..i];
        m := m[effective[i].roleId := effective[i]];
      }
      assert effective[..|effective|] == effective;
      FromListKeys(effective);
      policies := m;
    }

    /** `add_policy(policy)`: adds or replaces the role's policy. */
    method AddPolicy(policy: RolePolicy)
      requires Valid()
      modifies this
      ensures Valid() && policies == old(policies)[policy.roleId := policy]
    {
      policies := policies[policy.roleId := policy];
    }

    /** `check_permission(role_id, action, domain)` */
    function Check(roleId: string, action: string, domain: Option<Domain>): (r: bool)
      reads this
      ensures r ==> roleId in policies
      ensures r <==> CheckPermission(policies, roleId, action, domain)
    {
      if roleId !in policies then false else Permits(policies[roleId], action, domain)
    }

    /** `get_allowed_domains(role_id)`: empty for an unknown role. */
    function GetAllowedDomains(roleId: string): (r: seq<Domain>)
      reads this
      ensures roleId !in policies ==> r == []
      ensures roleId in policies ==> r == policies[roleId].allowedDomains
    {
      if roleId in policies then policies[roleId].allowedDomains else []
    }

    /** `get_policy(role_id)` */
    function GetPolicy(roleId: string): (r: Option<RolePolicy>)
      reads this
      ensures r.Some? <==> roleId in policies
      ensures r.Some? ==> r.value == policies[roleId]
    {
      if roleId in policies then Some(policies[roleId]) else None
    }

    /** `list_policies()`: every policy once, ascending by role id. */
    method ListPolicies() returns (r: seq<RolePolicy>)
      requires Valid()
      ensures |r| == |policies|
      ensures forall i, j :: 0 <= i < j < |r| ==> Lt(r[i].roleId, r[j].roleId)
      ensures forall p :: p in r <==> exists k :: k in policies && policies[k] == p
    {
      var ids := SortedKeys(policies.Keys);
      var m := policies;
      r := seq(|ids|, i requires 0 <= i < |ids| => m[ids[i]]);
      SortedView(m, ids, r);
    }

    /** `policy_count` */
    function PolicyCount(): (r: nat)
      reads this
      ensures r == |policies.Keys|
    {
      |policies|
    }
  }

  /** The policies stored under the ascending ids, in that order: each policy once, ascending by role id. */
  lemma SortedView(m: map<string, RolePolicy>, ids: seq<string>, r: seq<RolePolicy>)
    requires forall k :: k in m ==> m[k].roleId == k
    requires StrictlySorted(ids) && forall k :: k in ids <==> k in m
    requires |r| == |ids| && forall i :: 0 <= i < |ids| ==> r[i] == m[ids[i]]
    ensures |r| == |m|
    ensures forall i, j :: 0 <= i < j < |r| ==> Lt(r[i].roleId, r[j].roleId)
    ensures forall p :: p in r <==> exists k :: k in m && m[k] == p
  {
    SortedCard(ids);
    assert (set k | k in ids) == m.Keys;
    forall i, j | 0 <= i < j < |r| ensures Lt(r[i].roleId, r[j].roleId) {
      assert r[i].roleId == ids[i] && r[j].roleId == ids[j];
    }
    forall p | exists k :: k in m && m[k] == p ensures p in r {
      var k :| k in m && m[k] == p;
      var i :| 0 <= i < |ids| && ids[i] == k;
      assert r[i] == p;
    }
  }

  // ------------------------------------------------------------------
  // validate_role_config
  // ------------------------------------------------------------------

  /** One finding of `validate_role_config`; `ConfigErrorText` gives its message. */
  datatype ConfigError =
    | DuplicateRoleId(roleId: string)
    | NoPermissions(roleId: string)
    | NoDomainsOrActions(roleId: string)

  function ConfigErrorText(e: ConfigError): string {
    match e
    case DuplicateRoleId(id) => "Duplicate role_id: '" + id + "'"
    case NoPermissions(id) => "Policy '" + id + "' has no permissions"
    case NoDomainsOrActions(id) => "Policy '" + id + "' has no allowed domains or actions"
  }

  /** The role ids in listing order. */
  function RoleIds(ps: seq<RolePolicy>): (r: seq<string>)
    ensures |r| == |ps| && forall i :: 0 <= i < |ps| ==> r[i] == ps[i].roleId
  {
    seq(|ps|, i requires 0 <= i < |ps| => ps[i].roleId)
  }

  /** The first loop: one error per policy whose id was already seen. */
  function DuplicateErrors(ps: seq<RolePolicy>): (r: seq<ConfigError>)
    ensures forall e :: e in r ==> e.DuplicateRoleId? && Repeats(RoleIds(ps), e.roleId)
  {
    var d := Repeated(RoleIds(ps));
    RepeatedIff(RoleIds(ps));
    seq(|d|, i requires 0 <= i < |d| => DuplicateRoleId(d[i]))
  }

  /** The second loop: each policy's own findings, in order. */
  function PolicyErrors(ps: seq<RolePolicy>): (r: seq<ConfigError>)
    ensures forall e :: e in r ==> !e.DuplicateRoleId?
    decreases |ps|
  {
    if ps == [] then []
    else
      var p := ps[0];
      (if p.permissions == [] then [NoPermissions(p.roleId)] else []) +
      (if p.allowedDomains == [] && p.allowedActions == [] then [NoDomainsOrActions(p.roleId)] else []) +
      PolicyErrors(ps[1..])
  }

  /** `validate_role_config(policies)` */
  function ValidateRoleConfig(ps: seq<RolePolicy>): (r: seq<ConfigError>)
    ensures |r| >= |DuplicateErrors(ps)|
  {
    DuplicateErrors(ps) + PolicyErrors(ps)
  }

  /** Each repeated id is reported, and only repeated ids are. */
  lemma DuplicateErrorsIff(ps: seq<RolePolicy>)
    ensures forall id :: DuplicateRoleId(id) in DuplicateErrors(ps) <==> Repeats(RoleIds(ps), id)
  {
    var d := Repeated(RoleIds(ps));
    RepeatedIff(RoleIds(ps));
    forall id | Repeats(RoleIds(ps), id) ensures DuplicateRoleId(id) in DuplicateErrors(ps) {
      var i :| 0 <= i < |d| && d[i] == id;
      assert DuplicateErrors(ps)[i] == DuplicateRoleId(id);
    }
  }

  /** A policy's own findings are reported exactly when it lacks permissions, or both domains and actions. */
  lemma {:induction false} PolicyErrorsIff(ps: seq<RolePolicy>)
    ensures PolicyErrors(ps) == [] <==>
      forall i :: 0 <= i < |ps| ==> ps[i].permissions != [] && (ps[i].allowedDomains != [] || ps[i].allowedActions != [])
    decreases |ps|
  {
    if ps != [] {
      PolicyErrorsIff(ps[1..]);
      assert forall i :: 1 <= i < |ps| ==> ps[i] == ps[1..][i - 1];
    }
  }

  /** A configuration is accepted exactly when role ids are distinct and no policy is empty. */
  lemma ValidateRoleConfigIff(ps: seq<RolePolicy>)
    ensures ValidateRoleConfig(ps) == [] <==>
      (forall i, j :: 0 <= j < i < |ps| ==> ps[i].roleId != ps[j].roleId) &&
      (forall i :: 0 <= i < |ps| ==> ps[i].permissions != [] && (ps[i].allowedDomains != [] || ps[i].allowedActions != []))
  {
    RepeatedIff(RoleIds(ps));
    PolicyErrorsIff(ps);
  }

  /** The six default roles have six different ids. */
  lemma DefaultRoleIdsDistinct()
    ensures forall i, j :: 0 <= j < i < |DefaultPolicies()| ==> DefaultPolicies()[i].roleId != DefaultPolicies()[j].roleId
  {
    var ps := DefaultPolicies();
    var tags := ["os", "ca", "dv", "a-", "ia", "id"];
    forall i | 0 <= i < |ps| ensures [ps[i].roleId[0], ps[i].roleId[5]] == tags[i] {
      if i == 0 {} else if i == 1 {} else if i == 2 {} else if i == 3 {} else if i == 4 {} else {}
    }
    forall i, j | 0 <= j < i < |ps| ensures ps[i].roleId != ps[j].roleId {
      assert tags[i] != tags[j] by {
        if j == 0 {} else if j == 1 {} else if j == 2 {} else if j == 3 {} else {}
      }
    }
  }

  /** The default policies pass the configuration check. */
  lemma DefaultPoliciesValid()
    ensures ValidateRoleConfig(DefaultPolicies()) == []
  {
    DefaultRoleIdsDistinct();
    ValidateRoleConfigIff(DefaultPolicies());
  }

  /** With the default policies the orchestrator role may do anything, on any domain. */
  lemma OrchestratorUnrestricted(action: string, domain: Option<Domain>)
    ensures CheckPermission(FromList(DefaultPolicies()), "orchestrator", action, domain)
  {
    DefaultRoleIdsDistinct();
    FromListLast(DefaultPolicies(), 0);
  }
}
