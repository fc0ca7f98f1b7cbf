/**
 * The agent registry: a map from agent id to registration record, with
 * lookups that raise for unknown ids and listings sorted by agent id.
 * Persisting the registry after each change is outside the model.
 */
module Registry {
  import opened Common
  import opened Json
  import opened Agents

  datatype RegistryError =
    | NotFound(agentId: string)           // AgentNotFoundError, ORCH_1001
    | AlreadyRegistered(agentId: string)  // AgentAlreadyRegisteredError, ORCH_1002

  /** The message each error carries. */
  function ErrorMessage(e: RegistryError): string {
    match e
    case NotFound(id) => "Agent '" + id + "' not found in registry."
    case AlreadyRegistered(id) => "Agent '" + id + "' is already registered."
  }

  /** `_AVAILABLE_STATUSES`: an agent can take work when ONLINE or DEGRADED. */
  predicate IsAvailable(a: Agent) {
    a.status == Online || a.status == Degraded
  }

  /** `any(c.name == name for c in a.capabilities)` */
  predicate HasCapability(a: Agent, name: string) {
    exists i :: 0 <= i < |a.capabilities| && a.capabilities[i].name == name
  }

  /** The filters the registry's listings and the router apply. */
  datatype Criterion =
    | AnyAgent
    | InDomain(domain: Domain)
    | WithCapability(name: string)
    | WithStatus(status: AgentStatus)
    | Available
    | Both(first: Criterion, second: Criterion)

  predicate Satisfies(a: Agent, c: Criterion) {
    match c
    case AnyAgent => true
    case InDomain(d) => a.domain == d
    case WithCapability(n) => HasCapability(a, n)
    case WithStatus(s) => a.status == s
    case Available => IsAvailable(a)
    case Both(c1, c2) => Satisfies(a, c1) && Satisfies(a, c2)
  }

  /** Every record is stored under its own id. */
  predicate Keyed(agents: map<string, Agent>) {
    forall id :: id in agents ==> agents[id].agentId == id
  }

  /** The ids of the registered agents satisfying `c`. */
  function Matching(agents: map<string, Agent>, c: Criterion): set<string> {
    set id | id in agents && Satisfies(agents[id], c)
  }

  /** Ascending agent ids, hence no agent twice. */
  predicate IdsAscending(s: seq<Agent>) {
    forall i, j :: 0 <= i < j < |s| ==> Lt(s[i].agentId, s[j].agentId)
  }

  /**
   * What every listing of the registry promises: sorted by agent id, each item
   * a registered record satisfying `c`, and every such record present.
   */
  ghost predicate Listing(agents: map<string, Agent>, c: Criterion, r: seq<Agent>) {
    IdsAscending(r)
    && (forall i :: 0 <= i < |r| ==> r[i].agentId in agents && agents[r[i].agentId] == r[i] && Satisfies(r[i], c))
    && (forall id :: id in agents && Satisfies(agents[id], c) ==> id in AgentIds(r))
  }

  /** The listing for `c`, as a specification: the matching records ordered by id. */
  ghost function Selection(agents: map<string, Agent>, c: Criterion): (r: seq<Agent>)
    requires Keyed(agents)
    ensures Listing(agents, c, r)
  {
    var ids := SortedOf(Matching(agents, c));
    assert forall i :: 0 <= i < |ids| ==> ids[i] in Matching(agents, c);
    var r := ValuesAt(agents, ids);
    assert forall i :: 0 <= i < |r| ==> r[i].agentId == ids[i];
    assert IdsAscending(r);
    assert forall i :: 0 <= i < |r| ==> r[i].agentId in agents && agents[r[i].agentId] == r[i] && Satisfies(r[i], c);
    assert AgentIds(r) == ids;
    r
  }

  /** The agent ids of a list of records, in order. */
  function AgentIds(r: seq<Agent>): (ids: seq<string>)
    ensures |ids| == |r| && forall i :: 0 <= i < |r| ==> ids[i] == r[i].agentId
  {
    seq(|r|, i requires 0 <= i < |r| => r[i].agentId)
  }

  /** The ids of a listing are the matching ids in ascending order. */
  lemma ListingIds(agents: map<string, Agent>, c: Criterion, r: seq<Agent>)
    requires Keyed(agents) && Listing(agents, c, r)
    ensures AgentIds(r) == SortedOf(Matching(agents, c))
  {
    var ids := AgentIds(r);
    forall k ensures k in ids <==> k in Matching(agents, c) {
      if k in ids {
        var i :| 0 <= i < |ids| && ids[i] == k;
        assert r[i].agentId == k;
      }
    }
    assert StrictlySorted(ids);
    SortedUnique(ids, SortedOf(Matching(agents, c)));
  }

  /** A listing is determined by the registry and the criterion. */
  lemma ListingUnique(agents: map<string, Agent>, c: Criterion, r: seq<Agent>)
    requires Keyed(agents) && Listing(agents, c, r)
    ensures r == Selection(agents, c)
  {
    var sorted := SortedOf(Matching(agents, c));
    assert AgentIds(r) == sorted by {
      ListingIds(agents, c, r);
    }
    assert r == ValuesAt(agents, sorted);
    assert Selection(agents, c) == ValuesAt(agents, sorted);
  }

  /** The first item of a non-empty listing has the smallest id of all matching agents. */
  lemma SelectionFirst(agents: map<string, Agent>, c: Criterion)
    requires Keyed(agents) && Selection(agents, c) != []
    ensures var first := Selection(agents, c)[0];
      first.agentId in Matching(agents, c)
      && forall id :: id in Matching(agents, c) && id != first.agentId ==> Lt(first.agentId, id)
  {
    var r := Selection(agents, c);
    forall id | id in Matching(agents, c) && id != r[0].agentId ensures Lt(r[0].agentId, id) {
      var i :| 0 <= i < |r| && AgentIds(r)[i] == id;
    }
  }

  /** A listing holds one record per matching agent. */
  lemma SelectionSize(agents: map<string, Agent>, c: Criterion)
    requires Keyed(agents)
    ensures |Selection(agents, c)| == |Matching(agents, c)|
  {
    SortedCard(SortedOf(Matching(agents, c)));
    assert (set k | k in SortedOf(Matching(agents, c))) == Matching(agents, c);
  }

  /** `[a for a in s if <c holds>]`, order kept. */
  function Filter(s: seq<Agent>, c: Criterion): (r: seq<Agent>)
    ensures forall a :: a in r <==> a in s && Satisfies(a, c)
    decreases |s|
  {
    if s == [] then []
    else (if Satisfies(s[0], c) then [s[0]] else []) + Filter(s[1..], c)
  }

  /** The criterion as a filter. */
  function SatisfiesFn(c: Criterion): Agent -> bool {
    (a: Agent) => Satisfies(a, c)
  }

  /** Filter is the shared order-keeping `Where`: same records, same order, same multiplicity. */
  lemma {:induction false} FilterIsWhere(s: seq<Agent>, c: Criterion)
    ensures Filter(s, c) == Where(s, SatisfiesFn(c))
    decreases |s|
  {
    if s != [] {
      FilterIsWhere(s[1..], c);
      assert s == [s[0]] + s[1..];
      WherePrepend(s[0], s[1..], SatisfiesFn(c));
    }
  }

  /** Filtering keeps the id order. */
  lemma {:induction false} FilterAscending(s: seq<Agent>, c: Criterion)
    requires IdsAscending(s)
    ensures IdsAscending(Filter(s, c))
    decreases |s|
  {
    if s != [] {
      var rest := Filter(s[1..], c);
      FilterAscending(s[1..], c);
      if Satisfies(s[0], c) {
        var r := [s[0]] + rest;
        forall i, j | 0 <= i < j < |r|
          ensures Lt(r[i].agentId, r[j].agentId)
        {
          if i == 0 {
            assert r[j] in s[1..];
            var k :| 0 <= k < |s[1..]| && s[1..][k] == r[j];
            assert s[k + 1] == r[j];
          } else {
            assert r[i] == rest[i - 1] && r[j] == rest[j - 1];
          }
        }
      }
    }
  }

  /** Filtering a listing for `c` by `c2` gives a listing for both. */
  lemma FilterListing(agents: map<string, Agent>, c: Criterion, c2: Criterion, s: seq<Agent>)
    requires Listing(agents, c, s)
    ensures Listing(agents, Both(c, c2), Filter(s, c2))
  {
    FilterAscending(s, c2);
    FilterKeepsRecords(agents, c, c2, s);
    FilterKeepsMatches(agents, c, c2, s);
  }

  /** Every item a filtered listing keeps is a stored record satisfying both criteria. */
  lemma FilterKeepsRecords(agents: map<string, Agent>, c: Criterion, c2: Criterion, s: seq<Agent>)
    requires forall i :: 0 <= i < |s| ==> s[i].agentId in agents && agents[s[i].agentId] == s[i] && Satisfies(s[i], c)
    ensures var r := Filter(s, c2);
      forall i :: 0 <= i < |r| ==> r[i].agentId in agents && agents[r[i].agentId] == r[i] && Satisfies(r[i], Both(c, c2))
  {
    var r := Filter(s, c2);
    forall i | 0 <= i < |r|
      ensures r[i].agentId in agents && agents[r[i].agentId] == r[i] && Satisfies(r[i], Both(c, c2))
    {
      assert r[i] in s;
      var k :| 0 <= k < |s| && s[k] == r[i];
    }
  }

  /** Every stored record satisfying both criteria survives the filter. */
  lemma FilterKeepsMatches(agents: map<string, Agent>, c: Criterion, c2: Criterion, s: seq<Agent>)
    requires forall id :: id in agents && Satisfies(agents[id], c) ==> id in AgentIds(s)
    requires forall i :: 0 <= i < |s| ==> s[i].agentId in agents && agents[s[i].agentId] == s[i]
    ensures forall id :: id in agents && Satisfies(agents[id], Both(c, c2)) ==> id in AgentIds(Filter(s, c2))
  {
    var r := Filter(s, c2);
    forall id | id in agents && Satisfies(agents[id], Both(c, c2)) ensures id in AgentIds(r) {
      var k :| 0 <= k < |s| && AgentIds(s)[k] == id;
      assert s[k] in r;
      var i :| 0 <= i < |r| && r[i] == s[k];
      assert AgentIds(r)[i] == id;
    }
  }

  /** Filtering a listing by a further criterion gives the listing for both criteria. */
  lemma FilterSelection(agents: map<string, Agent>, c: Criterion, c2: Criterion)
    requires Keyed(agents)
    ensures Filter(Selection(agents, c), c2) == Selection(agents, Both(c, c2))
  {
    FilterListing(agents, c, c2, Selection(agents, c));
    ListingUnique(agents, Both(c, c2), Filter(Selection(agents, c), c2));
  }

  /** Listings depend only on which agents match. */
  lemma SelectionSameMatching(agents: map<string, Agent>, c: Criterion, c2: Criterion)
    requires Keyed(agents) && Matching(agents, c) == Matching(agents, c2)
    ensures Selection(agents, c) == Selection(agents, c2)
  {
  }

  /** `[c for a in agents for c in a.capabilities]` */
  function CapabilitiesOf(s: seq<Agent>): (r: seq<Capability>)
    ensures forall x :: x in r <==> exists i :: 0 <= i < |s| && x in s[i].capabilities
  {
    if s == [] then []
    else
      var rest := CapabilitiesOf(s[1..]);
      assert forall i :: 1 <= i < |s| ==> s[i] == s[1..][i - 1];
      s[0].capabilities + rest
  }

  /** The capabilities gathered from a listing are those of the agents satisfying the criterion. */
  lemma CapabilitiesOfListing(agents: map<string, Agent>, c: Criterion, s: seq<Agent>)
    requires Listing(agents, c, s)
    ensures forall x :: x in CapabilitiesOf(s) <==> exists id :: (id in agents && Satisfies(agents[id], c)
      && x in agents[id].capabilities)
  {
    forall x ensures x in CapabilitiesOf(s) <==> exists id :: (id in agents && Satisfies(agents[id], c)
      && x in agents[id].capabilities)
    {
      if x in CapabilitiesOf(s) {
        var k :| 0 <= k < |s| && x in s[k].capabilities;
        assert s[k].agentId in agents && agents[s[k].agentId] == s[k];
      }
      if exists id :: id in agents && Satisfies(agents[id], c) && x in agents[id].capabilities {
        var id :| id in agents && Satisfies(agents[id], c) && x in agents[id].capabilities;
        var k :| 0 <= k < |s| && AgentIds(s)[k] == id;
        assert x in s[k].capabilities;
      }
    }
  }

  /** The number of capabilities of the given agents. */
  function CapabilityTotal(s: seq<Agent>): nat {
    |CapabilitiesOf(s)|
  }

  /** The number of agents in `s` satisfying `c`. */
  function Count(s: seq<Agent>, c: Criterion): nat {
    if s == [] then 0 else (if Satisfies(s[0], c) then 1 else 0) + Count(s[1..], c)
  }

  lemma {:induction false} CountAppend(s: seq<Agent>, t: seq<Agent>, c: Criterion)
    ensures Count(s + t, c) == Count(s, c) + Count(t, c)
    decreases |s|
  {
    if s != [] {
      assert (s + t)[1..] == s[1..] + t;
      CountAppend(s[1..], t, c);
    } else {
      assert s + t == t;
    }
  }

  lemma {:induction false} CountIsFilterLength(s: seq<Agent>, c: Criterion)
    ensures Count(s, c) == |Filter(s, c)|
    decreases |s|
  {
    if s != [] {
      CountIsFilterLength(s[1..], c);
    }
  }

  /** Counting over the full listing gives the number of agents satisfying `c`. */
  lemma CountOverAll(agents: map<string, Agent>, c: Criterion)
    requires Keyed(agents)
    ensures Count(Selection(agents, AnyAgent), c) == |Matching(agents, c)|
  {
    var all := Selection(agents, AnyAgent);
    assert Count(all, c) == |Selection(agents, Both(AnyAgent, c))| by {
      CountIsFilterLength(all, c);
      FilterSelection(agents, AnyAgent, c);
    }
    assert Selection(agents, Both(AnyAgent, c)) == Selection(agents, c) by {
      SelectionBothAny(agents, c);
    }
    assert |Selection(agents, c)| == |Matching(agents, c)| by {
      SelectionSize(agents, c);
    }
  }

  /** Narrowing the full listing by `c` lists what `c` alone lists. */
  lemma SelectionBothAny(agents: map<string, Agent>, c: Criterion)
    requires Keyed(agents)
    ensures Selection(agents, Both(AnyAgent, c)) == Selection(agents, c)
  {
    forall id | id in agents
      ensures Satisfies(agents[id], Both(AnyAgent, c)) == Satisfies(agents[id], c)
    {
    }
    assert Matching(agents, Both(AnyAgent, c)) == Matching(agents, c);
    SelectionSameMatching(agents, Both(AnyAgent, c), c);
  }

  /** `for agent in agents: m[agent.agent_id] = agent` */
  function PutAll(m: map<string, Agent>, s: seq<Agent>): (r: map<string, Agent>)
    ensures Keyed(m) ==> Keyed(r)
    ensures forall id :: id in r <==> id in m || exists i :: 0 <= i < |s| && s[i].agentId == id
    decreases |s|
  {
    if s == [] then m else PutAll(m[s[0].agentId := s[0]], s[1..])
  }

  /** What `get_summary` returns. */
  datatype Summary = Summary(
    totalAgents: nat,
    agentsByDomain: map<Domain, nat>,
    agentsByStatus: map<AgentStatus, nat>,
    totalCapabilities: nat,
    agentIds: seq<string>)

  /** `m[k] = m.get(k, 0) + 1` */
  function Tally<K>(m: map<K, nat>, k: K): map<K, nat> {
    m[k := (if k in m then m[k] else 0) + 1]
  }

  function DomainOf(a: Agent): Domain { a.domain }
  function StatusOf(a: Agent): AgentStatus { a.status }

  /** The counters a loop over `s` builds, tallying `key` of each agent. */
  function TallyBy<K>(s: seq<Agent>, key: Agent -> K): map<K, nat>
    decreases |s|
  {
    if s == [] then map[] else Tally(TallyBy(s[..|s| - 1], key), key(s[|s| - 1]))
  }

  /** The tally holds a key exactly for the values that occur, with their number of occurrences. */
  lemma {:induction false} TallyCounts<K>(s: seq<Agent>, key: Agent -> K, c: Criterion, k: K)
    requires forall a :: Satisfies(a, c) <==> key(a) == k
    ensures k in TallyBy(s, key) <==> Count(s, c) > 0
    ensures k in TallyBy(s, key) ==> TallyBy(s, key)[k] == Count(s, c)
    decreases |s|
  {
    if s != [] {
      var p := s[..|s| - 1];
      assert s == p + [s[|s| - 1]];
      CountAppend(p, [s[|s| - 1]], c);
      TallyCounts(p, key, c, k);
    }
  }

  /** The loop of `get_summary` over the listing: both tallies and the capability total. */
  method TallyAll(all: seq<Agent>) returns (byDomain: map<Domain, nat>, byStatus: map<AgentStatus, nat>, total: nat)
    ensures byDomain == TallyBy(all, DomainOf) && byStatus == TallyBy(all, StatusOf)
    ensures total == CapabilityTotal(all)
  {
    byDomain, byStatus, total := map[], map[], 0;
    var i := 0;
    while i < |all|
      invariant 0 <= i <= |all|
      invariant byDomain == TallyBy(all[..i], DomainOf)
      invariant byStatus == TallyBy(all[..i], StatusOf)
      invariant total + CapabilityTotal(all[i..]) == CapabilityTotal(all)
    {
      var a := all[i];
      assert all[..i + 1][..i] == all[..i];
      assert all[i..][1..] == all[i + 1..];
      byDomain := Tally(byDomain, a.domain);
      byStatus := Tally(byStatus, a.status);
      total := total + |a.capabilities|;
      i := i + 1;
    }
    assert all[..i] == all;
  }

  /** Tallying the full listing by domain and by status counts the matching agents. */
  lemma SummaryCounts(agents: map<string, Agent>)
    requires Keyed(agents)
    ensures var byDomain := TallyBy(Selection(agents, AnyAgent), DomainOf);
      forall d :: (d in byDomain <==> Matching(agents, InDomain(d)) != {})
        && (d in byDomain ==> byDomain[d] == |Matching(agents, InDomain(d))|)
    ensures var byStatus := TallyBy(Selection(agents, AnyAgent), StatusOf);
      forall st :: (st in byStatus <==> Matching(agents, WithStatus(st)) != {})
        && (st in byStatus ==> byStatus[st] == |Matching(agents, WithStatus(st))|)
  {
    var all := Selection(agents, AnyAgent);
    forall d ensures (d in TallyBy(all, DomainOf) <==> Matching(agents, InDomain(d)) != {})
      && (d in TallyBy(all, DomainOf) ==> TallyBy(all, DomainOf)[d] == |Matching(agents, InDomain(d))|)
    {
      TallyCounts(all, DomainOf, InDomain(d), d);
      CountOverAll(agents, InDomain(d));
    }
    forall st ensures (st in TallyBy(all, StatusOf) <==> Matching(agents, WithStatus(st)) != {})
      && (st in TallyBy(all, StatusOf) ==> TallyBy(all, StatusOf)[st] == |Matching(agents, WithStatus(st))|)
    {
      TallyCounts(all, StatusOf, WithStatus(st), st);
      CountOverAll(agents, WithStatus(st));
    }
  }

  class AgentRegistry {
    var agents: map<string, Agent>

    ghost predicate Valid()
      reads this
    {
      Keyed(agents)
    }

    /** A new registry is empty. */
    constructor()
      ensures Valid() && agents == map[]
    {
      agents := map[];
    }

    /** `for agent in agents: self._agents[agent.agent_id] = agent` */
    method StoreAll(s: seq<Agent>)
      requires Valid()
      modifies this
      ensures Valid()
      ensures agents == PutAll(old(agents), s)
    {
      var i := 0;
      while i < |s|
        invariant 0 <= i <= |s|
        invariant Keyed(agents)
        invariant PutAll(agents, s[i..]) == PutAll(old(agents), s)
      {
        assert s[i..][1..] == s[i + 1..];
        agents := agents[s[i].agentId := s[i]];
        i := i + 1;
      }
    }

    /**
     * The default branch of `initialize` (no persisted state, defaults wanted):
     * each default agent is stored under its id.
     */
    method PopulateDefaults(now: int)
      requires Valid()
      modifies this
      ensures Valid()
      ensures agents == PutAll(old(agents), DefaultAgents(now))
    {
      StoreAll(DefaultAgents(now));
    }

    /** `register(agent)`: refused for an id already present, otherwise stored. */
    method Register(agent: Agent) returns (r: Result<Agent, RegistryError>)
      requires Valid()
      modifies this
      ensures Valid()
      ensures agent.agentId in old(agents) <==> r.Err?
      ensures r.Err? ==> r.error == AlreadyRegistered(agent.agentId) && agents == old(agents)
      ensures r.Ok? ==> r.value == agent && agents == old(agents)[agent.agentId := agent]
    {
      if agent.agentId in agents {
        return Err(AlreadyRegistered(agent.agentId));
      }
      agents := agents[agent.agentId := agent];
      r := Ok(agent);
    }

    /** `unregister(agent_id)`: removes and returns the record. */
    method Unregister(agentId: string) returns (r: Result<Agent, RegistryError>)
      requires Valid()
      modifies this
      ensures Valid()
      ensures agentId in old(agents) <==> r.Ok?
      ensures r.Err? ==> r.error == NotFound(agentId) && agents == old(agents)
      ensures r.Ok? ==> r.value == old(agents)[agentId] && agents == old(agents) - {agentId}
    {
      if agentId !in agents {
        return Err(NotFound(agentId));
      }
      r := Ok(agents[agentId]);
      agents := agents - {agentId};
    }

    /** `get(agent_id)` */
    function Get(agentId: string): (r: Result<Agent, RegistryError>)
      requires Valid()
      reads this
      ensures r.Ok? <==> agentId in agents
      ensures r.Ok? ==> r.value.agentId == agentId && r.value == agents[agentId]
      ensures r.Err? ==> r.error == NotFound(agentId)
    {
      if agentId in agents then Ok(agents[agentId]) else Err(NotFound(agentId))
    }

    /** The sorted comprehension behind every listing. */
    method Select(c: Criterion) returns (r: seq<Agent>)
      requires Valid()
      ensures Listing(agents, c, r)
      ensures r == Selection(agents, c)
    {
      var ids := SortedKeys(Matching(agents, c));
      assert forall i :: 0 <= i < |ids| ==> ids[i] in Matching(agents, c);
      r := ValuesAt(agents, ids);
      assert r == Selection(agents, c);
    }

    /** `list_all()` */
    method ListAll() returns (r: seq<Agent>)
      requires Valid()
      ensures Listing(agents, AnyAgent, r) && r == Selection(agents, AnyAgent)
      ensures |r| == |agents|
    {
      r := Select(AnyAgent);
      SelectionSize(agents, AnyAgent);
      assert Matching(agents, AnyAgent) == agents.Keys;
    }

    /** `search_by_domain(domain)` */
    method SearchByDomain(domain: Domain) returns (r: seq<Agent>)
      requires Valid()
      ensures Listing(agents, InDomain(domain), r) && r == Selection(agents, InDomain(domain))
    {
      r := Select(InDomain(domain));
    }

    /** `search_by_capability(name)`: agents declaring a capability of exactly that name. */
    method SearchByCapability(name: string) returns (r: seq<Agent>)
      requires Valid()
      ensures Listing(agents, WithCapability(name), r) && r == Selection(agents, WithCapability(name))
    {
      r := Select(WithCapability(name));
    }

    /** `search_by_status(status)` */
    method SearchByStatus(status: AgentStatus) returns (r: seq<Agent>)
      requires Valid()
      ensures Listing(agents, WithStatus(status), r) && r == Selection(agents, WithStatus(status))
    {
      r := Select(WithStatus(status));
    }

    /**
     * `update_status(agent_id, status, last_health_check)`: only the status and
     * the health-check time change; a missing time means `now`.
     */
    method UpdateStatus(agentId: string, status: AgentStatus, lastHealthCheck: Option<int>, now: int)
      returns (r: Result<Agent, RegistryError>)
      requires Valid()
      modifies this
      ensures Valid()
      ensures agentId in old(agents) <==> r.Ok?
      ensures r.Err? ==> r.error == NotFound(agentId) && agents == old(agents)
      ensures r.Ok? ==> agents == old(agents)[agentId := r.value]
      ensures r.Ok? ==> r.value == old(agents)[agentId].(status := status,
        lastHealthCheck := Some(if lastHealthCheck.Some? then lastHealthCheck.value else now))
    {
      if agentId !in agents {
        return Err(NotFound(agentId));
      }
      var checkTime := if lastHealthCheck.Some? then lastHealthCheck.value else now;
      var updated := agents[agentId].(status := status, lastHealthCheck := Some(checkTime));
      agents := agents[agentId := updated];
      r := Ok(updated);
    }

    /**
     * `update_metadata(agent_id, metadata, merge)`: merged over the old map
     * (new values winning) or replacing it; nothing else changes.
     */
    method UpdateMetadata(agentId: string, metadata: Object, merge: bool)
      returns (r: Result<Agent, RegistryError>)
      requires Valid()
      modifies this
      ensures Valid()
      ensures agentId in old(agents) <==> r.Ok?
      ensures r.Err? ==> r.error == NotFound(agentId) && agents == old(agents)
      ensures r.Ok? ==> agents == old(agents)[agentId := r.value]
      ensures r.Ok? ==> r.value == old(agents)[agentId].(metadata :=
        if merge then Merge(old(agents)[agentId].metadata, metadata) else metadata)
    {
      if agentId !in agents {
        return Err(NotFound(agentId));
      }
      var agent := agents[agentId];
      var newMetadata := if merge then Merge(agent.metadata, metadata) else metadata;
      var updated := agent.(metadata := newMetadata);
      agents := agents[agentId := updated];
      r := Ok(updated);
    }

    /**
     * `get_capabilities_for_domain(domain)`: the capabilities of the domain's
     * agents, agent after agent in id order.
     */
    method GetCapabilitiesForDomain(domain: Domain) returns (r: seq<Capability>)
      requires Valid()
      ensures r == CapabilitiesOf(Selection(agents, InDomain(domain)))
      ensures forall x :: x in r <==> exists id :: (id in agents && Satisfies(agents[id], InDomain(domain))
        && x in agents[id].capabilities)
    {
      var inDomain := SearchByDomain(domain);
      r := [];
      var i := 0;
      while i < |inDomain|
        invariant 0 <= i <= |inDomain|
        invariant r + CapabilitiesOf(inDomain[i..]) == CapabilitiesOf(inDomain)
      {
        assert inDomain[i..][1..] == inDomain[i + 1..];
        r := r + inDomain[i].capabilities;
        i := i + 1;
      }
      assert inDomain[i..] == [];
      CapabilitiesOfListing(agents, InDomain(domain), inDomain);
    }

    /**
     * `get_summary()`: counts by domain and by status (a key only for a value
     * that occurs), the capability total and the sorted ids.
     */
    method GetSummary() returns (s: Summary)
      requires Valid()
      ensures s.totalAgents == |agents|
      ensures forall d :: d in s.agentsByDomain <==> Matching(agents, InDomain(d)) != {}
      ensures forall d :: d in s.agentsByDomain ==> s.agentsByDomain[d] == |Matching(agents, InDomain(d))|
      ensures forall st :: st in s.agentsByStatus <==> Matching(agents, WithStatus(st)) != {}
      ensures forall st :: st in s.agentsByStatus ==> s.agentsByStatus[st] == |Matching(agents, WithStatus(st))|
      ensures s.totalCapabilities == CapabilityTotal(Selection(agents, AnyAgent))
      ensures StrictlySorted(s.agentIds) && forall k :: k in s.agentIds <==> k in agents
    {
      var all := ListAll();
      var byDomain, byStatus, total := TallyAll(all);
      SummaryCounts(agents);
      var ids := SortedKeys(agents.Keys);
      s := Summary(|agents|, byDomain, byStatus, total, ids);
    }

    /** `agent_count` */
    function AgentCount(): (r: nat)
      reads this
      ensures r == |agents.Keys|
    {
      |agents|
    }
  }

  /** The prose of one default agent: its description and one line per capability. */
  datatype AgentText = AgentText(description: string, capabilities: seq<string>)

  /** The prose of the six default agents, in the order they are built. */
  datatype DefaultTexts = DefaultTexts(
    cmdb: AgentText, discovery: AgentText, asset: AgentText,
    csa: AgentText, auditor: AgentText, documentator: AgentText)

  /** The capabilities of one default agent: the names in order, each with its description. */
  function Capabilities(domain: Domain, names: seq<string>, descriptions: seq<string>): (r: seq<Capability>)
    ensures |r| == |names|
    ensures forall i :: 0 <= i < |r| ==> r[i].name == names[i] && r[i].domain == domain
  {
    seq(|names|, i requires 0 <= i < |names| =>
      Capability(names[i], domain, if i < |descriptions| then descriptions[i] else ""))
  }

  /** What `_build_default_agents()` fixes for one agent besides its prose. */
  datatype DefaultSpec = DefaultSpec(
    agentId: string, name: string, domain: Domain, capabilityNames: seq<string>,
    url: Option<string>, status: AgentStatus, metadata: Object)

  /** One default agent: registered at `now`, never health-checked. */
  function DefaultAgent(spec: DefaultSpec, text: AgentText, now: int): (a: Agent)
    ensures a.agentId == spec.agentId && a.domain == spec.domain && a.status == spec.status
    ensures a.mcpServerUrl == spec.url && a.registeredAt == now && a.lastHealthCheck.None?
    ensures |a.capabilities| == |spec.capabilityNames|
    ensures forall j :: 0 <= j < |a.capabilities| ==>
      a.capabilities[j].name == spec.capabilityNames[j] && a.capabilities[j].domain == spec.domain
  {
    Agent(spec.agentId, spec.name, text.description, spec.domain,
          Capabilities(spec.domain, spec.capabilityNames, text.capabilities),
          spec.url, spec.status, now, None, spec.metadata)
  }

  const CMDB_SPEC: DefaultSpec := DefaultSpec("cmdb-agent", "CMDB Agent", Cmdb,
    ["cmdb_read", "cmdb_write", "query_cis", "map_relationships", "cmdb_health_audit", "bulk_ci_operations"],
    Some("http://localhost:8002/mcp"), Online,
    map["project" := Str("snow-cmdb-agent"), "version" := Str("2.0.0"), "port" := Int(8002)])

  const DISCOVERY_SPEC: DefaultSpec := DefaultSpec("discovery-agent", "Discovery Agent", Discovery,
    ["run_discovery_scan", "get_discovery_status", "reconcile_discovered_cis", "manage_discovery_schedules"],
    None, Offline, map["project" := Str("snow-discovery-agent"), "version" := Str("0.1.0")])

  const ASSET_SPEC: DefaultSpec := DefaultSpec("asset-agent", "Asset Agent", Asset,
    ["query_assets", "manage_asset_lifecycle", "reconcile_assets", "license_compliance_check"],
    None, Offline, map["project" := Str("snow-asset-agent"), "version" := Str("0.1.0")])

  const CSA_SPEC: DefaultSpec := DefaultSpec("csa-agent", "CSA Agent", Csa,
    ["manage_catalog_items", "manage_workflows", "fulfill_requests", "run_remediation"],
    None, Offline, map["project" := Str("snow-csa-agent"), "version" := Str("0.1.0")])

  const AUDITOR_SPEC: DefaultSpec := DefaultSpec("itom-auditor", "ITOM Auditor", Audit,
    ["run_compliance_audit", "detect_configuration_drift", "generate_audit_report", "check_policy_compliance"],
    None, Offline, map["project" := Str("snow-itom-auditor"), "version" := Str("0.1.0")])

  const DOCUMENTATOR_SPEC: DefaultSpec := DefaultSpec("itom-documentator", "ITOM Documentator", Documentation,
    ["generate_documentation", "create_runbook", "update_knowledge_base", "generate_architecture_diagram"],
    None, Offline, map["project" := Str("snow-itom-documentator"), "version" := Str("0.1.0")])

  /** The six default agents in the order they are built. */
  const DEFAULT_SPECS: seq<DefaultSpec> :=
    [CMDB_SPEC, DISCOVERY_SPEC, ASSET_SPEC, CSA_SPEC, AUDITOR_SPEC, DOCUMENTATOR_SPEC]

  /** `_build_default_agents()`: the six ITOM agents, all registered at `now`. */
  function DefaultAgents(now: int): seq<Agent> {
    DefaultAgentsWith(now, DEFAULT_TEXTS)
  }

  function DefaultAgentsWith(now: int, t: DefaultTexts): seq<Agent> {
    var texts := [t.cmdb, t.discovery, t.asset, t.csa, t.auditor, t.documentator];
    seq(6, i requires 0 <= i < 6 => DefaultAgent(DEFAULT_SPECS[i], texts[i], now))
  }

  const DEFAULT_TEXTS: DefaultTexts := DefaultTexts(
    AgentText(
      "Autonomous CMDB management agent (snow-cmdb-agent). "
      + "Full CMDB domain owner: CI queries across all cmdb_ci* types, "
      + "health metrics, duplicate/stale detection, IRE rules, relationship "
      + "mapping, impact analysis, remediation lifecycle, and autonomous workflows. "
      + "Runs on streamable-HTTP at http://localhost:8002/mcp.",
      [ "Query and analyse configuration items across the full cmdb_ci hierarchy: "
          + "server, linux_server, win_server, database, application, network_gear, "
          + "storage_device, computer, service.",
        "Remediate CMDB issues: create/monitor/execute/complete remediation "
          + "requests, run maintenance workflows, reconcile CI data.",
        "Query configuration items with filtering and pagination.",
        "Map and traverse CI relationships, including dependency trees and impact analysis.",
        "Run health checks on CMDB data quality, staleness, duplicates, "
          + "orphaned CIs, and IRE rules across all CI types.",
        "Perform bulk maintenance operations on CIs via autonomous workflows."]),
    AgentText(
      "ServiceNow Discovery automation agent. Manages discovery schedules, "
      + "scans, CI reconciliation, credential management, and pattern-based "
      + "classification of discovered infrastructure.",
      [ "Trigger a discovery scan for a specific IP range or schedule.",
        "Check the status and results of a running or completed discovery scan.",
        "Reconcile discovered CIs with existing CMDB records.",
        "Create, update, or delete discovery schedules."]),
    AgentText(
      "ServiceNow IT Asset Management agent. Handles asset lifecycle, "
      + "inventory tracking, contract and license management, hardware "
      + "and software asset reconciliation.",
      [ "Query IT assets with filtering by type, status, assignment, and location.",
        "Track and manage asset lifecycle from procurement to retirement.",
        "Reconcile asset records with CMDB CIs and discovery data.",
        "Check software license compliance and usage against entitlements."]),
    AgentText(
      "ServiceNow Certified System Administrator agent. Manages service "
      + "catalog items, workflows, request fulfillment, and system "
      + "administration remediation tasks.",
      [ "Create, update, and configure service catalog items and categories.",
        "Create, update, and monitor workflow definitions and executions.",
        "Process and fulfill service requests through the request pipeline.",
        "Execute system administration remediation tasks from the catalog."]),
    AgentText(
      "Read-only governance and compliance auditor for the ITOM suite. "
      + "Performs cross-agent audits, compliance checks, configuration "
      + "drift detection, and generates audit reports.",
      [ "Run a comprehensive compliance audit across ITOM components.",
        "Detect configuration drift between expected and actual states.",
        "Generate structured audit reports in markdown or JSON format.",
        "Validate actions and configurations against defined policies."]),
    AgentText(
      "Read-only documentation and knowledge management agent. "
      + "Generates technical documentation, runbooks, architecture "
      + "diagrams, and maintains the ITOM knowledge base.",
      [ "Generate technical documentation for ITOM components and workflows.",
        "Create operational runbooks for common ITOM procedures.",
        "Update the ITOM knowledge base with new findings and procedures.",
        "Generate architecture and relationship diagrams for ITOM infrastructure."]))

  const DEFAULT_AGENT_IDS: seq<string> :=
    ["cmdb-agent", "discovery-agent", "asset-agent", "csa-agent", "itom-auditor", "itom-documentator"]

  /**
   * The six default agents, one per domain except orchestration: only
   * cmdb-agent is ONLINE and has an MCP URL; the other five are OFFLINE
   * without one.
   */
  lemma DefaultAgentsFacts(now: int, t: DefaultTexts)
    ensures var ds := DefaultAgentsWith(now, t);
      |ds| == 6
      && (forall i :: 0 <= i < 6 ==> ds[i].agentId == DEFAULT_AGENT_IDS[i] && ds[i].registeredAt == now)
      && ds[0].status == Online && ds[0].mcpServerUrl == Some("http://localhost:8002/mcp")
      && (forall i :: 1 <= i < 6 ==> ds[i].status == Offline && ds[i].mcpServerUrl.None?)
      && (forall i :: 0 <= i < 6 ==> (ds[i].domain != Orchestration
            && forall j :: 0 <= j < |ds[i].capabilities| ==> ds[i].capabilities[j].domain == ds[i].domain))
      && |ds[0].capabilities| == 6
      && (forall i :: 1 <= i < 6 ==> |ds[i].capabilities| == 4)
  {
  }

  /** Populating an empty registry with the defaults registers exactly the six ids. */
  lemma DefaultRegistryKeys(now: int, t: DefaultTexts)
    ensures var m := PutAll(map[], DefaultAgentsWith(now, t));
      Keyed(m) && (forall id :: id in m <==> id in DEFAULT_AGENT_IDS)
  {
    DefaultAgentsFacts(now, t);
    var ds := DefaultAgentsWith(now, t);
    forall id ensures (exists i :: 0 <= i < |ds| && ds[i].agentId == id) <==> id in DEFAULT_AGENT_IDS {
      if id in DEFAULT_AGENT_IDS {
        var i :| 0 <= i < 6 && DEFAULT_AGENT_IDS[i] == id;
        assert ds[i].agentId == id;
      }
    }
  }
}
